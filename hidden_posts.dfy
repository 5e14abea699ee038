/** lib/prepareHiddenPosts.js: before generation, split the posts into the
    `all_posts`, `hidden_posts` and `posts` locals, and keep hidden pages out
    of the sitemap. */
module HiddenPosts {
  import opened Common
  import opened Hexo

  function IsHidden(key: string): Post -> bool
  {
    (p: Post) => Flagged(p.front, key)
  }

  function IsPublic(key: string): Post -> bool
  {
    (p: Post) => !Flagged(p.front, key)
  }

  /** `all_posts.find({[key]: true})`. */
  function HiddenOf(posts: seq<Post>, key: string): seq<Post>
  {
    Filter(posts, IsHidden(key))
  }

  /** `all_posts.filter(post => !post[key])`. */
  function PublicOf(posts: seq<Post>, key: string): seq<Post>
  {
    Filter(posts, IsPublic(key))
  }

  /** The hidden posts are exactly the flagged ones, the public posts exactly
      the others; no post is in both. */
  lemma PartitionMembers(posts: seq<Post>, key: string)
    ensures forall p :: p in HiddenOf(posts, key) <==> p in posts && Flagged(p.front, key)
    ensures forall p :: p in PublicOf(posts, key) <==> p in posts && !Flagged(p.front, key)
    ensures forall p :: !(p in HiddenOf(posts, key) && p in PublicOf(posts, key))
  {
  }

  /** Together the two subsets hold every post exactly as often as the
      collection does, so their sizes sum to its size. */
  lemma PartitionComplete(posts: seq<Post>, key: string)
    ensures multiset(HiddenOf(posts, key)) + multiset(PublicOf(posts, key)) == multiset(posts)
    ensures |HiddenOf(posts, key)| + |PublicOf(posts, key)| == |posts|
  {
    FilterSplit(posts, IsHidden(key), IsPublic(key));
  }

  /** Both subsets keep the collection's order: splitting a collection in two
      and partitioning each half gives the halves' subsets end to end. */
  lemma PartitionKeepsOrder(a: seq<Post>, b: seq<Post>, key: string)
    ensures HiddenOf(a + b, key) == HiddenOf(a, key) + HiddenOf(b, key)
    ensures PublicOf(a + b, key) == PublicOf(a, key) + PublicOf(b, key)
  {
    FilterConcat(a, b, IsHidden(key));
    FilterConcat(a, b, IsPublic(key));
  }

  /** Partitioning a subset again changes nothing, and the public posts hold
      no hidden one. */
  lemma PartitionStable(posts: seq<Post>, key: string)
    ensures HiddenOf(HiddenOf(posts, key), key) == HiddenOf(posts, key)
    ensures PublicOf(PublicOf(posts, key), key) == PublicOf(posts, key)
    ensures HiddenOf(PublicOf(posts, key), key) == []
  {
    FilterIdempotent(posts, IsHidden(key));
    FilterIdempotent(posts, IsPublic(key));
    FilterKeepsNone(PublicOf(posts, key), IsHidden(key));
  }

  /** `prepareHiddenPosts`: rebind the `posts` local to the store, publish the
      three locals, and set `sitemap = false` on (and save) every page whose
      flag is true. */
  method PrepareHiddenPosts(site: Site, key: string)
    modifies site`posts, site`allPosts, site`hiddenPosts, site`pages
    ensures site.allPosts == Some(old(site.storePosts))
    ensures site.hiddenPosts == Some(HiddenOf(old(site.storePosts), key))
    ensures site.posts == PublicOf(old(site.storePosts), key)
    ensures |site.pages| == |old(site.pages)|
    ensures forall i :: 0 <= i < |site.pages| && Flagged(old(site.pages[i]).front, key) ==>
      site.pages[i] == old(site.pages[i]).(sitemap := Some(false))
    ensures forall i :: 0 <= i < |site.pages| && !Flagged(old(site.pages[i]).front, key) ==>
      site.pages[i] == old(site.pages[i])
  {
    site.posts := site.storePosts;  // _bindLocals

    var allPosts := site.posts;
    var hiddenPosts := HiddenOf(allPosts, key);
    var normalPosts := PublicOf(allPosts, key);

    site.allPosts := Some(allPosts);
    site.hiddenPosts := Some(hiddenPosts);
    site.posts := normalPosts;

    var i := 0;
    while i < |site.pages|
      modifies site`pages
      invariant 0 <= i <= |site.pages| == |old(site.pages)|
      invariant forall j :: 0 <= j < i && Flagged(old(site.pages[j]).front, key) ==>
        site.pages[j] == old(site.pages[j]).(sitemap := Some(false))
      invariant forall j :: 0 <= j < |site.pages| && (i <= j || !Flagged(old(site.pages[j]).front, key)) ==>
        site.pages[j] == old(site.pages[j])
    {
      if Flagged(site.pages[i].front, key) {
        site.pages := site.pages[i := site.pages[i].(sitemap := Some(false))];
      }
      i := i + 1;
    }
  }

  /** Running the step again on the state it leaves (the store unchanged)
      publishes the same locals and writes the same pages: the partition is
      recomputed from the store each time, and a hidden page already has
      `sitemap = false`. */
  method PrepareTwice(site: Site, key: string)
    modifies site`posts, site`allPosts, site`hiddenPosts, site`pages
    ensures site.allPosts == Some(old(site.storePosts))
    ensures site.hiddenPosts == Some(HiddenOf(old(site.storePosts), key))
    ensures site.posts == PublicOf(old(site.storePosts), key)
    ensures |site.pages| == |old(site.pages)|
    ensures forall i :: 0 <= i < |site.pages| && Flagged(old(site.pages[i]).front, key) ==>
      site.pages[i] == old(site.pages[i]).(sitemap := Some(false))
    ensures forall i :: 0 <= i < |site.pages| && !Flagged(old(site.pages[i]).front, key) ==>
      site.pages[i] == old(site.pages[i])
  {
    PrepareHiddenPosts(site, key);
    ghost var once := site.pages;
    PrepareHiddenPosts(site, key);
    assert forall i :: 0 <= i < |site.pages| ==> site.pages[i] == once[i];
  }
}
