/** lib/applyPatch.js: when `hexo_7_compatibility_patch` is set, count a
    category's or tag's posts through its `posts` getter again, and list only
    the categories and tags that have posts. */
module Patch {
  import opened Common
  import opened Hexo
  import Generators
  import HiddenPosts

  /** `entity.length` is nonzero, with `length` the size of the `posts` the
      given getter computes. */
  function HasPosts(getter: PostsGetter, allPosts: Option<seq<Post>>, posts: seq<Post>, links: seq<Link>): Entity -> bool
  {
    (e: Entity) => |Generators.RelatedPosts(Generators.LookupSource(getter, allPosts, posts), links, e.id)| != 0
  }

  /** `Model.filter(entity => entity.length)` over the store's entities. */
  function NonEmptyEntities(entities: seq<Entity>, getter: PostsGetter, allPosts: Option<seq<Post>>,
                            posts: seq<Post>, links: seq<Link>): seq<Entity>
  {
    Filter(entities, HasPosts(getter, allPosts, posts, links))
  }

  /** The patched `length` getter: the size of the entity's `posts`. */
  function EntityLength(site: Site, m: Model, e: Entity): (n: nat)
    reads site
    requires site.LengthGetterOf(m) == PostsLength
    ensures n == 0 <==> forall p :: p in Generators.EntityPosts(site, m, e) ==> false
  {
    var posts := Generators.EntityPosts(site, m, e);
    assert |posts| > 0 ==> posts[0] in posts;
    |posts|
  }

  /** The patched `categories` or `tags` local: the entities of the store
      whose `length` is nonzero, in store order. */
  function EntitiesLocal(site: Site, m: Model): (r: seq<Entity>)
    reads site
    requires site.ListGetterOf(m) == NonEmptyOnly && site.LengthGetterOf(m) == PostsLength
    ensures forall e :: e in r <==> e in site.Entities(m) && EntityLength(site, m, e) != 0
  {
    NonEmptyEntities(site.Entities(m), site.PostsGetterOf(m), site.allPosts, site.posts, site.Links(m))
  }

  /** The entities kept keep the store's order. */
  lemma NonEmptyEntitiesKeepOrder(a: seq<Entity>, b: seq<Entity>, getter: PostsGetter,
                                  allPosts: Option<seq<Post>>, posts: seq<Post>, links: seq<Link>)
    ensures NonEmptyEntities(a + b, getter, allPosts, posts, links)
      == NonEmptyEntities(a, getter, allPosts, posts, links) + NonEmptyEntities(b, getter, allPosts, posts, links)
  {
    FilterConcat(a, b, HasPosts(getter, allPosts, posts, links));
  }

  /** `applyPatch`: nothing changes unless the patch is enabled; then both
      lists and both `length` getters are replaced. */
  method ApplyPatch(site: Site, config: Config)
    modifies site`categoriesLocal, site`tagsLocal, site`categoryLength, site`tagLength
    ensures !config.hexo7Patch ==> unchanged(site)
    ensures config.hexo7Patch ==>
      site.categoriesLocal == NonEmptyOnly && site.tagsLocal == NonEmptyOnly
      && site.categoryLength == PostsLength && site.tagLength == PostsLength
  {
    if !config.hexo7Patch {
      return;
    }
    site.categoriesLocal := NonEmptyOnly;
    site.tagsLocal := NonEmptyOnly;
    site.categoryLength := PostsLength;
    site.tagLength := PostsLength;
  }

  /** The reason for the patch: once the posts are partitioned, and while the
      entity's `posts` getter is Hexo's own lookup over the `posts` local, a
      category or tag whose every post is hidden has length zero and is left
      out of the patched list. */
  lemma HiddenOnlyEntityIsNotListed(site: Site, m: Model, e: Entity, all: seq<Post>, key: string)
    requires site.ListGetterOf(m) == NonEmptyOnly && site.LengthGetterOf(m) == PostsLength
    requires site.PostsGetterOf(m) == PostsLookup
    requires site.posts == HiddenPosts.PublicOf(all, key)
    requires forall p :: p in all && Link(e.id, p.id) in site.Links(m) ==> Flagged(p.front, key)
    ensures EntityLength(site, m, e) == 0
    ensures e !in EntitiesLocal(site, m)
  {
    HiddenPosts.PartitionMembers(all, key);
    var posts := Generators.EntityPosts(site, m, e);
    assert forall p :: p !in posts;
  }
}
