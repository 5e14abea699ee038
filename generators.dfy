/** lib/injectGenerators.js: snapshot the generator registry, wrap `post` so
    that it renders public and hidden posts in two passes, expose the union of
    both to the generators named in `public_generators`, and redirect the
    Category/Tag `posts` getters to `all_posts`. */
module Generators {
  import opened Common
  import opened Hexo
  import HiddenPosts

  const PostGenerator := "post"

  /** The locals a union-wrapped generator receives: `posts` holds the public
      posts followed by the hidden ones, everything else is passed through. */
  function UnionLocals(locals: Locals): (u: Locals)
    ensures u.posts == locals.posts + locals.hiddenPosts
    ensures u.hiddenPosts == locals.hiddenPosts && u.allPosts == locals.allPosts && u.pages == locals.pages
  {
    locals.(posts := locals.posts + locals.hiddenPosts)
  }

  /** With the locals the partition publishes, a union-wrapped generator
      sees every post of the collection exactly once (as a permutation:
      public posts first, then hidden ones). */
  lemma UnionHoldsAllPosts(all: seq<Post>, key: string, locals: Locals)
    requires locals.posts == HiddenPosts.PublicOf(all, key)
    requires locals.hiddenPosts == HiddenPosts.HiddenOf(all, key)
    ensures multiset(UnionLocals(locals).posts) == multiset(all)
    ensures |UnionLocals(locals).posts| == |all|
  {
    HiddenPosts.PartitionComplete(all, key);
  }

  /** The locals of the hidden pass: `posts := hidden_posts`. */
  function HiddenPassLocals(locals: Locals): (h: Locals)
    ensures h.posts == locals.hiddenPosts
    ensures h.hiddenPosts == locals.hiddenPosts && h.allPosts == locals.allPosts && h.pages == locals.pages
  {
    locals.(posts := locals.hiddenPosts)
  }

  /** A route of the hidden pass once its `prev` and `next` are nulled; a
      route whose data is markup is left alone. */
  function Unlinked(route: Route): Route
  {
    match route.data
    case Record(post, _, _) => route.(data := Record(post, None, None))
    case Markup(_) => route
  }

  /** The hidden pass after its navigation links are cleared: same routes in
      the same order, every record's `prev` and `next` null, every other
      field and every markup route unchanged. */
  function ClearLinks(routes: seq<Route>): (r: seq<Route>)
    ensures |r| == |routes|
    ensures forall i :: 0 <= i < |r| ==> r[i].path == routes[i].path && r[i].layout == routes[i].layout
    ensures forall i :: 0 <= i < |r| && routes[i].data.Record? ==>
      r[i].data == Record(routes[i].data.post, None, None)
    ensures forall i :: 0 <= i < |r| && routes[i].data.Markup? ==> r[i] == routes[i]
  {
    seq(|routes|, i requires 0 <= i < |routes| => Unlinked(routes[i]))
  }

  /** The loop at lines 37-40 exactly as written: the first route whose data
      is a string makes the assignment throw under strict mode. */
  function ClearLinksAsWritten(routes: seq<Route>): (r: Result<seq<Route>>)
    ensures r.Ok? <==> forall i :: 0 <= i < |routes| ==> routes[i].data.Record?
    ensures r.Ok? ==> r.value == ClearLinks(routes)
    ensures r.Err? ==> r.failure == DataIsString
  {
    if routes == [] then Ok([])
    else if routes[0].data.Markup? then Err(DataIsString)
    else
      var rest := ClearLinksAsWritten(routes[1..]);
      assert forall i :: 1 <= i < |routes| ==> routes[i] == routes[1..][i - 1];
      if rest.Err? then rest
      else
        ClearLinksCons(routes);
        Ok([Unlinked(routes[0])] + rest.value)
  }

  lemma ClearLinksCons(routes: seq<Route>)
    requires |routes| > 0
    ensures ClearLinks(routes) == [Unlinked(routes[0])] + ClearLinks(routes[1..])
  {
    var r := [Unlinked(routes[0])] + ClearLinks(routes[1..]);
    assert |r| == |routes|;
    forall i | 0 <= i < |routes|
      ensures r[i] == ClearLinks(routes)[i]
    {
      if i > 0 {
        assert r[i] == ClearLinks(routes[1..])[i - 1];
      }
    }
  }

  /** A hidden post whose layout is disabled gets a route whose data is its
      markup; as written, the `post` wrapper throws on it, while clearing
      links only on records renders it. */
  lemma StringDataThrowsAsWritten()
    ensures var hidden := [Route("secret/", [], Markup("<p>secret</p>"))];
      ClearLinksAsWritten(hidden) == Err(DataIsString) && ClearLinks(hidden) == hidden
  {
  }

  /** What invoking a registry entry returns. The wrappers delegate to the
      snapshot entry they hold, never to the live registry. */
  function Run(g: GenKind, locals: Locals, base: BaseGenerators): Result<seq<Route>>
    decreases g
  {
    match g
    case Base(name) => Ok(base(name, locals))
    case TwoPass(original) =>
      if original.None? then Err(PostGeneratorMissing)
      else
        var generatedPublic := Run(original.value, locals, base);
        var generatedHidden := Run(original.value, HiddenPassLocals(locals), base);
        if generatedPublic.Err? then generatedPublic
        else if generatedHidden.Err? then generatedHidden
        else Ok(generatedPublic.value + ClearLinks(generatedHidden.value))
    case Exposed(original) => Run(original, UnionLocals(locals), base)
  }

  /** The `post` wrapper over `original` with the loop of lines 37-40
      exactly as written: a hidden route whose data is a string throws. */
  function TwoPassAsWritten(original: GenKind, locals: Locals, base: BaseGenerators): Result<seq<Route>>
  {
    var generatedPublic := Run(original, locals, base);
    var generatedHidden := Run(original, HiddenPassLocals(locals), base);
    if generatedPublic.Err? then generatedPublic
    else if generatedHidden.Err? then generatedHidden
    else match ClearLinksAsWritten(generatedHidden.value)
      case Ok(cleared) => Ok(generatedPublic.value + cleared)
      case Err(f) => Err(f)
  }

  /** The wrapper as written and the corrected wrapper agree exactly when
      both passes succeed and every hidden route holds a record, or a pass
      fails; otherwise the one as written throws. */
  lemma TwoPassAsWrittenVersusRun(original: GenKind, locals: Locals, base: BaseGenerators)
    ensures var pub := Run(original, locals, base);
      var hid := Run(original, HiddenPassLocals(locals), base);
      (TwoPassAsWritten(original, locals, base) == Run(TwoPass(Some(original)), locals, base))
      <==> (pub.Err? || hid.Err? || forall i :: 0 <= i < |hid.value| ==> hid.value[i].data.Record?)
    ensures TwoPassAsWritten(original, locals, base) != Run(TwoPass(Some(original)), locals, base) ==>
      TwoPassAsWritten(original, locals, base) == Err(DataIsString)
  {
  }

  /** The in-place `forEach` of lines 37-40, clearing only record data. */
  method NullHiddenLinks(hidden: array<Route>)
    modifies hidden
    ensures hidden[..] == ClearLinks(old(hidden[..]))
  {
    var i := 0;
    while i < hidden.Length
      invariant 0 <= i <= hidden.Length
      invariant forall j :: 0 <= j < i ==> hidden[j] == Unlinked(old(hidden[j]))
      invariant forall j :: i <= j < hidden.Length ==> hidden[j] == old(hidden[j])
    {
      hidden[i] := Unlinked(hidden[i]);
      i := i + 1;
    }
    assert forall j :: 0 <= j < hidden.Length ==> hidden[..][j] == ClearLinks(old(hidden[..]))[j];
  }

  /** The `post` wrapper of lines 26-43: the public pass, then the hidden
      pass, links of the hidden routes cleared, public routes first. */
  method GeneratePost(original: Option<GenKind>, locals: Locals, base: BaseGenerators)
    returns (r: Result<seq<Route>>)
    ensures r == Run(TwoPass(original), locals, base)
  {
    if original.None? {
      return Err(PostGeneratorMissing);
    }
    var generatedPublic := Run(original.value, locals, base);
    if generatedPublic.Err? {
      return generatedPublic;
    }
    var generatedHidden := Run(original.value, HiddenPassLocals(locals), base);
    if generatedHidden.Err? {
      return generatedHidden;
    }
    var routes := generatedHidden.value;
    var hidden := new Route[|routes|](i requires 0 <= i < |routes| => routes[i]);
    assert hidden[..] == routes;
    NullHiddenLinks(hidden);
    return Ok(generatedPublic.value + hidden[..]);
  }

  /** The `post` wrapper's output: exactly the public pass, then the hidden
      pass with links cleared; its length is the sum of the two. An error of
      either pass is the wrapper's error. */
  lemma PostWrapperRoutes(original: GenKind, locals: Locals, base: BaseGenerators)
    ensures var pub := Run(original, locals, base);
      var hid := Run(original, HiddenPassLocals(locals), base);
      var r := Run(TwoPass(Some(original)), locals, base);
      (r.Ok? <==> pub.Ok? && hid.Ok?)
      && (r.Ok? ==> |r.value| == |pub.value| + |hid.value|
                    && r.value[..|pub.value|] == pub.value
                    && r.value[|pub.value|..] == ClearLinks(hid.value))
  {
    var pub := Run(original, locals, base);
    var hid := Run(original, HiddenPassLocals(locals), base);
    if pub.Ok? && hid.Ok? {
      var r := pub.value + ClearLinks(hid.value);
      assert r[..|pub.value|] == pub.value;
      assert r[|pub.value|..] == ClearLinks(hid.value);
    }
  }

  /** With the locals the partition publishes and an original `post`
      generator that gives one route per post, the wrapper gives one route per
      post of the whole collection: none dropped, none duplicated. */
  lemma PostWrapperCoversAllPosts(all: seq<Post>, key: string, locals: Locals, base: BaseGenerators)
    requires locals.posts == HiddenPosts.PublicOf(all, key)
    requires locals.hiddenPosts == HiddenPosts.HiddenOf(all, key)
    requires |base(PostGenerator, locals)| == |locals.posts|
    requires |base(PostGenerator, HiddenPassLocals(locals))| == |locals.hiddenPosts|
    ensures Run(TwoPass(Some(Base(PostGenerator))), locals, base).Ok?
    ensures |Run(TwoPass(Some(Base(PostGenerator))), locals, base).value| == |all|
  {
    HiddenPosts.PartitionComplete(all, key);
  }

  /** Result of `original.post`: the snapshot entry for `post`, if any. */
  function PostOriginal(original: map<string, GenKind>): Option<GenKind>
  {
    if PostGenerator in original then Some(original[PostGenerator]) else None
  }

  /** The registry once every wrapper is registered: `post` is the two-pass
      wrapper, unless `post` is registered and in `names`; each registered name
      in `names` is union-wrapped; every other entry is as it was. */
  function Injected(original: map<string, GenKind>, names: seq<string>): map<string, GenKind>
  {
    map n | n in original.Keys + {PostGenerator} ::
      if n in names && n in original then Exposed(original[n])
      else if n == PostGenerator then TwoPass(PostOriginal(original))
      else original[n]
  }

  /** Invoking an entry of the injected registry, in terms of the entries
      before injection. */
  lemma InjectedEntries(original: map<string, GenKind>, names: seq<string>, n: string, locals: Locals, base: BaseGenerators)
    ensures n in Injected(original, names) <==> n in original || n == PostGenerator
    ensures n in names && n in original ==>
      Run(Injected(original, names)[n], locals, base) == Run(original[n], UnionLocals(locals), base)
    ensures n == PostGenerator && !(n in names && n in original) ==>
      Injected(original, names)[n] == TwoPass(PostOriginal(original))
    ensures n in original && n != PostGenerator && n !in names ==>
      Injected(original, names)[n] == original[n]
  {
  }

  /** A `post` entry in `public_generators` replaces the two-pass wrapper:
      `post` then sees the union and no link is cleared. */
  lemma PublicPostOverridesTwoPass(original: map<string, GenKind>, names: seq<string>, locals: Locals, base: BaseGenerators)
    requires PostGenerator in names && PostGenerator in original
    ensures Injected(original, names)[PostGenerator] == Exposed(original[PostGenerator])
    ensures Run(Injected(original, names)[PostGenerator], locals, base)
      == Run(original[PostGenerator], UnionLocals(locals), base)
  {
  }

  /** The lookup source of the patched getter: `all_posts || posts`. */
  function LookupSource(getter: PostsGetter, allPosts: Option<seq<Post>>, posts: seq<Post>): seq<Post>
  {
    if getter == AllPostsLookup && allPosts.Some? then allPosts.value else posts
  }

  function LinkedTo(links: seq<Link>, entityId: string): Post -> bool
  {
    (p: Post) => Link(entityId, p.id) in links
  }

  /** `posts.find({_id: {$in: ids}})` where `ids` are the post ids of the
      relation rows of this entity: the posts of the source that some row
      links to the entity, in the source's order. */
  function RelatedPosts(source: seq<Post>, links: seq<Link>, entityId: string): (r: seq<Post>)
    ensures forall p :: p in r <==> p in source && exists l :: l in links && l.entityId == entityId && l.postId == p.id
  {
    Filter(source, LinkedTo(links, entityId))
  }

  /** The related posts keep the source's order. */
  lemma RelatedPostsKeepOrder(a: seq<Post>, b: seq<Post>, links: seq<Link>, entityId: string)
    ensures RelatedPosts(a + b, links, entityId) == RelatedPosts(a, links, entityId) + RelatedPosts(b, links, entityId)
  {
    FilterConcat(a, b, LinkedTo(links, entityId));
  }

  /** A category's or tag's `posts`, as the installed getter computes it. */
  function EntityPosts(site: Site, m: Model, e: Entity): (r: seq<Post>)
    reads site
    ensures site.PostsGetterOf(m) == AllPostsLookup && site.allPosts.Some? ==>
      forall p :: p in r <==> p in site.allPosts.value && Link(e.id, p.id) in site.Links(m)
    ensures site.PostsGetterOf(m) == AllPostsLookup && site.allPosts.None? ==>
      forall p :: p in r <==> p in site.posts && Link(e.id, p.id) in site.Links(m)
  {
    RelatedPosts(LookupSource(site.PostsGetterOf(m), site.allPosts, site.posts), site.Links(m), e.id)
  }

  /** With no name exposed, only `post` is wrapped. */
  lemma InjectedNone(original: map<string, GenKind>)
    ensures Injected(original, []) == original[PostGenerator := TwoPass(PostOriginal(original))]
  {
  }

  /** Exposing one more name changes only that name's entry, and only when it
      is registered. */
  lemma InjectedSnoc(original: map<string, GenKind>, names: seq<string>, n: string)
    ensures Injected(original, names + [n]) ==
      if n in original then Injected(original, names)[n := Exposed(original[n])] else Injected(original, names)
  {
    var a := Injected(original, names + [n]);
    var b := if n in original then Injected(original, names)[n := Exposed(original[n])] else Injected(original, names);
    assert a.Keys == b.Keys;
    forall k | k in a.Keys
      ensures a[k] == b[k]
    {
      assert k in names + [n] <==> k in names || k == n;
    }
  }

  /** Lines 19-22: a copy of the registry, entry by entry. */
  method Snapshot(generators: map<string, GenKind>) returns (original: map<string, GenKind>)
    ensures original == generators
  {
    original := map[];
    var pending := generators.Keys;
    while pending != {}
      invariant pending <= generators.Keys
      invariant original.Keys == generators.Keys - pending
      invariant forall n :: n in original ==> original[n] == generators[n]
      decreases pending
    {
      var n :| n in pending;
      original := original[n := generators[n]];
      pending := pending - {n};
    }
  }

  /** `injectGenerators`. It fails, after the `post` wrapper is registered,
      when `public_generators` is not an array (it has no default). */
  method InjectGenerators(site: Site, config: Config) returns (ok: bool)
    modifies site`generators, site`categoryPosts, site`tagPosts
    ensures ok <==> config.publicGenerators.Some? && config.publicGenerators.value.List?
    ensures ok ==> site.generators == Injected(old(site.generators), config.publicGenerators.value.items)
    ensures !ok ==> site.generators == old(site.generators)[PostGenerator := TwoPass(PostOriginal(old(site.generators)))]
    ensures site.categoryPosts ==
      if ok && "category" in config.publicGenerators.value.items then AllPostsLookup else old(site.categoryPosts)
    ensures site.tagPosts ==
      if ok && "tag" in config.publicGenerators.value.items then AllPostsLookup else old(site.tagPosts)
  {
    var original := Snapshot(site.generators);

    site.generators := site.generators[PostGenerator := TwoPass(PostOriginal(original))];

    if !(config.publicGenerators.Some? && config.publicGenerators.value.List?) {
      return false;
    }
    var names := config.publicGenerators.value.items;
    InjectedNone(original);
    for i := 0 to |names|
      modifies site`generators
      invariant site.generators == Injected(original, names[..i])
    {
      assert names[..i + 1] == names[..i] + [names[i]];
      InjectedSnoc(original, names[..i], names[i]);
      if names[i] in original {
        site.generators := site.generators[names[i] := Exposed(original[names[i]])];
      }
    }
    assert names[..|names|] == names;

    if "category" in names {
      site.categoryPosts := AllPostsLookup;
    }
    if "tag" in names {
      site.tagPosts := AllPostsLookup;
    }
    return true;
  }
}
