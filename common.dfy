/** Shared data model of the hide-posts plugin: posts, pages, the plugin's
    configuration record, and an order-preserving filter on sequences (the
    `find`/`filter` queries of Hexo's content store). */
module Common {

  datatype Option<+T> = None | Some(value: T)

  /** The reasons a call of the JavaScript original throws a TypeError. */
  datatype Failure =
    | PostGeneratorMissing      // `original.post` is undefined when the `post` wrapper runs
    | PublicGeneratorsNotArray  // `config.public_generators.filter` where the value is not an array
    | DataIsString              // `ele.data.prev = null` on string route data under 'use strict'

  datatype Result<+T> = Ok(value: T) | Err(failure: Failure)

  /** The boolean fields of a post's or page's front-matter. */
  type FrontMatter = map<string, bool>

  /** `item[key]` is truthy: the field is present and true. With boolean
      fields this is also `item[key] === true`, so `find({[key]: true})` and
      `filter(item => !item[key])` select complementary sets. */
  predicate Flagged(front: FrontMatter, key: string)
  {
    key in front && front[key]
  }

  datatype Post = Post(id: string, front: FrontMatter)

  /** A page of the content store; `sitemap` is absent until set. */
  datatype Page = Page(id: string, front: FrontMatter, sitemap: Option<bool>)

  /** A configuration value that is meant to be a list of generator names but
      may be given as a single string, or as null. */
  datatype ListValue = List(items: seq<string>) | Text(text: string) | Null

  /** JavaScript truthiness of a list setting: arrays are truthy even when
      empty, strings are truthy unless empty, null is falsy. */
  predicate Truthy(v: ListValue)
  {
    v.List? || (v.Text? && v.text != "")
  }

  /** `hexo.config.hide_posts` once the defaults are merged in. A function
      setting that is not a function is modelled as `None`. The key
      `public_generators` has no default, so it may be absent. */
  datatype Config = Config(
    enable: bool,
    filter: string,
    allowlist: ListValue,
    blocklist: ListValue,
    allowlistFunction: Option<string -> bool>,
    aclFunctionPerPost: Option<(Post, string) -> bool>,
    hexo7Patch: bool,
    noindex: bool,
    noindexTag: string,
    htmlFlag: string,
    publicGenerators: Option<ListValue>)

  /** The elements of `s` that satisfy `keep`, in their order in `s`. */
  function Filter<T(!new)>(s: seq<T>, keep: T -> bool): (r: seq<T>)
    ensures |r| <= |s|
    ensures forall x :: x in r <==> x in s && keep(x)
  {
    if s == [] then []
    else if keep(s[0]) then [s[0]] + Filter(s[1..], keep)
    else Filter(s[1..], keep)
  }

  /** Filtering commutes with concatenation: the relative order of the kept
      elements is the order of `s`. */
  lemma {:induction false} FilterConcat<T(!new)>(a: seq<T>, b: seq<T>, keep: T -> bool)
    ensures Filter(a + b, keep) == Filter(a, keep) + Filter(b, keep)
  {
    if a == [] {
      assert a + b == b;
    } else {
      assert (a + b)[0] == a[0];
      assert (a + b)[1..] == a[1..] + b;
      FilterConcat(a[1..], b, keep);
    }
  }

  /** A sequence all of whose elements are kept is its own filter. */
  lemma {:induction false} FilterKeepsAll<T(!new)>(s: seq<T>, keep: T -> bool)
    requires forall x :: x in s ==> keep(x)
    ensures Filter(s, keep) == s
  {
    if s != [] {
      assert s[0] in s;
      assert forall x :: x in s[1..] ==> x in s;
      FilterKeepsAll(s[1..], keep);
    }
  }

  /** A sequence none of whose elements is kept filters to nothing. */
  lemma {:induction false} FilterKeepsNone<T(!new)>(s: seq<T>, keep: T -> bool)
    requires forall x :: x in s ==> !keep(x)
    ensures Filter(s, keep) == []
  {
    if s != [] {
      assert s[0] in s;
      assert forall x :: x in s[1..] ==> x in s;
      FilterKeepsNone(s[1..], keep);
    }
  }

  /** Filtering is idempotent. */
  lemma FilterIdempotent<T(!new)>(s: seq<T>, keep: T -> bool)
    ensures Filter(Filter(s, keep), keep) == Filter(s, keep)
  {
    FilterKeepsAll(Filter(s, keep), keep);
  }

  /** A filter and the filter by the opposite test split `s`: together they
      hold every element of `s` exactly as often as `s` does. */
  lemma {:induction false} FilterSplit<T(!new)>(s: seq<T>, keep: T -> bool, drop: T -> bool)
    requires forall x :: drop(x) == !keep(x)
    ensures multiset(Filter(s, keep)) + multiset(Filter(s, drop)) == multiset(s)
    ensures |Filter(s, keep)| + |Filter(s, drop)| == |s|
  {
    if s != [] {
      FilterSplit(s[1..], keep, drop);
      assert s == [s[0]] + s[1..];
    }
  }
}
