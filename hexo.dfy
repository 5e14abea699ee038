/** The part of the Hexo host that the plugin reads and overwrites: the
    shared `locals`, the content store, the Category and Tag models with their
    relation tables and virtual getters, and the generator registry. */
module Hexo {
  import opened Common

  /** A route's `data`: usually the post record, with the `prev`/`next` links
      the `post` generator sets; for a post whose layout is disabled, the
      rendered markup as a bare string. */
  datatype RouteData =
    | Record(post: Post, prev: Option<Post>, next: Option<Post>)
    | Markup(html: string)

  datatype Route = Route(path: string, layout: seq<string>, data: RouteData)

  /** The locals object passed to every generator. */
  datatype Locals = Locals(
    posts: seq<Post>,
    hiddenPosts: seq<Post>,
    allPosts: seq<Post>,
    pages: seq<Page>)

  /** What a generator registry entry does when invoked.
      `Base(name)` is the function another plugin or Hexo itself had
      registered under `name` before the plugin wrapped anything; the two
      wrappers hold the snapshot entry they delegate to. */
  datatype GenKind =
    | Base(name: string)
    | TwoPass(postOriginal: Option<GenKind>)  // the `post` wrapper; None: `original.post` is undefined
    | Exposed(original: GenKind)          // the wrapper for a name in `public_generators`

  /** The behaviour of every generator registered before the plugin ran;
      its bodies belong to Hexo and other plugins. */
  type BaseGenerators = (string, Locals) -> seq<Route>

  /** A Category or Tag record. */
  datatype Entity = Entity(id: string, name: string)

  /** A PostCategory or PostTag row. */
  datatype Link = Link(entityId: string, postId: string)

  /** Which `posts` virtual getter a model has: Hexo's own lookup over the
      `posts` local, or the plugin's lookup over `all_posts`. */
  datatype PostsGetter = PostsLookup | AllPostsLookup

  /** Which `length` virtual getter a model has: Hexo 7's own (not modelled)
      or `this.posts.length`. */
  datatype LengthGetter = HostLength | PostsLength

  /** Which getter the `categories` or `tags` local has: Hexo 7's own (not
      modelled) or the store filtered by nonzero length. */
  datatype ListGetter = HostList | NonEmptyOnly

  datatype Model = CategoryModel | TagModel

  class Site {
    /** What `_bindLocals` binds to the `posts` local. */
    var storePosts: seq<Post>
    /** The `posts`, `all_posts` and `hidden_posts` locals (the last two are
        undefined until the plugin sets them). */
    var posts: seq<Post>
    var allPosts: Option<seq<Post>>
    var hiddenPosts: Option<seq<Post>>
    /** The Page store; writing an element stands for `page.save()`. */
    var pages: seq<Page>

    var categories: seq<Entity>
    var tags: seq<Entity>
    var postCategories: seq<Link>
    var postTags: seq<Link>
    var categoryPosts: PostsGetter
    var tagPosts: PostsGetter
    var categoryLength: LengthGetter
    var tagLength: LengthGetter
    var categoriesLocal: ListGetter
    var tagsLocal: ListGetter

    /** `hexo.extend.generator`'s store. */
    var generators: map<string, GenKind>

    function Entities(m: Model): seq<Entity>
      reads this
    {
      if m == CategoryModel then categories else tags
    }

    function Links(m: Model): seq<Link>
      reads this
    {
      if m == CategoryModel then postCategories else postTags
    }

    function PostsGetterOf(m: Model): PostsGetter
      reads this
    {
      if m == CategoryModel then categoryPosts else tagPosts
    }

    function LengthGetterOf(m: Model): LengthGetter
      reads this
    {
      if m == CategoryModel then categoryLength else tagLength
    }

    function ListGetterOf(m: Model): ListGetter
      reads this
    {
      if m == CategoryModel then categoriesLocal else tagsLocal
    }
  }
}
