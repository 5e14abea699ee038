# hexo-hide-posts, modelled in Dafny

hexo-hide-posts is a Hexo plugin that hides posts carrying a front-matter
flag (by default `hidden: true`). A hidden post is still rendered at its own
permalink, but most generators never see it: the archive, the index, the
category and tag pages and the feeds. This project models the plugin's core
and proves what each step promises:

- `access.dfy` (`Access`): the allow/block decision of
  `isGeneratorAllowed`. It covers the custom-function override, the
  wildcard/exact formula, how that formula compares with the documented
  precedence, and every scenario of the unit test file.
- `hidden_posts.dfy` (`HiddenPosts`): `prepareHiddenPosts`. This is the
  three-way partition of the posts into the `all_posts`, `hidden_posts` and
  `posts` locals, plus the loop that takes hidden pages out of the sitemap.
- `generators.dfy` (`Generators`): `injectGenerators`, covering:
  - the registry snapshot;
  - the two-pass `post` wrapper and the in-place clearing of `prev`/`next`;
  - the union wrapper for the generators named in `public_generators`;
  - the redirected Category/Tag `posts` getters.
- `patch.dfy` (`Patch`): `applyPatch`, the Hexo 7 compatibility patch. It
  sets `length` to the size of `posts`, and makes the categories and tags
  locals keep only entities with posts.
- `plugin.dfy` (`Plugin`): `index.js`, covering:
  - back-compatibility;
  - merging defaults with the user settings;
  - coercing the list settings;
  - the `enable` gate and the hooks registered;
  - the `after_post_render` flag and the `after_render:html` noindex
    insertion.
- `common.dfy` (`Common`) and `hexo.dfy` (`Hexo`): the data model.
  - `Common` holds the front matter, posts, pages, the plugin configuration
    and an order-keeping `Filter` with its lemmas.
  - `Hexo` holds the host's state as a `Site` class: the post store, the
    locals, the generator registry and the category/tag models with their
    installed getters. It also holds the route and generator values.

Generators are values of `GenKind`:
- a host generator by name (`Base`);
- the plugin's two-pass `post` wrapper over a snapshot entry (`TwoPass`);
- the union wrapper over a snapshot entry (`Exposed`).

`Generators.Run` gives their meaning. What a host generator produces is the
parameter `base: (string, Locals) -> seq<Route>`. The Category/Tag `posts`
and `length` getters and the categories/tags locals are modelled as tags on
the `Site`, with recorded choices (`PostsGetter`, `LengthGetter`,
`ListGetter`). `Generators.EntityPosts`, `Patch.EntityLength` and
`Patch.EntitiesLocal` give them meaning.

Facts about the code that the model keeps:
- `injectGenerators` reads `public_generators` directly and never calls
  `isGeneratorAllowed`.
- `public_generators` has no default in `index.js`. With the default
  settings, `injectGenerators` fails right after registering the `post`
  wrapper, and `Generators.InjectGenerators` models that failure.
- The noindex tag is inserted right after the first `</title>`.
- The access formula lets wildcards in both lists outrank an exact block.
  `Access.FormulaVersusPrecedence` shows that this is the only case where
  it departs from the precedence of the doc comment of
  `lib/isGeneratorAllowed.js`, read with an exact block over an allow
  wildcard. The comment alone leaves that order open, and the test at
  `lib/isGeneratorAllowed.test.js:70-77` fixes it.
- The `post` wrapper's loop that clears `prev`/`next` throws on string route
  data. `Generators.Run`, `Generators.GeneratePost` and
  `Generators.NullHiddenLinks` use the corrected loop (see "## Findings").
  `Generators.TwoPassAsWritten` is the wrapper exactly as written.

## Model

| member | source | states |
|---|---|---|
| Common.Filter | lib/prepareHiddenPosts.js:27-28 | The result is no longer than the input, and holds exactly the input's elements that are kept. |
| Common.Flagged | lib/prepareHiddenPosts.js:27-28 | The flag test: the front matter holds the key with the value true. The same test reads `data[config.filter]` at index.js:60. |
| Common.Truthy | index.js:33-39 | JavaScript truthiness of a list setting: an array, or a non-empty string. The same test is used at index.js:7. |
| Common.FilterConcat | lib/prepareHiddenPosts.js:27-28 | Filtering keeps order: filtering a concatenation gives the filtered halves end to end. |
| Common.FilterKeepsAll | lib/prepareHiddenPosts.js:28 | If every element is kept, the filter returns its input. |
| Common.FilterKeepsNone | lib/prepareHiddenPosts.js:27 | If no element is kept, the filter returns the empty sequence. |
| Common.FilterIdempotent | lib/prepareHiddenPosts.js:27-28 | Filtering twice by the same test is filtering once. |
| Common.FilterSplit | lib/prepareHiddenPosts.js:27-28 | For complementary tests, the two results together hold every element as often as the input does, and their sizes sum to the input's size. |
| Access.IsGeneratorAllowed | lib/isGeneratorAllowed.js:11-27 | If `allowlist_function` is set, its answer is the result; the lists are then ignored. The decision is a function of the configuration and the name alone. |
| Access.FormulaVersusPrecedence | lib/isGeneratorAllowed.js:4-26 | The coded formula differs from the documented precedence (exact allow, exact block, wildcard allow, default deny) exactly when the name is blocked by name only and both lists hold `*`. |
| Access.CustomFunctionOverrides | lib/isGeneratorAllowed.js:12-14 | A custom function decides, whatever the lists hold. |
| Access.ExactAllowWins | lib/isGeneratorAllowed.js:23 | A name in the allowlist is always allowed, even under a block wildcard or an exact block. |
| Access.WildcardAllowDeniesOnlyExactBlocks | lib/isGeneratorAllowed.js:24-25 | With `*` allowed, a name is denied if and only if it is blocked by name, is not allowed by name, and the blocklist has no `*`. |
| Access.BothWildcardsAllowAll | lib/isGeneratorAllowed.js:25 | With `*` in both lists, every name is allowed. |
| Access.DefaultDeny | lib/isGeneratorAllowed.js:22-26 | A name that is neither allowed by name nor covered by an allow wildcard is denied. |
| Access.ByPrecedence | lib/isGeneratorAllowed.js:5 | The precedence of the doc comment as an ordered rule list: exact allow, then exact block, then allow wildcard, then deny. Exact block before allow wildcard is the order that lib/isGeneratorAllowed.test.js:70-77 fixes. |
| Access.BlockAllAllowNothing | lib/isGeneratorAllowed.test.js:7-14 | Allowlist `[]` with blocklist `['*']` allows none of the eight stock generators. |
| Access.BlockAllButAllowTwo | lib/isGeneratorAllowed.test.js:16-23 | Allowlist `category, tag` with blocklist `['*']` allows exactly `category, tag`. |
| Access.AllowAllButBlockTwo | lib/isGeneratorAllowed.test.js:25-32 | Allowlist `['*']` with blocklist `category, tag` allows the other six, in order. |
| Access.EmptyListsAllowNothing | lib/isGeneratorAllowed.test.js:34-41 | Two empty lists allow nothing. |
| Access.AllowWildcardOutranksBlockWildcard | lib/isGeneratorAllowed.test.js:43-50 | `*` in both lists allows all eight. |
| Access.ExactAllowOutranksExactBlock | lib/isGeneratorAllowed.test.js:52-59 | Allowlist `archive, index, *` with blocklist `archive, index` allows all eight. |
| Access.ExactAllowOutranksBlockWildcard | lib/isGeneratorAllowed.test.js:61-68 | Allowlist `archive, index` with blocklist `['*']` allows exactly `archive, index`. |
| Access.ExactBlockOutranksAllowWildcard | lib/isGeneratorAllowed.test.js:70-77 | Allowlist `['*']` with blocklist `archive, index` allows the first six. |
| Access.CustomFunctionScenario | lib/isGeneratorAllowed.test.js:82-88 | The custom function `name === 'category' \|\| name === 'tag'` allows exactly `category, tag`. |
| Access.CustomFunctionHasUtmostPriority | lib/isGeneratorAllowed.test.js:90-97 | A function that is always true allows all eight, despite the blocklist `category, tag`. |
| Access.AllowedAmong | lib/isGeneratorAllowed.test.js:12 | `all.filter(name => isGeneratorAllowed(config, name))`: the allowed names, in their order. |
| Access.AllowedFrom | lib/isGeneratorAllowed.test.js:12 | The same filter over the names from a position on. |
| HiddenPosts.PartitionMembers | lib/prepareHiddenPosts.js:27-28 | `hidden_posts` holds exactly the posts whose flag is true. `posts` holds exactly the others. No post is in both. |
| HiddenPosts.HiddenOf | lib/prepareHiddenPosts.js:27 | The posts whose flag is true, in collection order. |
| HiddenPosts.PublicOf | lib/prepareHiddenPosts.js:28 | The posts whose flag is not true, in collection order. |
| HiddenPosts.IsHidden | lib/prepareHiddenPosts.js:27 | The query `{[config.filter]: true}` as a test on one post. |
| HiddenPosts.IsPublic | lib/prepareHiddenPosts.js:28 | The callback `post => !post[config.filter]`. |
| HiddenPosts.PartitionComplete | lib/prepareHiddenPosts.js:26-28 | The two subsets together hold every post of `all_posts` exactly as often as it does (multisets). Their sizes sum to its size. |
| HiddenPosts.PartitionKeepsOrder | lib/prepareHiddenPosts.js:27-28 | Both subsets keep the collection's order: the subsets of a concatenation are the halves' subsets end to end. |
| HiddenPosts.PartitionStable | lib/prepareHiddenPosts.js:27-28 | Partitioning a subset again changes nothing, and the public posts contain no hidden post. |
| HiddenPosts.PrepareHiddenPosts | lib/prepareHiddenPosts.js:15-47 | `all_posts` becomes the store's posts as read at entry; `hidden_posts` and `posts` become its hidden and public subsets. Every page whose flag is true has `sitemap = false` written back at its index. Every other page is unchanged. The number of pages is unchanged. |
| HiddenPosts.PrepareTwice | lib/prepareHiddenPosts.js:15-47 | Running the step twice leaves the same locals and the same pages as running it once. |
| Generators.UnionLocals | lib/injectGenerators.js:56-62 | The locals a union-wrapped generator receives: `posts` is the public posts followed by the hidden ones, and every other local passes through. Its partner `Generators.UnionHoldsAllPosts` proves that this list is complete. |
| Generators.UnionHoldsAllPosts | lib/injectGenerators.js:6-8 | With the partition's locals, a union-wrapped generator's `posts` is a permutation of `all_posts`: the same multiset and the same size. The exposed generators get the complete list, public posts first. |
| Generators.HiddenPassLocals | lib/injectGenerators.js:32-34 | The hidden pass sees `posts := hidden_posts`; every other local passes through. |
| Generators.ClearLinks | lib/injectGenerators.js:37-40 | Every hidden route keeps its path, its layout and its position. A record's `prev` and `next` become null, and its post is kept. A route whose data is markup is unchanged. |
| Generators.Unlinked | lib/injectGenerators.js:38-39 | One route with `prev` and `next` nulled if its data is a record; a markup route is left as it is. |
| Generators.ClearLinksAsWritten | lib/injectGenerators.js:37-40 | The loop as written succeeds if and only if every route's data is a record, and then agrees with `ClearLinks`. Otherwise it fails with the strict-mode TypeError. |
| Generators.StringDataThrowsAsWritten | lib/injectGenerators.js:37-40 | A hidden route whose data is a markup string makes the loop as written throw, while `ClearLinks` returns it unchanged. |
| Generators.NullHiddenLinks | lib/injectGenerators.js:37-40 | The in-place loop leaves the array holding `ClearLinks` of its old contents. |
| Generators.GeneratePost | lib/injectGenerators.js:26-43 | The `post` wrapper's result equals `Run` of the two-pass wrapper. It fails when there was no original `post`, and otherwise matches the public pass followed by the link-cleared hidden pass. |
| Generators.Run | lib/injectGenerators.js:26-62 | What invoking a registry entry returns. A host generator gives its routes. The two-pass wrapper fails without an original `post`, and otherwise gives the public pass followed by the link-cleared hidden pass, or the first pass's error. The union wrapper runs its snapshot entry on the union locals. Wrappers call the snapshot entry they hold, never the live registry. |
| Generators.TwoPassAsWritten | lib/injectGenerators.js:26-43 | The `post` wrapper with the loop exactly as written: the public pass, then the hidden pass. A string-data hidden route throws; otherwise the public routes are followed by the link-cleared hidden routes. |
| Generators.PostWrapperRoutes | lib/injectGenerators.js:31-42 | About the corrected wrapper (`Run`): the wrapper succeeds if and only if both passes do. Its routes are the public-pass routes, then the hidden-pass routes with links cleared, and its length is the sum of the two. The wrapper as written also fails on a string-data hidden route (`Generators.TwoPassAsWrittenVersusRun`). |
| Generators.TwoPassAsWrittenVersusRun | lib/injectGenerators.js:26-43 | The wrapper as written equals the corrected wrapper if and only if a pass fails or every hidden-pass route holds a record. Whenever they differ, the one as written throws the string-data TypeError. |
| Generators.PostWrapperCoversAllPosts | lib/injectGenerators.js:26-43 | Given the partition's locals and an original `post` generator with one route per post, the corrected wrapper (`Run`) gives exactly one route per post of `all_posts`. The wrapper as written also fails on a string-data hidden route even when both passes succeed (`Generators.TwoPassAsWrittenVersusRun`). |
| Generators.Snapshot | lib/injectGenerators.js:19-22 | The copy maps every registered name to the generator registered under it at entry. |
| Generators.InjectedNone | lib/injectGenerators.js:26 | With no exposed name, the registry differs from the snapshot only in `post`, which becomes the two-pass wrapper. |
| Generators.PostOriginal | lib/injectGenerators.js:27 | `original.post`: the snapshot's `post` entry, or none. |
| Generators.Injected | lib/injectGenerators.js:26-52 | The registry after injection. The keys are the snapshot's plus `post`. A registered name in `public_generators` gets the union wrapper over its snapshot entry. Otherwise `post` gets the two-pass wrapper over the snapshot's `post`. Every other entry is as it was. |
| Generators.InjectedSnoc | lib/injectGenerators.js:46-52 | Processing one more name of `public_generators` re-registers that name with the union wrapper if it is registered, and changes nothing otherwise. |
| Generators.InjectedEntries | lib/injectGenerators.js:26-62 | In the injected registry, the names are the registered ones plus `post`. A registered name in `public_generators` runs its snapshot generator on the union. `post` is the two-pass wrapper unless overridden. Every other entry is unchanged. |
| Generators.PublicPostOverridesTwoPass | lib/injectGenerators.js:26-52 | If `post` is registered and listed in `public_generators`, its final entry is the union wrapper, not the two-pass one. |
| Generators.RelatedPosts | lib/injectGenerators.js:71-93 | The getter returns exactly the posts of its source that some relation row links to the entity. |
| Generators.LinkedTo | lib/injectGenerators.js:73-77 | A post is selected when some relation row links its `_id` to the entity. |
| Generators.LookupSource | lib/injectGenerators.js:74-88 | The collection the getter searches: `all_posts` when the patched getter is installed and `all_posts` is set, otherwise `posts`. |
| Generators.RelatedPostsKeepOrder | lib/injectGenerators.js:76-92 | The related posts keep the source collection's order. |
| Generators.EntityPosts | lib/injectGenerators.js:74-88 | With the patched getter, a category's or tag's posts are its related posts in `all_posts`, or in `posts` when `all_posts` is unset. |
| Generators.InjectGenerators | lib/injectGenerators.js:12-96 | The registry becomes `Injected(snapshot, public_generators)`. If `public_generators` is not an array, only `post` is wrapped and the step fails. The Category (Tag) `posts` getter is redirected exactly when `category` (`tag`) is listed. |
| Patch.EntityLength | lib/applyPatch.js:32-39 | The patched `length` is zero exactly when the entity's `posts` is empty. |
| Patch.EntitiesLocal | lib/applyPatch.js:21-29 | The patched categories and tags locals hold exactly the store's entities with nonzero `length`. |
| Patch.NonEmptyEntitiesKeepOrder | lib/applyPatch.js:23-28 | The kept entities keep the store's order. |
| Patch.NonEmptyEntities | lib/applyPatch.js:23-28 | `Model.filter(entity => entity.length)`: the store's entities whose `posts` is non-empty, in store order. |
| Patch.HasPosts | lib/applyPatch.js:23-28 | The callback `entity => entity.length`: the entity's `posts` is nonempty. |
| Patch.ApplyPatch | lib/applyPatch.js:11-40 | Nothing changes unless `hexo_7_compatibility_patch` is set. Otherwise both locals become the nonzero-length lists and both `length` getters count `posts`. |
| Patch.HiddenOnlyEntityIsNotListed | lib/applyPatch.js:21-39 | Once the posts are partitioned, and while the getter is the lookup over `posts`, a category or tag whose posts are all hidden has length zero and is not listed. |
| Plugin.CoerceList | index.js:33-39 | A truthy non-array value becomes a one-element list. Arrays and falsy values are unchanged. Truthiness is preserved. |
| Plugin.DefaultConfig | index.js:14-23 | The defaults object. `public_generators` is absent, and `hexo_7_compatibility_patch` defaults to whether the version starts with `7`. |
| Plugin.IsHexo7 | index.js:20 | `hexo.version.startsWith('7')`. |
| Plugin.LegacyApplies | index.js:7 | `public_generators` is truthy and `allowlist_generators` is not. |
| Plugin.BackCompat | index.js:7-8 | When `public_generators` is truthy and `allowlist_generators` is not, `allowlist_generators` becomes `public_generators`; otherwise the settings are unchanged. |
| Plugin.Merge | index.js:13-24 | `Object.assign(defaults, user)`: each key the user gives overrides its default; `public_generators` is present only if the user gives it. |
| Plugin.Load | index.js:4-71 | Each key takes the user's value if given, else its default. The `hexo_7_compatibility_patch` default is whether the version starts with `7`. A legacy `public_generators` fills a missing allowlist. The lists are coerced only when enabled. When disabled, no hook is registered; when enabled, the five hooks are registered in order, plus the noindex filter if `noindex` is set. |
| Plugin.AfterPostRender | index.js:59-64 | The HTML flag is appended to the content exactly when the post's flag is true. Nothing else changes. |
| Plugin.IndexFrom | index.js:72-73 | The result is the first occurrence of the pattern at or after the start, or none if there is none. |
| Plugin.IndexOf | index.js:73 | `str.indexOf(pat)`: where `replace` finds its match, the first occurrence, or none. |
| Plugin.Contains | index.js:72 | `str.includes(pat)`: some occurrence exists. |
| Plugin.ReplaceFirst | index.js:73 | The first occurrence of the pattern is replaced by `rep`, inserted literally; a string without the pattern is returned as it is. This is `String.prototype.replace` with a string pattern and a replacement free of `$` patterns. |
| Plugin.OccurrenceIsFound | index.js:72-73 | Any occurrence makes `includes` true, and `indexOf` is at or before it. |
| Plugin.AfterRenderHtml | index.js:71-76 | If the page is non-empty, holds the flag and holds `</title>`, the noindex tag is inserted right after the first `</title>`, and the length grows by the tag's length. Otherwise the page is unchanged. |
| Plugin.HiddenPostPageIsNoindexed | index.js:59-76 | A page that embeds a rendered hidden post and has a `</title>` gets the noindex tag right after its first `</title>`. |

## Left out

- `lib/getHiddenList.js` (the `hidden:list` console command) loads the store asynchronously and prints to the console. It is pure I/O, so it is only a `Hook` value here.
- Logging (`hexo.log.debug`, `chalk`) is not modelled: it does not affect behaviour.
- `async`/`await` in the `post` wrapper is left out. The two passes are modelled as sequential calls, public first.
- `.bind(this)` is left out: generators here have no receiver.
- Warehouse `Query` objects and the `constructor` rebuild of the union `posts` are modelled as plain sequences.
- `schema.virtual(...).get`, the database and the relation models are modelled as `Site` fields and named getter choices.
- The host's default getters (Hexo 7's own `length`, categories and tags locals) are not given meaning. Only the plugin's replacements are.
- The host's default `posts` getter of Category and Tag is modelled as the same relation lookup over the `posts` local.
- `_bindLocals` is modelled as rebinding the `posts` local to the store's posts.
- `page.save()` is modelled as writing the page back into the store's sequence.
- Posts shared by reference between route data and the store are treated as values. Nulling `prev`/`next` changes only the route here, so aliasing is not modelled.
- Filter and console registration is modelled as the list of `Hook`s registered, in order.
- `acl_function_per_post` is carried in the configuration but no core file uses it, so no behaviour is given to it.
- The user's `allowlist_function` is an arbitrary total `string -> bool`, and the original generators are total functions of their locals. A user function that throws or has side effects is not modelled.
- Front-matter flags are booleans. A truthy non-boolean flag (which falls in neither subset in the source) is not modelled.
- List settings are arrays of strings, strings or absent. Numbers and objects are not modelled.
- A non-function `allowlist_function` counts as absent.
- `Access.IsGeneratorAllowed`: requires the two lists to be arrays when no custom function is set. Otherwise `.includes` on null throws, and on a string it would be a substring search. `index.js` only guarantees arrays for truthy settings.
- Generators.Run: follows the corrected loop of the "## Findings" row. A hidden route with string data is passed through, where the code as written throws a TypeError at lib/injectGenerators.js:38. `Generators.TwoPassAsWritten` models the throw.
- Generators.GeneratePost: equals the corrected wrapper (`Run`). A hidden route with string data is returned, where the code as written throws a TypeError at lib/injectGenerators.js:38. `Generators.TwoPassAsWritten` models the throw.
- Generators.NullHiddenLinks: leaves a route with string data as it is, where the code as written throws a TypeError at lib/injectGenerators.js:38. `Generators.ClearLinksAsWritten` models the throw.
- Plugin.ReplaceFirst: the `$` replacement patterns (`$&`, `` $` ``, `$'`, `$$`) of `String.prototype.replace` are not interpreted; `rep` is inserted as it is.
- Plugin.AfterRenderHtml: the `$` replacement patterns of `String.prototype.replace` are not interpreted in the noindex tag.
- `Plugin.Load`: `hexo.version` is a parameter, and the user settings are an optional record rather than an arbitrary object.

## Findings

| source | as written | input that shows it | evidently intended | confidence | as-written member | corrected member |
|---|---|---|---|---|---|---|
| lib/injectGenerators.js:37-40 | Assigns `ele.data.prev` and `ele.data.next` for every hidden route. Under `'use strict'` this throws a TypeError when `data` is a string. | A hidden post with `layout: false`, whose route data is its rendered markup string (see `Generators.StringDataThrowsAsWritten`). | Clear the links of record data only, and pass string data through. | medium, not executed | Generators.ClearLinksAsWritten | Generators.ClearLinks |
