/** index.js: load the plugin configuration (back-compatibility, defaults,
    list coercion), register the plugin's hooks when it is enabled, and the
    two render filters that mark hidden posts and add the noindex tag. */
module Plugin {
  import opened Common

  /** The user's `hide_posts` settings as given: every key may be absent. */
  datatype UserConfig = UserConfig(
    enable: Option<bool>,
    filter: Option<string>,
    allowlist: Option<ListValue>,
    blocklist: Option<ListValue>,
    allowlistFunction: Option<Option<string -> bool>>,
    aclFunctionPerPost: Option<Option<(Post, string) -> bool>>,
    hexo7Patch: Option<bool>,
    noindex: Option<bool>,
    noindexTag: Option<string>,
    htmlFlag: Option<string>,
    publicGenerators: Option<ListValue>)

  const NoSettings := UserConfig(None, None, None, None, None, None, None, None, None, None, None)

  const DefaultNoindexTag := "<meta name=\"robots\" content=\"noindex\">"
  const DefaultHtmlFlag := "<!-- flag of hidden posts -->"
  const TitleClose := "</title>"

  /** The settings object, or none at all when `hide_posts` is absent. */
  function Given(user: Option<UserConfig>): UserConfig
  {
    if user.Some? then user.value else NoSettings
  }

  /** The value of one key after `Object.assign(defaults, user)`. */
  function Pick<T>(given: Option<T>, default: T): T
  {
    if given.Some? then given.value else default
  }

  /** `hexo.version.startsWith('7')`. */
  predicate IsHexo7(version: string)
  {
    |version| > 0 && version[0] == '7'
  }

  /** `public_generators` is truthy and `allowlist_generators` is not. */
  predicate LegacyApplies(user: UserConfig)
  {
    && user.publicGenerators.Some? && Truthy(user.publicGenerators.value)
    && !(user.allowlist.Some? && Truthy(user.allowlist.value))
  }

  function DefaultConfig(version: string): Config
  {
    Config(true, "hidden", List([]), List(["*"]), None, None, IsHexo7(version), true,
           DefaultNoindexTag, DefaultHtmlFlag, None)
  }

  /** Lines 7-8, on the user's settings object. */
  function BackCompat(user: UserConfig): UserConfig
  {
    if LegacyApplies(user) then user.(allowlist := user.publicGenerators) else user
  }

  /** `Object.assign(defaults, user)`: each key the user gives overrides the
      default, and `public_generators` is present only if given. */
  function Merge(defaults: Config, user: UserConfig): Config
  {
    Config(
      Pick(user.enable, defaults.enable),
      Pick(user.filter, defaults.filter),
      Pick(user.allowlist, defaults.allowlist),
      Pick(user.blocklist, defaults.blocklist),
      Pick(user.allowlistFunction, defaults.allowlistFunction),
      Pick(user.aclFunctionPerPost, defaults.aclFunctionPerPost),
      Pick(user.hexo7Patch, defaults.hexo7Patch),
      Pick(user.noindex, defaults.noindex),
      Pick(user.noindexTag, defaults.noindexTag),
      Pick(user.htmlFlag, defaults.htmlFlag),
      if user.publicGenerators.Some? then user.publicGenerators else defaults.publicGenerators)
  }

  /** Lines 33-39: a truthy value that is not an array becomes a one-element
      array; arrays and falsy values stay as they are. */
  function CoerceList(v: ListValue): (r: ListValue)
    ensures v.List? ==> r == v
    ensures Truthy(v) && v.Text? ==> r == List([v.text])
    ensures !Truthy(v) ==> r == v
    ensures Truthy(r) == Truthy(v)
  {
    if Truthy(v) && !v.List? then List([v.text]) else v
  }

  /** The hooks the plugin registers, in registration order. */
  datatype Hook =
    | PrepareHiddenPostsFilter   // before_generate
    | ApplyPatchFilter           // before_generate
    | InjectGeneratorsFilter     // after_init
    | HiddenListCommand          // console `hidden:list`
    | FlagHiddenPostFilter       // after_post_render
    | NoindexFilter              // after_render:html

  /** The script: the configuration it leaves in `hexo.config.hide_posts`
      and the hooks it registers. */
  method Load(user: Option<UserConfig>, version: string) returns (config: Config, hooks: seq<Hook>)
    ensures var u := Given(user);
      && config.enable == Pick(u.enable, true)
      && config.filter == Pick(u.filter, "hidden")
      && config.allowlistFunction == Pick(u.allowlistFunction, None)
      && config.aclFunctionPerPost == Pick(u.aclFunctionPerPost, None)
      && config.hexo7Patch == Pick(u.hexo7Patch, IsHexo7(version))
      && config.noindex == Pick(u.noindex, true)
      && config.noindexTag == Pick(u.noindexTag, DefaultNoindexTag)
      && config.htmlFlag == Pick(u.htmlFlag, DefaultHtmlFlag)
      && config.publicGenerators == u.publicGenerators
    ensures var u := Given(user);
      var allow := if LegacyApplies(u) then u.publicGenerators.value else Pick(u.allowlist, List([]));
      var block := Pick(u.blocklist, List(["*"]));
      && config.allowlist == (if config.enable then CoerceList(allow) else allow)
      && config.blocklist == (if config.enable then CoerceList(block) else block)
    ensures !config.enable ==> hooks == []
    ensures config.enable ==>
      hooks == [PrepareHiddenPostsFilter, ApplyPatchFilter, InjectGeneratorsFilter, HiddenListCommand, FlagHiddenPostFilter]
               + (if config.noindex then [NoindexFilter] else [])
  {
    // Backward compatibility for v0.2.0
    var settings := user;
    if settings.Some? {
      settings := Some(BackCompat(settings.value));
    }
    config := Merge(DefaultConfig(version), Given(settings));
    hooks := [];
    if !config.enable {
      return;
    }
    if Truthy(config.allowlist) && !config.allowlist.List? {
      config := config.(allowlist := List([config.allowlist.text]));
    }
    if Truthy(config.blocklist) && !config.blocklist.List? {
      config := config.(blocklist := List([config.blocklist.text]));
    }
    hooks := [PrepareHiddenPostsFilter, ApplyPatchFilter, InjectGeneratorsFilter, HiddenListCommand, FlagHiddenPostFilter];
    if config.noindex {
      hooks := hooks + [NoindexFilter];
    }
  }

  /** A post as the `after_post_render` filter sees it. */
  datatype RenderedPost = RenderedPost(front: FrontMatter, content: string)

  /** Lines 59-64: append the HTML flag to a hidden post's content. */
  function AfterPostRender(data: RenderedPost, config: Config): (r: RenderedPost)
    ensures r.front == data.front
    ensures Flagged(data.front, config.filter) ==> r.content == data.content + config.htmlFlag
    ensures !Flagged(data.front, config.filter) ==> r == data
  {
    if Flagged(data.front, config.filter) then data.(content := data.content + config.htmlFlag) else data
  }

  /** `pat` occurs in `s` at position `j`. */
  predicate At(s: string, pat: string, j: nat)
  {
    j + |pat| <= |s| && s[j..j + |pat|] == pat
  }

  /** The first position at or after `k` where `pat` occurs. */
  function IndexFrom(s: string, pat: string, k: nat): (r: Option<nat>)
    ensures r.Some? ==> k <= r.value && At(s, pat, r.value)
    ensures r.Some? ==> forall j :: k <= j < r.value ==> !At(s, pat, j)
    ensures r.None? ==> forall j :: k <= j ==> !At(s, pat, j)
    decreases |s| - k
  {
    if k + |pat| > |s| then None
    else if s[k..k + |pat|] == pat then Some(k)
    else IndexFrom(s, pat, k + 1)
  }

  /** `s.indexOf(pat)`, as an option. */
  function IndexOf(s: string, pat: string): Option<nat>
  {
    IndexFrom(s, pat, 0)
  }

  /** `s.includes(pat)`. */
  predicate Contains(s: string, pat: string)
  {
    IndexOf(s, pat).Some?
  }

  /** `s.replace(pat, rep)` with a string pattern: only the first occurrence. */
  function ReplaceFirst(s: string, pat: string, rep: string): string
  {
    match IndexOf(s, pat)
    case None => s
    case Some(i) => s[..i] + rep + s[i + |pat|..]
  }

  /** Lines 71-76: a page holding the HTML flag gets the noindex tag right
      after its first `</title>`; any other page, an empty one, or one without
      `</title>`, is returned as it is. */
  function AfterRenderHtml(str: string, config: Config): (r: string)
    ensures str != "" && Contains(str, config.htmlFlag) && IndexOf(str, TitleClose).Some? ==>
      var i := IndexOf(str, TitleClose).value;
      r == str[..i + |TitleClose|] + config.noindexTag + str[i + |TitleClose|..]
      && |r| == |str| + |config.noindexTag|
    ensures !(str != "" && Contains(str, config.htmlFlag) && IndexOf(str, TitleClose).Some?) ==> r == str
  {
    if str != "" && Contains(str, config.htmlFlag) then
      var r := ReplaceFirst(str, TitleClose, TitleClose + config.noindexTag);
      if IndexOf(str, TitleClose).Some? then
        var i := IndexOf(str, TitleClose).value;
        assert str[..i + |TitleClose|] == str[..i] + TitleClose;
        assert str[..i] + (TitleClose + config.noindexTag) + str[i + |TitleClose|..]
          == str[..i + |TitleClose|] + config.noindexTag + str[i + |TitleClose|..];
        r
      else r
    else str
  }

  /** Any occurrence of `pat` is found. */
  lemma OccurrenceIsFound(s: string, pat: string, j: nat)
    requires At(s, pat, j)
    ensures Contains(s, pat)
    ensures IndexOf(s, pat).value <= j
  {
  }

  /** The two filters together: a page whose HTML embeds the rendered
      content of a hidden post and has a `</title>` gets the noindex tag
      right after its first `</title>`. */
  lemma HiddenPostPageIsNoindexed(data: RenderedPost, config: Config, before: string, after: string)
    requires Flagged(data.front, config.filter)
    requires IndexOf(before + AfterPostRender(data, config).content + after, TitleClose).Some?
    ensures var page := before + AfterPostRender(data, config).content + after;
      var i := IndexOf(page, TitleClose).value;
      AfterRenderHtml(page, config) == page[..i + |TitleClose|] + config.noindexTag + page[i + |TitleClose|..]
      && Contains(AfterRenderHtml(page, config), config.noindexTag)
  {
    var page := before + AfterPostRender(data, config).content + after;
    var j := |before| + |data.content|;
    assert page == (before + data.content) + config.htmlFlag + after;
    assert page[j..j + |config.htmlFlag|] == config.htmlFlag;
    OccurrenceIsFound(page, config.htmlFlag, j);
    var i := IndexOf(page, TitleClose).value;
    var r := AfterRenderHtml(page, config);
    var k := i + |TitleClose|;
    assert r[k..k + |config.noindexTag|] == config.noindexTag;
    OccurrenceIsFound(r, config.noindexTag, k);
  }
}
