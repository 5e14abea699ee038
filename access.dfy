/** The allow/block decision of lib/isGeneratorAllowed.js: may a generator,
    by name, see hidden posts. */
module Access {
  import opened Common

  const Wildcard := "*"

  /** The list settings are arrays, or a custom function makes them
      irrelevant; `.includes` on null throws, and on a string it is a
      substring search. */
  predicate Decidable(config: Config)
  {
    config.allowlistFunction.Some? || (config.allowlist.List? && config.blocklist.List?)
  }

  /** A custom `allowlist_function` decides alone; otherwise an exact allow,
      or an allow wildcard that is not overridden by an exact block unless
      the block list is a wildcard too. */
  function IsGeneratorAllowed(config: Config, name: string): (r: bool)
    requires Decidable(config)
    ensures config.allowlistFunction.Some? ==> r == config.allowlistFunction.value(name)
  {
    match config.allowlistFunction
    case Some(f) => f(name)
    case None =>
      var wildcardAllowed := Wildcard in config.allowlist.items;
      var wildcardBlocked := Wildcard in config.blocklist.items;
      var exactAllowed := name in config.allowlist.items;
      var exactBlocked := name in config.blocklist.items;
      exactAllowed
      || (wildcardAllowed && !exactBlocked)
      || (wildcardAllowed && wildcardBlocked)
  }

  /** The precedence of the doc comment of lib/isGeneratorAllowed.js, as an
      ordered rule list: exact allow, exact block, wildcard allow, default
      deny. The comment alone leaves open whether an exact block beats an
      allow wildcard; exact block first is the order that the test at
      lib/isGeneratorAllowed.test.js:70-77 fixes. */
  function ByPrecedence(allow: seq<string>, block: seq<string>, name: string): bool
  {
    if name in allow then true
    else if name in block then false
    else if Wildcard in allow then true
    else false
  }

  /** The code's formula agrees with the documented precedence except for
      one case: an exact block outranked by wildcards in both lists. */
  lemma FormulaVersusPrecedence(config: Config, name: string)
    requires config.allowlistFunction.None? && config.allowlist.List? && config.blocklist.List?
    ensures var allow, block := config.allowlist.items, config.blocklist.items;
      IsGeneratorAllowed(config, name) != ByPrecedence(allow, block, name)
      <==> name !in allow && name in block && Wildcard in allow && Wildcard in block
  {
  }

  /** A custom function decides, whatever the lists hold. */
  lemma CustomFunctionOverrides(config: Config, name: string)
    requires config.allowlistFunction.Some?
    ensures IsGeneratorAllowed(config, name) == config.allowlistFunction.value(name)
  {
  }

  /** An exact allow entry always wins, even over a block wildcard or an exact block. */
  lemma ExactAllowWins(config: Config, name: string)
    requires config.allowlistFunction.None? && config.allowlist.List? && config.blocklist.List?
    requires name in config.allowlist.items
    ensures IsGeneratorAllowed(config, name)
  {
  }

  /** Under an allow wildcard, a name is denied exactly when it is blocked by
      name and the block list has no wildcard. */
  lemma WildcardAllowDeniesOnlyExactBlocks(config: Config, name: string)
    requires config.allowlistFunction.None? && config.allowlist.List? && config.blocklist.List?
    requires Wildcard in config.allowlist.items
    ensures !IsGeneratorAllowed(config, name)
      <==> name in config.blocklist.items && Wildcard !in config.blocklist.items && name !in config.allowlist.items
  {
  }

  /** Wildcards in both lists allow every name, exact blocks included. */
  lemma BothWildcardsAllowAll(config: Config, name: string)
    requires config.allowlistFunction.None? && config.allowlist.List? && config.blocklist.List?
    requires Wildcard in config.allowlist.items && Wildcard in config.blocklist.items
    ensures IsGeneratorAllowed(config, name)
  {
  }

  /** Default deny: neither named nor covered by an allow wildcard. */
  lemma DefaultDeny(config: Config, name: string)
    requires config.allowlistFunction.None? && config.allowlist.List? && config.blocklist.List?
    requires name !in config.allowlist.items && Wildcard !in config.allowlist.items
    ensures !IsGeneratorAllowed(config, name)
  {
  }

  // The scenarios of lib/isGeneratorAllowed.test.js.

  const TestNames := ["asset", "page", "post", "excerpt", "category", "tag", "archive", "index"]

  /** `all.filter(name => isGeneratorAllowed(config, name))`. */
  function AllowedAmong(config: Config, names: seq<string>): seq<string>
    requires Decidable(config)
  {
    AllowedFrom(config, names, 0)
  }

  /** The allowed names among `names[k..]`. */
  function AllowedFrom(config: Config, names: seq<string>, k: nat): seq<string>
    requires Decidable(config)
    decreases |names| - k
  {
    if k >= |names| then []
    else (if IsGeneratorAllowed(config, names[k]) then [names[k]] else []) + AllowedFrom(config, names, k + 1)
  }

  /** A test configuration with the given lists and no custom function. */
  function ListsConfig(allow: seq<string>, block: seq<string>): Config
  {
    Config(true, "hidden", List(allow), List(block), None, None, false, true, "", "", None)
  }

  /** A test configuration with a custom function, no allowlist and the given blocklist. */
  function FunctionConfig(f: string -> bool, block: ListValue): Config
  {
    Config(true, "hidden", Null, block, Some(f), None, false, true, "", "", None)
  }

  /** The test names, one by one: `TestNames[k..]` spelled out. */
  lemma TestNamesSpelled()
    ensures TestNames[0] == "asset" && TestNames[1] == "page" && TestNames[2] == "post" && TestNames[3] == "excerpt"
    ensures TestNames[4] == "category" && TestNames[5] == "tag" && TestNames[6] == "archive" && TestNames[7] == "index"
    ensures |TestNames| == 8
  {
  }

  lemma BlockAllAllowNothing()
    ensures AllowedAmong(ListsConfig([], ["*"]), TestNames)
      == []
  {
    var c := ListsConfig([], ["*"]);
    var t := TestNames;
    TestNamesSpelled();
    assert !IsGeneratorAllowed(c, "asset");
    assert !IsGeneratorAllowed(c, "page");
    assert !IsGeneratorAllowed(c, "post");
    assert !IsGeneratorAllowed(c, "excerpt");
    assert !IsGeneratorAllowed(c, "category");
    assert !IsGeneratorAllowed(c, "tag");
    assert !IsGeneratorAllowed(c, "archive");
    assert !IsGeneratorAllowed(c, "index");
    assert AllowedFrom(c, t, 7) == [];
    assert AllowedFrom(c, t, 6) == [];
    assert AllowedFrom(c, t, 5) == [];
    assert AllowedFrom(c, t, 4) == [];
    assert AllowedFrom(c, t, 3) == [];
    assert AllowedFrom(c, t, 2) == [];
    assert AllowedFrom(c, t, 1) == [];
  }

  lemma BlockAllButAllowTwo()
    ensures AllowedAmong(ListsConfig(["category", "tag"], ["*"]), TestNames)
      == ["category", "tag"]
  {
    var c := ListsConfig(["category", "tag"], ["*"]);
    var t := TestNames;
    TestNamesSpelled();
    assert !IsGeneratorAllowed(c, "asset");
    assert !IsGeneratorAllowed(c, "page");
    assert !IsGeneratorAllowed(c, "post");
    assert !IsGeneratorAllowed(c, "excerpt");
    assert IsGeneratorAllowed(c, "category");
    assert IsGeneratorAllowed(c, "tag");
    assert !IsGeneratorAllowed(c, "archive");
    assert !IsGeneratorAllowed(c, "index");
    assert AllowedFrom(c, t, 7) == [];
    assert AllowedFrom(c, t, 6) == [];
    assert AllowedFrom(c, t, 5) == ["tag"];
    assert AllowedFrom(c, t, 4) == ["category", "tag"];
    assert AllowedFrom(c, t, 3) == ["category", "tag"];
    assert AllowedFrom(c, t, 2) == ["category", "tag"];
    assert AllowedFrom(c, t, 1) == ["category", "tag"];
  }

  lemma AllowAllButBlockTwo()
    ensures AllowedAmong(ListsConfig(["*"], ["category", "tag"]), TestNames)
      == ["asset", "page", "post", "excerpt", "archive", "index"]
  {
    var c := ListsConfig(["*"], ["category", "tag"]);
    var t := TestNames;
    TestNamesSpelled();
    assert IsGeneratorAllowed(c, "asset");
    assert IsGeneratorAllowed(c, "page");
    assert IsGeneratorAllowed(c, "post");
    assert IsGeneratorAllowed(c, "excerpt");
    assert !IsGeneratorAllowed(c, "category");
    assert !IsGeneratorAllowed(c, "tag");
    assert IsGeneratorAllowed(c, "archive");
    assert IsGeneratorAllowed(c, "index");
    assert AllowedFrom(c, t, 7) == ["index"];
    assert AllowedFrom(c, t, 6) == ["archive", "index"];
    assert AllowedFrom(c, t, 5) == ["archive", "index"];
    assert AllowedFrom(c, t, 4) == ["archive", "index"];
    assert AllowedFrom(c, t, 3) == ["excerpt", "archive", "index"];
    assert AllowedFrom(c, t, 2) == ["post", "excerpt", "archive", "index"];
    assert AllowedFrom(c, t, 1) == ["page", "post", "excerpt", "archive", "index"];
  }

  lemma EmptyListsAllowNothing()
    ensures AllowedAmong(ListsConfig([], []), TestNames)
      == []
  {
    var c := ListsConfig([], []);
    var t := TestNames;
    TestNamesSpelled();
    assert !IsGeneratorAllowed(c, "asset");
    assert !IsGeneratorAllowed(c, "page");
    assert !IsGeneratorAllowed(c, "post");
    assert !IsGeneratorAllowed(c, "excerpt");
    assert !IsGeneratorAllowed(c, "category");
    assert !IsGeneratorAllowed(c, "tag");
    assert !IsGeneratorAllowed(c, "archive");
    assert !IsGeneratorAllowed(c, "index");
    assert AllowedFrom(c, t, 7) == [];
    assert AllowedFrom(c, t, 6) == [];
    assert AllowedFrom(c, t, 5) == [];
    assert AllowedFrom(c, t, 4) == [];
    assert AllowedFrom(c, t, 3) == [];
    assert AllowedFrom(c, t, 2) == [];
    assert AllowedFrom(c, t, 1) == [];
  }

  lemma AllowWildcardOutranksBlockWildcard()
    ensures AllowedAmong(ListsConfig(["*"], ["*"]), TestNames)
      == TestNames
  {
    var c := ListsConfig(["*"], ["*"]);
    var t := TestNames;
    TestNamesSpelled();
    assert IsGeneratorAllowed(c, "asset");
    assert IsGeneratorAllowed(c, "page");
    assert IsGeneratorAllowed(c, "post");
    assert IsGeneratorAllowed(c, "excerpt");
    assert IsGeneratorAllowed(c, "category");
    assert IsGeneratorAllowed(c, "tag");
    assert IsGeneratorAllowed(c, "archive");
    assert IsGeneratorAllowed(c, "index");
    assert AllowedFrom(c, t, 7) == ["index"];
    assert AllowedFrom(c, t, 6) == ["archive", "index"];
    assert AllowedFrom(c, t, 5) == ["tag", "archive", "index"];
    assert AllowedFrom(c, t, 4) == ["category", "tag", "archive", "index"];
    assert AllowedFrom(c, t, 3) == ["excerpt", "category", "tag", "archive", "index"];
    assert AllowedFrom(c, t, 2) == ["post", "excerpt", "category", "tag", "archive", "index"];
    assert AllowedFrom(c, t, 1) == ["page", "post", "excerpt", "category", "tag", "archive", "index"];
  }

  lemma ExactAllowOutranksExactBlock()
    ensures AllowedAmong(ListsConfig(["archive", "index", "*"], ["archive", "index"]), TestNames)
      == TestNames
  {
    var c := ListsConfig(["archive", "index", "*"], ["archive", "index"]);
    var t := TestNames;
    TestNamesSpelled();
    assert IsGeneratorAllowed(c, "asset");
    assert IsGeneratorAllowed(c, "page");
    assert IsGeneratorAllowed(c, "post");
    assert IsGeneratorAllowed(c, "excerpt");
    assert IsGeneratorAllowed(c, "category");
    assert IsGeneratorAllowed(c, "tag");
    assert IsGeneratorAllowed(c, "archive");
    assert IsGeneratorAllowed(c, "index");
    assert AllowedFrom(c, t, 7) == ["index"];
    assert AllowedFrom(c, t, 6) == ["archive", "index"];
    assert AllowedFrom(c, t, 5) == ["tag", "archive", "index"];
    assert AllowedFrom(c, t, 4) == ["category", "tag", "archive", "index"];
    assert AllowedFrom(c, t, 3) == ["excerpt", "category", "tag", "archive", "index"];
    assert AllowedFrom(c, t, 2) == ["post", "excerpt", "category", "tag", "archive", "index"];
    assert AllowedFrom(c, t, 1) == ["page", "post", "excerpt", "category", "tag", "archive", "index"];
  }

  lemma ExactAllowOutranksBlockWildcard()
    ensures AllowedAmong(ListsConfig(["archive", "index"], ["*"]), TestNames)
      == ["archive", "index"]
  {
    var c := ListsConfig(["archive", "index"], ["*"]);
    var t := TestNames;
    TestNamesSpelled();
    assert !IsGeneratorAllowed(c, "asset");
    assert !IsGeneratorAllowed(c, "page");
    assert !IsGeneratorAllowed(c, "post");
    assert !IsGeneratorAllowed(c, "excerpt");
    assert !IsGeneratorAllowed(c, "category");
    assert !IsGeneratorAllowed(c, "tag");
    assert IsGeneratorAllowed(c, "archive");
    assert IsGeneratorAllowed(c, "index");
    assert AllowedFrom(c, t, 7) == ["index"];
    assert AllowedFrom(c, t, 6) == ["archive", "index"];
    assert AllowedFrom(c, t, 5) == ["archive", "index"];
    assert AllowedFrom(c, t, 4) == ["archive", "index"];
    assert AllowedFrom(c, t, 3) == ["archive", "index"];
    assert AllowedFrom(c, t, 2) == ["archive", "index"];
    assert AllowedFrom(c, t, 1) == ["archive", "index"];
  }

  lemma ExactBlockOutranksAllowWildcard()
    ensures AllowedAmong(ListsConfig(["*"], ["archive", "index"]), TestNames)
      == ["asset", "page", "post", "excerpt", "category", "tag"]
  {
    var c := ListsConfig(["*"], ["archive", "index"]);
    var t := TestNames;
    TestNamesSpelled();
    assert IsGeneratorAllowed(c, "asset");
    assert IsGeneratorAllowed(c, "page");
    assert IsGeneratorAllowed(c, "post");
    assert IsGeneratorAllowed(c, "excerpt");
    assert IsGeneratorAllowed(c, "category");
    assert IsGeneratorAllowed(c, "tag");
    assert !IsGeneratorAllowed(c, "archive");
    assert !IsGeneratorAllowed(c, "index");
    assert AllowedFrom(c, t, 7) == [];
    assert AllowedFrom(c, t, 6) == [];
    assert AllowedFrom(c, t, 5) == ["tag"];
    assert AllowedFrom(c, t, 4) == ["category", "tag"];
    assert AllowedFrom(c, t, 3) == ["excerpt", "category", "tag"];
    assert AllowedFrom(c, t, 2) == ["post", "excerpt", "category", "tag"];
    assert AllowedFrom(c, t, 1) == ["page", "post", "excerpt", "category", "tag"];
  }

  lemma CustomFunctionScenario()
    ensures AllowedAmong(FunctionConfig((n: string) => n == "category" || n == "tag", Null), TestNames)
      == ["category", "tag"]
  {
    var c := FunctionConfig((n: string) => n == "category" || n == "tag", Null);
    var t := TestNames;
    TestNamesSpelled();
    assert !IsGeneratorAllowed(c, "asset");
    assert !IsGeneratorAllowed(c, "page");
    assert !IsGeneratorAllowed(c, "post");
    assert !IsGeneratorAllowed(c, "excerpt");
    assert IsGeneratorAllowed(c, "category");
    assert IsGeneratorAllowed(c, "tag");
    assert !IsGeneratorAllowed(c, "archive");
    assert !IsGeneratorAllowed(c, "index");
    assert AllowedFrom(c, t, 7) == [];
    assert AllowedFrom(c, t, 6) == [];
    assert AllowedFrom(c, t, 5) == ["tag"];
    assert AllowedFrom(c, t, 4) == ["category", "tag"];
    assert AllowedFrom(c, t, 3) == ["category", "tag"];
    assert AllowedFrom(c, t, 2) == ["category", "tag"];
    assert AllowedFrom(c, t, 1) == ["category", "tag"];
  }

  lemma CustomFunctionHasUtmostPriority()
    ensures AllowedAmong(FunctionConfig((n: string) => true, List(["category", "tag"])), TestNames)
      == TestNames
  {
    var c := FunctionConfig((n: string) => true, List(["category", "tag"]));
    var t := TestNames;
    TestNamesSpelled();
    assert IsGeneratorAllowed(c, "asset");
    assert IsGeneratorAllowed(c, "page");
    assert IsGeneratorAllowed(c, "post");
    assert IsGeneratorAllowed(c, "excerpt");
    assert IsGeneratorAllowed(c, "category");
    assert IsGeneratorAllowed(c, "tag");
    assert IsGeneratorAllowed(c, "archive");
    assert IsGeneratorAllowed(c, "index");
    assert AllowedFrom(c, t, 7) == ["index"];
    assert AllowedFrom(c, t, 6) == ["archive", "index"];
    assert AllowedFrom(c, t, 5) == ["tag", "archive", "index"];
    assert AllowedFrom(c, t, 4) == ["category", "tag", "archive", "index"];
    assert AllowedFrom(c, t, 3) == ["excerpt", "category", "tag", "archive", "index"];
    assert AllowedFrom(c, t, 2) == ["post", "excerpt", "category", "tag", "archive", "index"];
    assert AllowedFrom(c, t, 1) == ["page", "post", "excerpt", "category", "tag", "archive", "index"];
  }
}
