/** From the text of a configuration file to the guard it sets up.

    The file lists its targets, its relays and one global rule, as the example configuration
    does.  Nothing here speaks of the parsed configuration. */
module GuardedText {
  import opened Access
  import opened ConfigArrays
  import opened ConfigFile
  import opened ConfigMeaning
  import opened ConfigTables
  import opened ConfigText
  import opened Gateway
  import opened GroupRules
  import opened LoadConfig
  import opened ProxyGroups
  import opened Proxy
  import opened Text
  import opened Toml
  import opened Wrappers

  /** The line of the global rule. */
  function DomainLine(sep: char, domain: string): string {
    "access_rule=" + PrintTable(sep, [("nip05_domain", domain)]) + "\n"
  }

  /** A list of targets under one of its keys, a list of relays, and a global rule. */
  function RuledText(key: string, values: seq<string>, relays: seq<string>, sep: char, domain: string): string {
    key + "=[" + Print(values) + "]\n"
    + "additional_relays=[" + Print(relays) + "]\n"
    + DomainLine(sep, domain)
  }

  predicate NewlineFree(items: seq<string>) {
    forall i :: 0 <= i < |items| ==> '\n' !in items[i]
  }

  function RuleName(domain: string): string {
    if Lower(Trim(domain)) == "trustroots.org" then "trustroots_nip05" else "global_nip05"
  }

  /** The rule such a file defines. */
  function DomainRule(relays: seq<string>, domain: string): Rule {
    Rule("trustroots_nip05", FirstRelay(relays), TrimmedRelays(relays), DocumentOf(Lower(Trim(domain))), "", "", {})
  }

  // ---------- Reading the three lines ----------

  lemma ArrayLineParses(env: Env, cfg: Config, key: string, values: seq<string>, rest: string)
    requires BareKey(key) && NewlineFree(values)
    ensures ParseLines(env, State(cfg, "", ""), Lines(key + "=[" + Print(values) + "]\n" + rest)) ==
            match ApplyArray(env, cfg, "", key, values)
            case None => None
            case Some(c) => ParseLines(env, State(c, "", ""), Lines(rest))
  {
    hide ParseLines, Lines, Print, ApplyArray, BareKey, KeyText, Settled;
    BareKeyReads(key);
    NoNewlineInKey(key);
    NothingBlank();
    PrintedArrayParses(env, State(cfg, "", ""), key, key, "", values, "", "", rest);
    assert key + "=" + "" + "[" + Print(values) + "]" + "" + "" + "\n" + rest == key + "=[" + Print(values) + "]\n" + rest;
  }

  lemma NamedKeys()
    ensures BareKey("additional_relays") && BareKey("access_rule")
  {
    assert !IsSpace('a') && !IsSpace('_');
  }

  lemma TableLineParses(env: Env, cfg: Config, sep: char, entries: seq<(string, string)>, rest: string)
    requires Separator(sep) && NoNewlines(entries)
    ensures ParseLines(env, State(cfg, "", ""), Lines("access_rule=" + PrintTable(sep, entries) + "\n" + rest)) ==
            ParseLines(env, State(cfg.(globalRule := TableOf(map[], entries)), "", ""), Lines(rest))
  {
    hide ParseLines, Lines, PrintTable, TableOf, BareKey, KeyText, Settled;
    var key := "access_rule";
    NamedKeys();
    BareKeyReads(key);
    NoNewlineInKey(key);
    NothingBlank();
    PrintedTableParses(env, State(cfg, "", ""), key, key, "", sep, entries, "", "", rest);
    assert key + "=" + "" + PrintTable(sep, entries) + "" + "" + "\n" + rest == "access_rule=" + PrintTable(sep, entries) + "\n" + rest;
  }

  lemma OneEntry(key: string, value: string)
    ensures TableOf(map[], [(key, value)]) == map[key := value]
  {
    assert [(key, value)][1..] == [];
  }

  lemma DomainLineParses(env: Env, cfg: Config, sep: char, domain: string)
    requires Separator(sep) && '\n' !in domain
    ensures ParseLines(env, State(cfg, "", ""), Lines(DomainLine(sep, domain))) ==
            Some(State(cfg.(globalRule := map["nip05_domain" := domain]), "", ""))
  {
    hide ParseLines, Lines, PrintTable, TableOf;
    var entries := [("nip05_domain", domain)];
    NoNewlineInName();
    assert NoNewlines(entries);
    TableLineParses(env, cfg, sep, entries, "");
    OneEntry("nip05_domain", domain);
    assert DomainLine(sep, domain) + "" == DomainLine(sep, domain);
    LinesOfNothing(env, State(cfg.(globalRule := map["nip05_domain" := domain]), "", ""));
  }

  lemma RuledTextParses(env: Env, key: string, values: seq<string>, relays: seq<string>, sep: char, domain: string)
    requires BareKey(key) && IsTargetKey(key) && NewlineFree(values) && NewlineFree(relays) && Separator(sep) && '\n' !in domain
    requires AddTargets(env, map[], values).Some?
    ensures ParseLines(env, START, Lines(RuledText(key, values, relays, sep, domain))) ==
            Some(State(EMPTY.(
                   targets := AddTargets(env, map[], values).value, additionalRelays := relays,
                   globalRule := map["nip05_domain" := domain]), "", ""))
  {
    hide ParseLines, Lines, Print, DomainLine, TableOf, AddTargets, BareKey, IsTargetKey;
    NamedKeys();
    var third := DomainLine(sep, domain);
    var second := "additional_relays=[" + Print(relays) + "]\n" + third;
    assert RuledText(key, values, relays, sep, domain) == key + "=[" + Print(values) + "]\n" + second;
    ArrayLineParses(env, EMPTY, key, values, second);
    TargetSlot(env, key, values);
    var cfg1 := EMPTY.(targets := AddTargets(env, map[], values).value);
    assert second == "additional_relays" + "=[" + Print(relays) + "]\n" + third;
    ArrayLineParses(env, cfg1, "additional_relays", relays, third);
    ArrayMeans(env, cfg1, "", "additional_relays", relays);
    assert cfg1.additionalRelays + relays == relays;
    var cfg2 := cfg1.(additionalRelays := relays);
    var cfg3 := cfg2.(globalRule := map["nip05_domain" := domain]);
    DomainLineParses(env, cfg2, sep, domain);
    assert ParseLines(env, State(cfg2, "", ""), Lines(third)) == Some(State(cfg3, "", ""));
    assert ParseLines(env, State(cfg1, "", ""), Lines(second)) == Some(State(cfg3, "", ""));
  }

  lemma NoNewlineInName()
    ensures '\n' !in "nip05_domain"
  {}

  // ---------- Loading ----------

  lemma FirstRelayVisible(relays: seq<string>)
    ensures Trim(FirstRelay(relays)) == FirstRelay(relays) != ""
  {
    hide Trim;
    RelaysMean(relays);
    if TrimmedRelays(relays) == [] {
      TrimTrimmed("wss://nip42.trustroots.org");
    } else {
      var r := TrimmedRelays(relays)[0];
      assert r in TrimmedRelays(relays);
      var i :| 0 <= i < |relays| && Trim(relays[i]) == r;
      TrimTrimmed(r);
    }
  }

  lemma DocumentVisible(host: string)
    ensures Trim(DocumentOf(host)) != ""
  {
    hide Trim, Trimmed;
    var d := DocumentOf(host);
    if host == "trustroots.org" {
      assert d == "https://www.trustroots.org/.well-known/nostr.json";
      TrimVisible("https://www.trustroots.org/.well-known/nostr.json");
    } else {
      var tail := "/.well-known/nostr.json";
      assert d[|d| - 1] == tail[|tail| - 1];
      assert d[0] == "https://"[0];
      TrimVisible(d);
    }
  }

  lemma TrimVisible(d: string)
    requires d != "" && d[0] == 'h' && d[|d| - 1] == 'n'
    ensures Trim(d) == d
  {
    TrimTrimmed(d);
  }

  lemma DomainRuleIsGood(relays: seq<string>, domain: string, base: string)
    ensures DefaultedRule(DomainRule(relays, domain), base) == DomainRule(relays, domain)
    ensures ValidRule(DomainRule(relays, domain))
  {
    hide Trim, Lower, FirstRelay, TrimmedRelays, DocumentOf;
    FirstRelayVisible(relays);
    DocumentVisible(Lower(Trim(domain)));
  }

  lemma RuledConfigFinishes(env: Env, cfg: Config, domain: string)
    requires cfg.globalRule == map["nip05_domain" := domain] && Trim(domain) != ""
    requires cfg.groups == map[] && cfg.accessRules == map[] && cfg.proxyAccessRules == [] && cfg.targets != map[]
    ensures FinishConfig(env, State(cfg, "", "")) ==
            Some(cfg.(accessRules := map[RuleName(domain) := DomainRule(cfg.additionalRelays, domain)],
                      proxyAccessRules := [RuleName(domain)]))
  {
    hide Trim, Lower, FirstRelay, TrimmedRelays, ApplyGlobalRule, GlobalRuleNames, DocumentOf, ApplyGroups;
    GlobalRuleMeans(cfg, domain);
    var c := ApplyGlobalRule(cfg).value;
    assert c.accessRules == map[RuleName(domain) := DomainRule(cfg.additionalRelays, domain)];
    NoGroupsApply(env, c);
    SameGlobalNames(c, cfg);
  }

  lemma SameGlobalNames(a: Config, b: Config)
    requires a.globalRule == b.globalRule
    ensures GlobalRuleNames(a) == GlobalRuleNames(b)
  {}

  lemma NoGroupsApply(env: Env, cfg: Config)
    requires cfg.groups == map[]
    ensures ApplyGroups(env, cfg, Enumerate(cfg.groups.Keys)) == Some(cfg)
  {
    assert cfg.groups.Keys == {};
    assert multiset(Enumerate(cfg.groups.Keys)) == multiset{};
    assert Enumerate(cfg.groups.Keys) == [];
  }

  /** Such a file loads, with exactly its targets and exactly its rule. */
  lemma RuledTextLoads(env: Env, key: string, values: seq<string>, relays: seq<string>, sep: char, domain: string,
                       base: string)
    requires BareKey(key) && IsTargetKey(key) && NewlineFree(values) && NewlineFree(relays) && Separator(sep)
    requires '\n' !in domain && Trim(domain) != ""
    requires AddTargets(env, map[], values).Some?
    requires var targets := AddTargets(env, map[], values).value;
             && targets != map[]
             && forall k :: k in targets ==> ValidRouteKey(k) && IsHTTP(env, TrimSlashes(targets[k]))
    ensures var s := Load(env, RuledText(key, values, relays, sep, domain), base);
            var targets := AddTargets(env, map[], values).value;
            && s.Some?
            && s.value.targets == (map k | k in targets :: TrimSlashes(targets[k]))
            && s.value.accessRules == [RuleName(domain)]
            && s.value.targetAccessRules == map[] && s.value.mediaRules == map[]
            && s.value.rules == map[RuleName(domain) := DomainRule(relays, domain)]
  {
    hide ParseLines, Lines, RuledText, AddTargets, IsHTTP, TrimSlashes, ValidRouteKey, FinishConfig, BareKey, IsTargetKey;
    hide Trim, Lower, DomainRule, DefaultedRule, ValidRule, RuleName, Separator, NewlineFree;
    var targets := AddTargets(env, map[], values).value;
    RuledTextParses(env, key, values, relays, sep, domain);
    var cfg := EMPTY.(targets := targets, additionalRelays := relays, globalRule := map["nip05_domain" := domain]);
    RuledConfigFinishes(env, cfg, domain);
    DomainRuleIsGood(relays, domain, base);
    var done := cfg.(accessRules := map[RuleName(domain) := DomainRule(relays, domain)], proxyAccessRules := [RuleName(domain)]);
    assert SettingsOf(done, base).rules == map[RuleName(domain) := DomainRule(relays, domain)];
  }

  // ---------- The guard ----------

  lemma NameIsTrimmed(domain: string)
    ensures Trim(RuleName(domain)) == RuleName(domain) != ""
  {
    TrimTrimmed("trustroots_nip05");
    TrimTrimmed("global_nip05");
  }

  lemma OnlyRule(p: Proxy, platform: string, name: string)
    requires Trim(name) == name != "" && p.accessRules == [name] && RulesOf(p.targetAccessRules, platform) == []
    ensures forall n :: n in RulesForTarget(p, platform) <==> n == name
  {
    hide AppendUnique, Trim;
    forall n
      ensures n in RulesForTarget(p, platform) <==> n == name
    {
      NamesOfBoth([name], [], n);
    }
  }

  lemma CompactOne(name: string)
    requires Trim(name) == name != ""
    ensures CompactNames([name]) == [name]
  {
    hide Trim;
    assert [name][1..] == [];
  }

  /** The guard's proxy: what the program makes of loaded settings. */
  lemma SettingsOfProxy(s: Settings, prefix: string, origins: set<string>, name: string)
    requires s.accessRules == [name] && Trim(name) == name != "" && s.targetAccessRules == map[]
    ensures var p := ProxyOf(s, prefix, origins);
            p.accessRules == [name] && p.rules == s.rules && forall k :: RulesOf(p.targetAccessRules, k) == []
  {
    hide Trim, CompactNames, TrimSlashes, CleanPrefix;
    CompactOne(name);
  }

  /** Main result: with such a file a request is forwarded if and only if it passes the gates
      before routing, has a route, and is a GET for a public asset or carries a signed event whose
      key the NIP-05 verifier accepts for the rule that the file's domain and relays make. */
  lemma RuledTextGuards(env: Env, key: string, values: seq<string>, relays: seq<string>, sep: char, domain: string,
                        base: string, prefix: string, origins: set<string>, caller: Caller, req: Request, route: Route)
    requires BareKey(key) && IsTargetKey(key) && NewlineFree(values) && NewlineFree(relays) && Separator(sep)
    requires '\n' !in domain && Trim(domain) != ""
    requires AddTargets(env, map[], values).Some?
    requires var targets := AddTargets(env, map[], values).value;
             && targets != map[]
             && forall k :: k in targets ==> ValidRouteKey(k) && IsHTTP(env, TrimSlashes(targets[k]))
    ensures var s := Load(env, RuledText(key, values, relays, sep, domain), base);
            && s.Some?
            && var p := ProxyOf(s.value, prefix, origins);
            Serve(p, caller, req) == Forwarded(route) <==>
            && req.path != p.prefix + "/healthz"
            && req.method_ in {"GET", "POST", "PUT", "DELETE"}
            && OriginAllowed(p, req.origin)
            && RouteOf(p, req.escapedPath, req.query) == Some(route)
            && (|| (req.method_ == "GET" && IsPublicAsset("GET", route.forwardPath))
                || (caller.verified.Some? && caller.nip05(DomainRule(relays, domain), caller.verified.value)))
  {
    hide *;
    RuledTextLoads(env, key, values, relays, sep, domain, base);
    var s := Load(env, RuledText(key, values, relays, sep, domain), base).value;
    var p := ProxyOf(s, prefix, origins);
    NameIsTrimmed(domain);
    SettingsOfProxy(s, prefix, origins, RuleName(domain));
    OnlyRule(p, route.platform, RuleName(domain));
    ForwardedExactly(p, caller, req, route);
    MeetsOne(p, caller, RulesForTarget(p, route.platform), RuleName(domain), DomainRule(relays, domain));
    DomainRuleKind(relays, domain);
  }

  lemma DomainRuleKind(relays: seq<string>, domain: string)
    ensures DomainRule(relays, domain).kind == "trustroots_nip05" && DomainRule(relays, domain).denied == {}
  {
    hide Trim, Lower, FirstRelay, TrimmedRelays, DocumentOf;
  }

  lemma MeetsOne(p: Proxy, caller: Caller, names: seq<string>, name: string, rule: Rule)
    requires (forall n :: n in names <==> n == name) && p.rules == map[name := rule]
    ensures rule.kind == "trustroots_nip05" && rule.denied == {} ==>
              (MeetsAll(p, caller, names) <==> caller.verified.Some? && caller.nip05(rule, caller.verified.value))
  {
    hide Lower;
    assert name in names;
  }
}
