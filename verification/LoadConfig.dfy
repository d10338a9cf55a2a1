/** From configuration text to the gateway's checked settings. */
module LoadConfig {
  import opened ConfigArrays
  import opened ConfigFile
  import opened ConfigText
  import opened GroupRules
  import opened ProxyGroups
  import opened Text
  import opened Toml
  import opened Wrappers

  // ---------- Parsing ----------

  /** Some order of a set's elements. */
  ghost function Enumerate(s: set<string>): (r: seq<string>)
    ensures multiset(r) == multiset(s)
    ensures forall i :: 0 <= i < |r| ==> r[i] in s
    decreases |s|
  {
    if s == {} then []
    else
      var x :| x in s;
      var r := Enumerate(s - {x});
      assert s == (s - {x}) + {x};
      [x] + r
  }

  const START := State(EMPTY, "", "")

  function FillProxyRules(cfg: Config): Config {
    if cfg.targets != map[] && cfg.proxyAccessRules == [] then cfg.(proxyAccessRules := GlobalRuleNames(cfg)) else cfg
  }

  /** What follows the last line. */
  ghost function FinishConfig(env: Env, st: State): Option<Config> {
    if st.arrayKey != "" then None
    else
      match ApplyGlobalRule(st.cfg)
      case None => None
      case Some(cfg) =>
        match ApplyGroups(env, cfg, Enumerate(cfg.groups.Keys))
        case None => None
        case Some(cfg') => Some(FillProxyRules(cfg'))
  }

  ghost function ParseConfig(env: Env, raw: string): Option<Config> {
    match ParseLines(env, START, Lines(raw))
    case None => None
    case Some(st) => FinishConfig(env, st)
  }

  /** The order in which the groups are met is free: every order finishes alike. */
  lemma AnyGroupOrder(env: Env, st: State, names: seq<string>)
    requires st.arrayKey == "" && ApplyGlobalRule(st.cfg).Some?
    requires multiset(names) == multiset(ApplyGlobalRule(st.cfg).value.groups.Keys)
    ensures forall i :: 0 <= i < |names| ==> names[i] in ApplyGlobalRule(st.cfg).value.groups
    ensures FinishConfig(env, st) ==
            match ApplyGroups(env, ApplyGlobalRule(st.cfg).value, names)
            case None => None
            case Some(cfg) => Some(FillProxyRules(cfg))
  {
    hide ApplyGlobalRule, ApplyGroups, FillProxyRules;
    var cfg := ApplyGlobalRule(st.cfg).value;
    EveryName(cfg.groups.Keys, names);
    OrderDoesNotMatter(env, cfg, names, Enumerate(cfg.groups.Keys));
  }

  // ---------- Checking ----------

  function DefaultedRule(rule: Rule, base: string): Rule {
    var relay := if Trim(rule.relayURL) == "" then rule.(relayURL := DEFAULT_RELAY) else rule;
    var nip05 := if relay.kind == TRUSTROOTS_NIP05 && Trim(relay.nip05BaseURL) == "" then relay.(nip05BaseURL := base) else relay;
    if nip05.kind == NOSTR_FOLLOW && Trim(nip05.relationship) == "" then nip05.(relationship := OWNER_FOLLOWS_USER) else nip05
  }

  predicate ValidRouteKey(key: string) {
    key != "" && '/' !in key && ' ' !in key && '\t' !in key && '\r' !in key && '\n' !in key
  }

  predicate ValidRule(rule: Rule) {
    && Trim(rule.relayURL) != ""
    && if rule.kind == TRUSTROOTS_NIP05 then Trim(rule.nip05BaseURL) != ""
       else
         && rule.kind == NOSTR_FOLLOW
         && (rule.relationship == "" || rule.relationship == OWNER_FOLLOWS_USER)
         && Trim(rule.ownerPubkey) != ""
  }

  predicate ValidNames(rules: map<string, Rule>, names: seq<string>) {
    forall n :: n in names && Trim(n) != "" ==> n in rules
  }

  predicate ValidRules(rules: map<string, Rule>, proxyRules: seq<string>, media: map<string, seq<string>>) {
    && ValidNames(rules, proxyRules)
    && (forall s :: s in media ==> ValidNames(rules, media[s]))
    && (forall n :: n in rules ==> ValidRule(rules[n]))
  }

  datatype Settings = Settings(
    defaultTarget: string,
    targets: map<string, string>,
    accessRules: seq<string>,
    targetAccessRules: map<string, seq<string>>,
    mediaRules: map<string, seq<string>>,
    rules: map<string, Rule>)

  function SettingsOf(cfg: Config, base: string): Settings {
    var targets := map k | k in cfg.targets :: TrimSlashes(cfg.targets[k]);
    var rules := map n | n in cfg.accessRules :: DefaultedRule(cfg.accessRules[n], base);
    Settings(if "trustroots" in targets then targets["trustroots"] else "", targets, cfg.proxyAccessRules,
             cfg.targetAccessRules, cfg.mediaRules, rules)
  }

  predicate Acceptable(env: Env, s: Settings) {
    && (forall k :: k in s.targets ==> ValidRouteKey(k) && IsHTTP(env, s.targets[k]))
    && ValidRules(s.rules, s.accessRules, s.mediaRules)
  }

  ghost function Load(env: Env, raw: string, base: string): Option<Settings> {
    match ParseConfig(env, raw)
    case None => None
    case Some(cfg) =>
      if cfg.targets == map[] || !Acceptable(env, SettingsOf(cfg, base)) then None else Some(SettingsOf(cfg, base))
  }

  // ---------- Lines never touch the rules ----------

  predicate NoRules(cfg: Config) {
    cfg.accessRules == map[] && cfg.proxyAccessRules == [] && cfg.targetAccessRules == map[] && cfg.mediaRules == map[]
  }

  lemma ArrayNoRules(env: Env, cfg: Config, section: string, key: string, values: seq<string>)
    requires NoRules(cfg)
    ensures match ApplyArray(env, cfg, section, key, values) case None => true case Some(c) => NoRules(c)
  {
    hide AddTargets, SlotOf;
  }

  lemma ValueNoRules(env: Env, cfg: Config, section: string, key: string, value: string)
    requires NoRules(cfg)
    ensures match ApplyValue(env, cfg, section, key, value) case None => true case Some(c) => NoRules(c)
  {
    hide AddTarget, ApplyWiki, IsTargetKey;
  }

  lemma TableNoRules(cfg: Config, section: string, key: string, values: map<string, string>)
    requires NoRules(cfg)
    ensures match ApplyTable(cfg, section, key, values) case None => true case Some(c) => NoRules(c)
  {}

  lemma KeyValueNoRules(env: Env, st: State, key: string, value: string)
    requires NoRules(st.cfg)
    ensures match KeyValue(env, st, key, value) case None => true case Some(s) => NoRules(s.cfg)
  {
    hide ApplyArray, ApplyValue, ApplyTable, ArrayLine, InlineTable, ParseString, NoRules;
    if value != "[" && HasPrefix(value, "[") {
      match ArrayLine(value[1..])
      case None =>
      case Some((values, done)) => ArrayNoRules(env, st.cfg, st.section, key, values);
    } else if HasPrefix(value, "{") {
      match InlineTable(value)
      case None =>
      case Some(values) => TableNoRules(st.cfg, st.section, key, values);
    } else {
      match ParseString(value)
      case None =>
      case Some(text) => ValueNoRules(env, st.cfg, st.section, key, text);
    }
  }

  lemma StepNoRules(env: Env, st: State, text: string)
    requires NoRules(st.cfg)
    ensures match LineStep(env, st, text) case None => true case Some(s) => NoRules(s.cfg)
  {
    hide ApplyArray, KeyValue, ArrayLine, ParseKey, NoRules, HasPrefix, HasSuffix, Trim, StripComment, IndexOf;
    var line := Trim(StripComment(text));
    if line != "" && st.arrayKey != "" {
      match ArrayLine(line)
      case None =>
      case Some((values, done)) => ArrayNoRules(env, st.cfg, st.section, st.arrayKey, values);
    } else if !HasPrefix(line, "[") {
      match IndexOf(line, '=')
      case None =>
      case Some(cut) =>
        match ParseKey(Trim(line[..cut]))
        case None =>
        case Some(name) => KeyValueNoRules(env, st, name, Trim(line[cut + 1..]));
    }
  }

  lemma {:induction false} LinesNoRules(env: Env, st: State, lines: seq<string>)
    requires NoRules(st.cfg)
    ensures match ParseLines(env, st, lines) case None => true case Some(s) => NoRules(s.cfg)
    decreases |lines|
  {
    hide LineStep, NoRules;
    if lines != [] {
      StepNoRules(env, st, lines[0]);
      match LineStep(env, st, lines[0])
      case None =>
      case Some(s) => LinesNoRules(env, s, lines[1..]);
    }
  }

  // ---------- The global rule ----------

  lemma GlobalRuleNeat(cfg: Config)
    requires NoRules(cfg) && ApplyGlobalRule(cfg).Some?
    ensures var c := ApplyGlobalRule(cfg).value;
            && Neat(c) && c.targetAccessRules == map[] && c.proxyAccessRules == []
            && c.targets == cfg.targets && c.groups == cfg.groups && c.globalRule == cfg.globalRule
  {
    hide Trim, Lower, FirstRelay, TrimmedRelays, BaseURL;
  }

  /** Every rule name a parsed configuration refers to is defined in it. */
  lemma EveryRuleIsDefined(env: Env, raw: string)
    requires ParseConfig(env, raw).Some?
    ensures var cfg := ParseConfig(env, raw).value;
            && Neat(cfg)
            && Defined(cfg, cfg.proxyAccessRules)
            && cfg.proxyAccessRules == (if cfg.targets == map[] then [] else GlobalRuleNames(cfg))
  {
    hide ParseLines, ApplyGlobalRule, ApplyGroups, GlobalRuleNames;
    LinesNoRules(env, START, Lines(raw));
    var st := ParseLines(env, START, Lines(raw)).value;
    GlobalRuleNeat(st.cfg);
    var cfg := ApplyGlobalRule(st.cfg).value;
    var names := Enumerate(cfg.groups.Keys);
    GroupsNeat(env, cfg, names);
    GroupsKeep(env, cfg, names);
    FillNeat(ApplyGroups(env, cfg, names).value);
  }

  lemma FillNeat(cfg: Config)
    requires Neat(cfg) && cfg.proxyAccessRules == []
    ensures var c := FillProxyRules(cfg);
            && Neat(c) && Defined(c, c.proxyAccessRules)
            && c.proxyAccessRules == (if c.targets == map[] then [] else GlobalRuleNames(c))
  {}

  lemma {:induction false} GroupsKeep(env: Env, cfg: Config, names: seq<string>)
    requires forall i :: 0 <= i < |names| ==> names[i] in cfg.groups
    ensures match ApplyGroups(env, cfg, names) case None => true case Some(c) => SameBasis(c, cfg)
  {
    hide DoAll, ApplyGroups;
    GroupsAreEffects(env, cfg, names);
    DoAllKeeps(env, cfg, AllEffects(env, cfg.groups, names));
  }

  /** Some group with additional rules lists the target `key`. */
  predicate Restricted(env: Env, cfg: Config, key: string) {
    exists n :: n in cfg.groups && Lists(env, cfg.groups[n], key) && cfg.groups[n].additional != []
  }

  /** A target carries additional rules exactly if some group with additional rules lists it, and
      then it carries the one such rule; every target a group lists is there. */
  lemma GroupTargets(env: Env, raw: string, key: string)
    requires ParseConfig(env, raw).Some?
    ensures var cfg := ParseConfig(env, raw).value;
            && ((exists n :: n in cfg.groups && Lists(env, cfg.groups[n], key)) ==> key in cfg.targets)
            && (MEDIA_OWNER_FOLLOWS in RulesOf(cfg.targetAccessRules, key) <==> Restricted(env, cfg, key))
            && OnlyFollows(cfg)
  {
    hide ParseLines, ApplyGlobalRule, ApplyGroups, GlobalRuleNames, Lists, Neat;
    LinesNoRules(env, START, Lines(raw));
    var st := ParseLines(env, START, Lines(raw)).value;
    GlobalRuleNeat(st.cfg);
    var cfg := ApplyGlobalRule(st.cfg).value;
    var names := Enumerate(cfg.groups.Keys);
    GroupsKeep(env, cfg, names);
    GroupsMark(env, cfg, names, key);
    GroupsOnlyFollow(env, cfg, names);
    EveryName(cfg.groups.Keys, names);
  }

  lemma EveryName(s: set<string>, names: seq<string>)
    requires multiset(names) == multiset(s)
    ensures forall n :: n in names <==> n in s
  {
    forall n
      ensures n in names <==> n in s
    {
      assert n in names <==> n in multiset(names);
      assert n in s <==> n in multiset(s);
    }
  }

  // ---------- Configurations that load ----------

  lemma NoGroups(env: Env, cfg: Config)
    requires cfg.groups == map[] && cfg.globalRule == map[] && cfg.proxyAccessRules == []
    ensures FinishConfig(env, State(cfg, "", "")) == Some(cfg)
  {
    assert cfg.groups.Keys == {};
    assert multiset(Enumerate(cfg.groups.Keys)) == multiset{};
    assert Enumerate(cfg.groups.Keys) == [];
  }

  /** A file that lists its targets loads, whatever the URLs are, as long as their keys differ and
      every target is acceptable; it has exactly those targets and no rules. */
  lemma ListedTargetsLoad(env: Env, key: string, values: seq<string>, base: string)
    requires BareKey(key) && IsTargetKey(key)
    requires forall i :: 0 <= i < |values| ==> '\n' !in values[i]
    requires AddTargets(env, map[], values).Some?
    requires var targets := AddTargets(env, map[], values).value;
             && targets != map[]
             && forall k :: k in targets ==> ValidRouteKey(k) && IsHTTP(env, TrimSlashes(targets[k]))
    ensures var s := Load(env, key + "=[" + Print(values) + "]\n", base);
            var targets := AddTargets(env, map[], values).value;
            && s.Some?
            && s.value.targets == (map k | k in targets :: TrimSlashes(targets[k]))
            && s.value.accessRules == [] && s.value.targetAccessRules == map[]
            && s.value.mediaRules == map[] && s.value.rules == map[]
  {
    hide ParseLines, Lines, Print, AddTargets, IsHTTP, TrimSlashes, ValidRouteKey, FinishConfig, BareKey, KeyText, Settled;
    hide IsTargetKey;
    var targets := AddTargets(env, map[], values).value;
    BareKeyReads(key);
    NoNewlineInKey(key);
    NothingBlank();
    PrintedArrayParses(env, START, key, key, "", values, "", "", "");
    assert key + "=" + "" + "[" + Print(values) + "]" + "" + "" + "\n" + "" == key + "=[" + Print(values) + "]\n";
    var cfg := EMPTY.(targets := targets);
    TargetSlot(env, key, values);
    LinesOfNothing(env, State(cfg, "", ""));
    NoGroups(env, cfg);
    assert SettingsOf(cfg, base).rules == map[];
  }

  lemma NoNewlineInKey(key: string)
    requires BareKey(key)
    ensures '\n' !in key + "" + "" + ""
  {
    assert IsSpace('\n');
  }

  lemma NothingBlank()
    ensures Blank("") && Comment("")
  {}

  lemma TargetSlot(env: Env, key: string, values: seq<string>)
    requires IsTargetKey(key)
    ensures ApplyArray(env, EMPTY, "", key, values) ==
            match AddTargets(env, map[], values) case None => None case Some(t) => Some(EMPTY.(targets := t))
  {
    hide AddTargets;
  }

  lemma LinesOfNothing(env: Env, st: State)
    ensures ParseLines(env, st, Lines("")) == Some(st)
  {}

  // ---------- What loading checks ----------

  /** A rule before its defaults: what it must hold to be accepted. */
  predicate Complete(rule: Rule, base: string) {
    if rule.kind == "trustroots_nip05" then Trim(rule.nip05BaseURL) != "" || Trim(base) != ""
    else
      && rule.kind == "nostr_follow" && Trim(rule.ownerPubkey) != ""
      && (Trim(rule.relationship) == "" || rule.relationship == "owner_follows_user")
  }

  /** A blank relay becomes the default one, a blank document address of a NIP-05 rule the given
      one, and a blank relationship of a follow rule the only one there is; nothing else changes. */
  lemma DefaultsMean(rule: Rule, base: string)
    ensures var r := DefaultedRule(rule, base);
            && r.kind == rule.kind && r.relayURLs == rule.relayURLs && r.ownerPubkey == rule.ownerPubkey && r.denied == rule.denied
            && r.relayURL == (if Trim(rule.relayURL) == "" then "wss://nip42.trustroots.org" else rule.relayURL)
            && r.nip05BaseURL ==
               (if rule.kind == "trustroots_nip05" && Trim(rule.nip05BaseURL) == "" then base else rule.nip05BaseURL)
            && r.relationship ==
               (if rule.kind == "nostr_follow" && Trim(rule.relationship) == "" then "owner_follows_user" else rule.relationship)
    ensures ValidRule(DefaultedRule(rule, base)) <==> Complete(rule, base)
  {
    hide Trim;
    TrimTrimmed("wss://nip42.trustroots.org");
  }

  /** A target the gateway can route to: its key is one path segment, its URL is a web address. */
  predicate Routable(env: Env, key: string, url: string) {
    && key != "" && (forall i :: 0 <= i < |key| ==> key[i] !in {'/', ' ', '\t', '\r', '\n'})
    && var u := env.parse(TrimSlashes(url)); u.ok && u.host != "" && (u.scheme == "http" || u.scheme == "https")
  }

  /** Main result: exactly which parsed configurations load, and as what. */
  lemma LoadMeans(env: Env, raw: string, base: string)
    ensures ParseConfig(env, raw) == None ==> Load(env, raw, base) == None
    ensures ParseConfig(env, raw).Some? ==>
              var cfg := ParseConfig(env, raw).value;
              var r := Load(env, raw, base);
              && (r.Some? <==>
                    && cfg.targets != map[]
                    && (forall k :: k in cfg.targets ==> Routable(env, k, cfg.targets[k]))
                    && (forall n :: n in cfg.accessRules ==> Complete(cfg.accessRules[n], base)))
              && (r.Some? ==>
                    && r.value.targets.Keys == cfg.targets.Keys
                    && (forall k :: k in cfg.targets ==> r.value.targets[k] == TrimSlashes(cfg.targets[k]))
                    && r.value.defaultTarget ==
                       (if "trustroots" in cfg.targets then TrimSlashes(cfg.targets["trustroots"]) else "")
                    && r.value.accessRules == cfg.proxyAccessRules
                    && r.value.targetAccessRules == cfg.targetAccessRules && r.value.mediaRules == cfg.mediaRules
                    && r.value.rules.Keys == cfg.accessRules.Keys
                    && (forall n :: n in cfg.accessRules ==> r.value.rules[n] == DefaultedRule(cfg.accessRules[n], base)))
  {
    hide ParseConfig, TrimSlashes, DefaultedRule, ValidRule, Trim, Complete, Neat;
    if ParseConfig(env, raw).Some? {
      var cfg := ParseConfig(env, raw).value;
      var s := SettingsOf(cfg, base);
      EveryRuleIsDefined(env, raw);
      NamesAreValid(cfg, base);
      forall n | n in cfg.accessRules
        ensures ValidRule(s.rules[n]) <==> Complete(cfg.accessRules[n], base)
      {
        DefaultsMean(cfg.accessRules[n], base);
      }
      assert forall n :: n in s.rules <==> n in cfg.accessRules;
      assert forall k :: k in s.targets <==> k in cfg.targets;
      forall k | k in cfg.targets
        ensures ValidRouteKey(k) && IsHTTP(env, s.targets[k]) <==> Routable(env, k, cfg.targets[k])
      {
        assert s.targets[k] == TrimSlashes(cfg.targets[k]);
        KeyCharacters(k);
      }
    }
  }

  lemma KeyCharacters(key: string)
    ensures ValidRouteKey(key) <==> key != "" && forall i :: 0 <= i < |key| ==> key[i] !in {'/', ' ', '\t', '\r', '\n'}
  {}

  /** The names of a parsed configuration are defined, so their check never fails. */
  lemma NamesAreValid(cfg: Config, base: string)
    requires Neat(cfg) && Defined(cfg, cfg.proxyAccessRules)
    ensures var s := SettingsOf(cfg, base);
            ValidNames(s.rules, s.accessRules) && forall m :: m in s.mediaRules ==> ValidNames(s.rules, s.mediaRules[m])
  {
    hide Trim, DefaultedRule, TrimSlashes, GlobalRuleNames;
  }

  /** A file that ends inside an array is refused. */
  lemma OpenArrayRefused(env: Env, raw: string, base: string)
    requires ParseLines(env, START, Lines(raw)).Some? && ParseLines(env, START, Lines(raw)).value.arrayKey != ""
    ensures ParseConfig(env, raw) == None && Load(env, raw, base) == None
  {
    hide ParseLines, Lines;
  }
}
