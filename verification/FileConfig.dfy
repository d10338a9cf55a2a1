/** The configuration file reader as the gateway runs it: an object filled line by line. */
module FileConfig {
  import opened ConfigArrays
  import opened ConfigFile
  import opened ConfigText
  import opened LoadConfig
  import opened ProxyGroups
  import opened Text
  import opened Toml
  import opened Wrappers

  // ---------- Scanners ----------

  /** `parseTOMLStringArrayLine`. */
  method ParseArrayLine(text: string) returns (r: Option<(seq<string>, bool)>)
    ensures r == ArrayLine(text)
  {
    hide Items, TrimLeft, TrimRight, IsSpace;
    var done := false;
    var line := Trim(text);
    ghost var body := line;
    if HasSuffix(line, "]") {
      done := true;
      body := line[..|line| - 1];
      line := Trim(line[..|line| - 1]);
    }
    ItemsTrimmed(body);
    ItemsTrimmed(Trim(body));
    TrimTrimmed(line);
    line := Trim(line);
    if line == "" {
      ItemsEmpty();
      return Some(([], done));
    }
    var values := ParseListItems(line);
    if values.None? {
      return None;
    }
    return Some((values.value, done));
  }

  /** `parseInlineTableKey`. */
  method ParseInlineKey(text: string) returns (r: Option<(string, string)>)
    ensures r == InlineKey(text)
  {
    hide Unescape, QuoteEnd, FirstOf, TrimLeft, TrimRight, IsSpace;
    var value := Trim(text);
    if HasPrefix(value, "\"") {
      var end := FindQuoteEnd(value);
      if end < 0 {
        return None;
      }
      var key := ParseString(value[..end + 1]).value;
      assert value[..end + 1][1..end] == value[1..end];
      return Some((key, value[end + 1..]));
    }
    var end := FirstOf(value);
    if end.None? {
      return None;
    }
    KeyTrims(value[..end.value]);
    var key := ParseKey(Trim(value[..end.value]));
    if key.None? {
      return None;
    }
    return Some((key.value, value[end.value..]));
  }

  lemma KeyTrims(key: string)
    ensures ParseKey(Trim(key)) == ParseKey(key)
  {
    TrimTrimmed(Trim(key));
  }

  /** `parseTOMLInlineStringTable`. */
  method ParseInlineTable(text: string) returns (r: Option<map<string, string>>)
    ensures r == InlineTable(text)
  {
    hide Unescape, QuoteEnd, InlineKey, InlineEntries, Trim;
    var value := Trim(text);
    if !HasPrefix(value, "{") || !HasSuffix(value, "}") {
      return None;
    }
    value := value[1..];
    value := Trim(if HasSuffix(value, "}") then value[..|value| - 1] else value);
    ghost var whole := value;
    var out: map<string, string> := map[];
    while value != ""
      invariant InlineEntries(whole, map[]) == InlineEntries(value, out)
      decreases |value|
    {
      EntriesStep(value, out);
      var keyed := ParseInlineKey(value);
      if keyed.None? {
        return None;
      }
      var rest := Trim(keyed.value.1);
      if rest == "" || (rest[0] != '=' && rest[0] != ':') {
        return None;
      }
      rest := Trim(rest[1..]);
      if !HasPrefix(rest, "\"") {
        return None;
      }
      var end := FindQuoteEnd(rest);
      if end < 0 {
        return None;
      }
      var parsed := ParseString(rest[..end + 1]).value;
      assert rest[..end + 1][1..end] == rest[1..end];
      out := out[keyed.value.0 := parsed];
      value := Trim(rest[end + 1..]);
      if value == "" {
        break;
      }
      FirstIsComma(value);
      if !HasPrefix(value, ",") {
        return None;
      }
      value := Trim(value[1..]);
    }
    EntriesEnd(out);
    return Some(out);
  }

  // ---------- Orders of the groups ----------

  lemma {:induction false} ApplyGroupsMore(env: Env, cfg: Config, names: seq<string>, others: seq<string>)
    requires forall i :: 0 <= i < |names| ==> names[i] in cfg.groups
    requires forall i :: 0 <= i < |others| ==> others[i] in cfg.groups
    ensures match ApplyGroups(env, cfg, names)
            case None => ApplyGroups(env, cfg, names + others) == None
            case Some(c) => c.groups == cfg.groups && ApplyGroups(env, cfg, names + others) == ApplyGroups(env, c, others)
    decreases |names|
  {
    hide ApplyGroup;
    if names == [] {
      assert names + others == others;
    } else {
      assert (names + others)[1..] == names[1..] + others;
      GroupKeeps(env, cfg, cfg.groups[names[0]]);
      match ApplyGroup(env, cfg, cfg.groups[names[0]])
      case None =>
      case Some(c) => ApplyGroupsMore(env, c, names[1..], others);
    }
  }

  lemma OneGroup(env: Env, cfg: Config, name: string)
    requires name in cfg.groups
    ensures ApplyGroups(env, cfg, [name]) == ApplyGroup(env, cfg, cfg.groups[name])
  {
    hide ApplyGroup;
    GroupKeeps(env, cfg, cfg.groups[name]);
    assert [name][1..] == [];
  }

  /** The groups done so far, in the order they were met, are a beginning of some order. */
  predicate Done(cfg: Config, done: seq<string>, todo: set<string>) {
    && todo <= cfg.groups.Keys
    && (forall i :: 0 <= i < |done| ==> done[i] in cfg.groups)
    && multiset(done) == multiset(cfg.groups.Keys - todo)
  }

  lemma DoneMore(cfg: Config, done: seq<string>, todo: set<string>, name: string)
    requires Done(cfg, done, todo) && name in todo
    ensures Done(cfg, done + [name], todo - {name})
  {
    var keys := cfg.groups.Keys;
    assert keys - (todo - {name}) == (keys - todo) + {name};
    assert multiset((keys - todo) + {name}) == multiset(keys - todo) + multiset{name};
  }

  /** Any order that begins with what was done decides the whole. */
  lemma AnyOrder(env: Env, cfg: Config, done: seq<string>, todo: set<string>)
    requires Done(cfg, done, todo)
    ensures ApplyGroups(env, cfg, done) == None ==> ApplyGroups(env, cfg, Enumerate(cfg.groups.Keys)) == None
    ensures todo == {} ==> ApplyGroups(env, cfg, Enumerate(cfg.groups.Keys)) == ApplyGroups(env, cfg, done)
  {
    hide ApplyGroups, Enumerate;
    var keys := cfg.groups.Keys;
    var order := done + Enumerate(todo);
    assert (keys - todo) + todo == keys;
    assert multiset((keys - todo) + todo) == multiset(keys - todo) + multiset(todo);
    assert multiset(order) == multiset(keys);
    OrderDoesNotMatter(env, cfg, order, Enumerate(keys));
    ApplyGroupsMore(env, cfg, done, Enumerate(todo));
    if todo == {} {
      assert multiset(Enumerate(todo)) == multiset{};
      assert Enumerate(todo) == [];
      assert order == done;
    }
  }

  // ---------- The object ----------

  class FileConfig {
    var targets: map<string, string>
    var accessRules: map<string, Rule>
    var proxyAccessRules: seq<string>
    var targetAccessRules: map<string, seq<string>>
    var mediaRules: map<string, seq<string>>
    var adminPubkeys: seq<string>
    var ownerPubkey: string
    var additionalRelays: seq<string>
    var groups: map<string, Group>
    var globalRule: map<string, string>
    var wikis: map<string, Wiki>

    constructor ()
      ensures Value() == EMPTY
    {
      targets, accessRules, proxyAccessRules, targetAccessRules, mediaRules := map[], map[], [], map[], map[];
      adminPubkeys, ownerPubkey, additionalRelays := [], "", [];
      groups, globalRule, wikis := map[], map[], map[];
    }

    function Value(): Config
      reads this
    {
      Config(targets, accessRules, proxyAccessRules, targetAccessRules, mediaRules, adminPubkeys, ownerPubkey,
             additionalRelays, groups, globalRule, wikis)
    }

    method AddTargetKey(env: Env, value: string) returns (key: Option<string>)
      modifies this`targets
      ensures match ProxyGroups.AddTargetKey(env, old(targets), value)
              case None => key == None && targets == old(targets)
              case Some((targets', k)) => key == Some(k) && targets == targets'
    {
      key := RouteKey(env, value);
      if key.None? || key.value in targets {
        return None;
      }
      targets := targets[key.value := value];
    }

    method ApplyStringArray(env: Env, section: string, key: string, values: seq<string>) returns (ok: bool)
      modifies this
      ensures ok == ApplyArray(env, old(Value()), section, key, values).Some?
      ensures ok ==> Value() == ApplyArray(env, old(Value()), section, key, values).value
    {
      hide AddTargets;
      var slot := SlotOf(section, key);
      if slot.None? {
        return false;
      }
      match slot.value {
        case Targets =>
          ok := AddAll(env, values);
        case Admins =>
          adminPubkeys := adminPubkeys + values;
          ok := true;
        case Relays =>
          additionalRelays := additionalRelays + values;
          ok := true;
        case GroupURLs(name) =>
          var group := GroupOf(Value(), name);
          groups := groups[name := group.(urls := group.urls + values)];
          ok := true;
        case GroupRules(name) =>
          var group := GroupOf(Value(), name);
          groups := groups[name := group.(additional := group.additional + values)];
          ok := true;
        case Audience(name) =>
          var wiki := WikiOf(Value(), name);
          wikis := wikis[name := wiki.(audience := wiki.audience + values)];
          ok := true;
      }
    }

    method AddAll(env: Env, values: seq<string>) returns (ok: bool)
      modifies this`targets
      ensures ok == AddTargets(env, old(targets), values).Some?
      ensures ok ==> targets == AddTargets(env, old(targets), values).value
    {
      for i := 0 to |values|
        invariant AddTargets(env, old(targets), values) == AddTargets(env, targets, values[i..])
      {
        assert values[i..][1..] == values[i + 1..];
        var key := AddTargetKey(env, values[i]);
        if key.None? {
          return false;
        }
      }
      return true;
    }

    method ApplyStringValue(env: Env, section: string, key: string, value: string) returns (ok: bool)
      modifies this
      ensures ok == ApplyValue(env, old(Value()), section, key, value).Some?
      ensures ok ==> Value() == ApplyValue(env, old(Value()), section, key, value).value
    {
      hide ApplyWiki, IsTargetKey;
      ok := true;
      if section == "" && key == "owner_npub" {
        var pubkey := env.owner(value);
        if pubkey.None? {
          return false;
        }
        ownerPubkey := pubkey.value;
      } else if section == "" && IsTargetKey(key) {
        var added := AddTargetKey(env, value);
        ok := added.Some?;
      } else if section == "targets" {
        targets := targets[key := value];
      } else if HasPrefix(section, "wiki.") {
        var wiki := ApplyWiki(WikiOf(Value(), section[5..]), key, value);
        if wiki.None? {
          return false;
        }
        wikis := wikis[section[5..] := wiki.value];
      } else {
        ok := false;
      }
    }

    method ApplyStringTable(section: string, key: string, values: map<string, string>) returns (ok: bool)
      modifies this`globalRule
      ensures ok == ApplyTable(old(Value()), section, key, values).Some?
      ensures ok ==> Value() == ApplyTable(old(Value()), section, key, values).value
    {
      ok := section == "" && key == "access_rule";
      if ok {
        globalRule := values;
      }
    }

    method ApplyGlobalAccessRule() returns (ok: bool)
      modifies this`accessRules
      ensures ok == ApplyGlobalRule(old(Value())).Some?
      ensures ok ==> Value() == ApplyGlobalRule(old(Value())).value
    {
      hide Trim, Lower, FirstRelay, TrimmedRelays, BaseURL;
      if globalRule == map[] {
        return true;
      }
      if exists k :: k in globalRule && k != "nip05_domain" {
        return false;
      }
      var domain := Trim(if "nip05_domain" in globalRule then globalRule["nip05_domain"] else "");
      if domain == "" {
        return false;
      }
      var ruleName := TRUSTROOTS_NIP05;
      if Lower(domain) != "trustroots.org" {
        ruleName := "global_nip05";
      }
      var rule := RuleOf(Value(), ruleName);
      rule := rule.(kind := TRUSTROOTS_NIP05);
      rule := rule.(relayURL := FirstRelay(additionalRelays));
      rule := rule.(relayURLs := TrimmedRelays(additionalRelays));
      rule := rule.(nip05BaseURL := BaseURL(domain));
      accessRules := accessRules[ruleName := rule];
      return true;
    }

    /** `additionalProxyGroupAccessRules`. */
    method AdditionalProxyGroupAccessRules(additional: seq<string>) returns (names: Option<seq<string>>)
      modifies this`accessRules
      ensures match AdditionalRules(old(Value()), [], additional)
              case None => names == None
              case Some((cfg, extra)) => names == Some(extra) && Value() == cfg
    {
      hide AppendUnique, Trim, FirstRelay, TrimmedRelays;
      var ruleNames: seq<string> := [];
      for i := 0 to |additional|
        invariant AdditionalRules(old(Value()), [], additional) == AdditionalRules(Value(), ruleNames, additional[i..])
      {
        assert additional[i..][1..] == additional[i + 1..];
        if additional[i] != NOSTR_FOLLOW || Trim(ownerPubkey) == "" {
          return None;
        }
        var rule := RuleOf(Value(), MEDIA_OWNER_FOLLOWS);
        rule := rule.(kind := NOSTR_FOLLOW);
        rule := rule.(relayURL := FirstRelay(additionalRelays));
        rule := rule.(relayURLs := TrimmedRelays(additionalRelays));
        rule := rule.(ownerPubkey := ownerPubkey);
        rule := rule.(relationship := OWNER_FOLLOWS_USER);
        accessRules := accessRules[MEDIA_OWNER_FOLLOWS := rule];
        ruleNames := AppendUniqueRules(ruleNames, [MEDIA_OWNER_FOLLOWS]);
      }
      return Some(ruleNames);
    }

    method ApplyOneURL(env: Env, extra: seq<string>, required: seq<string>, value: string) returns (ok: bool)
      modifies this`targets, this`targetAccessRules, this`mediaRules
      ensures ok == ApplyURL(env, old(Value()), extra, required, value).Some?
      ensures ok ==> Value() == ApplyURL(env, old(Value()), extra, required, value).value
    {
      hide AppendUnique, IsHTTP, RouteKey;
      if IsHTTP(env, value) {
        var key := AddTargetKey(env, value);
        if key.None? {
          return false;
        }
        if |extra| > 0 {
          var rules := AppendUniqueRules(RulesOf(targetAccessRules, key.value), extra);
          targetAccessRules := targetAccessRules[key.value := rules];
        }
        return true;
      }
      var service := MediaService(value);
      if service.None? {
        return false;
      }
      if |required| > 0 {
        var rules := AppendUniqueRules(RulesOf(mediaRules, service.value), required);
        mediaRules := mediaRules[service.value := rules];
      }
      return true;
    }

    method ApplyProxyGroup(env: Env, group: Group) returns (ok: bool)
      modifies this
      ensures ok == ApplyGroup(env, old(Value()), group).Some?
      ensures ok ==> Value() == ApplyGroup(env, old(Value()), group).value
    {
      hide AppendUnique, AdditionalRules, GlobalRuleNames, ApplyURL;
      var additional := AdditionalProxyGroupAccessRules(group.additional);
      if additional.None? {
        return false;
      }
      var required := GlobalRuleNames(Value());
      required := AppendUniqueRules(required, additional.value);
      ghost var cfg := Value();
      for i := 0 to |group.urls|
        invariant ApplyURLs(env, cfg, additional.value, required, group.urls)
               == ApplyURLs(env, Value(), additional.value, required, group.urls[i..])
      {
        assert group.urls[i..][1..] == group.urls[i + 1..];
        var applied := ApplyOneURL(env, additional.value, required, group.urls[i]);
        if !applied {
          return false;
        }
      }
      return true;
    }

    /** `applyProxyGroups`: the groups come in any order. */
    method ApplyProxyGroups(env: Env) returns (ok: bool)
      modifies this
      ensures ok == ApplyGroups(env, old(Value()), Enumerate(old(groups).Keys)).Some?
      ensures ok ==> Value() == ApplyGroups(env, old(Value()), Enumerate(old(groups).Keys)).value
    {
      hide ApplyGroup, ApplyGroups, Enumerate, Done;
      ghost var start := Value();
      ghost var done: seq<string> := [];
      var todo := groups.Keys;
      NoneDone(env, start);
      while todo != {}
        invariant Done(start, done, todo)
        invariant forall i :: 0 <= i < |done| ==> done[i] in start.groups
        invariant ApplyGroups(env, start, done) == Some(Value())
        invariant groups == start.groups
        decreases |todo|
      {
        var name :| name in todo;
        DoneKeys(start, done, todo);
        ApplyGroupsMore(env, start, done, [name]);
        OneGroup(env, Value(), name);
        DoneMore(start, done, todo, name);
        done := done + [name];
        todo := todo - {name};
        ghost var before := Value();
        var applied := ApplyProxyGroup(env, groups[name]);
        if !applied {
          AnyOrder(env, start, done, todo);
          return false;
        }
        GroupKeeps(env, before, start.groups[name]);
      }
      AnyOrder(env, start, done, todo);
      return true;
    }
  }

  lemma NoneDone(env: Env, cfg: Config)
    ensures Done(cfg, [], cfg.groups.Keys)
    ensures ApplyGroups(env, cfg, []) == Some(cfg)
  {
    assert cfg.groups.Keys - cfg.groups.Keys == {};
  }

  lemma DoneKeys(cfg: Config, done: seq<string>, todo: set<string>)
    requires Done(cfg, done, todo)
    ensures todo <= cfg.groups.Keys
    ensures forall i :: 0 <= i < |done| ==> done[i] in cfg.groups
  {}

  // ---------- The parser ----------

  /** One line. */
  method ParseLine(env: Env, cfg: FileConfig, section: string, arrayKey: string, text: string)
    returns (ok: bool, section': string, arrayKey': string)
    modifies cfg
    ensures ok == LineStep(env, State(old(cfg.Value()), section, arrayKey), text).Some?
    ensures ok ==> State(cfg.Value(), section', arrayKey') == LineStep(env, State(old(cfg.Value()), section, arrayKey), text).value
  {
    hide ApplyArray, KeyValue, ArrayLine, ParseKey, Trim, StripComment, IndexOf;
    ok, section', arrayKey' := true, section, arrayKey;
    var stripped := StripCommentLoop(text);
    var line := Trim(stripped);
    if line == "" {
      return;
    }
    if arrayKey != "" {
      var values := ParseArrayLine(line);
      if values.None? {
        ok := false;
        return;
      }
      ok := cfg.ApplyStringArray(env, section, arrayKey, values.value.0);
      if values.value.1 {
        arrayKey' := "";
      }
      return;
    }
    if HasPrefix(line, "[") {
      if HasPrefix(line, "[[") || !HasSuffix(line, "]") {
        ok := false;
        return;
      }
      var body := line[1..];
      section' := Trim(if HasSuffix(body, "]") then body[..|body| - 1] else body);
      return;
    }
    var cut := IndexOf(line, '=');
    if cut.None? {
      ok := false;
      return;
    }
    var key, value := Trim(line[..cut.value]), Trim(line[cut.value + 1..]);
    if key == "" || value == "" {
      ok := false;
      return;
    }
    var name := ParseKey(key);
    if name.None? {
      ok := false;
      return;
    }
    ok, arrayKey' := ParseKeyValue(env, cfg, section, name.value, value);
  }

  method ParseKeyValue(env: Env, cfg: FileConfig, section: string, key: string, value: string)
    returns (ok: bool, arrayKey': string)
    modifies cfg
    ensures ok == KeyValue(env, State(old(cfg.Value()), section, ""), key, value).Some?
    ensures ok ==> State(cfg.Value(), section, arrayKey') == KeyValue(env, State(old(cfg.Value()), section, ""), key, value).value
  {
    hide ApplyArray, ApplyValue, ApplyTable, ArrayLine, InlineTable, ParseString;
    ok, arrayKey' := true, "";
    if value == "[" {
      arrayKey' := key;
      return;
    }
    if HasPrefix(value, "[") {
      var values := ParseArrayLine(value[1..]);
      if values.None? {
        ok := false;
        return;
      }
      ok := cfg.ApplyStringArray(env, section, key, values.value.0);
      if !values.value.1 {
        arrayKey' := key;
      }
      return;
    }
    if HasPrefix(value, "{") {
      var values := ParseInlineTable(value);
      if values.None? {
        ok := false;
        return;
      }
      ok := cfg.ApplyStringTable(section, key, values.value);
      return;
    }
    var parsed := ParseString(value);
    if parsed.None? {
      ok := false;
      return;
    }
    ok := cfg.ApplyStringValue(env, section, key, parsed.value);
  }

  /** `parseConfigTOML`. */
  method ParseConfigTOML(env: Env, raw: string) returns (r: FileConfig?)
    ensures r == null <==> ParseConfig(env, raw) == None
    ensures r != null ==> fresh(r) && ParseConfig(env, raw) == Some(r.Value())
  {
    hide LineStep, ParseLines, Lines, ApplyGlobalRule, ApplyGroups, Enumerate, GlobalRuleNames;
    var cfg := new FileConfig();
    var lines := Lines(raw);
    var section, arrayKey := "", "";
    assert lines[0..] == lines;
    for i := 0 to |lines|
      invariant fresh(cfg)
      invariant ParseLines(env, START, lines) == ParseLines(env, State(cfg.Value(), section, arrayKey), lines[i..])
    {
      assert lines[i..] == [lines[i]] + lines[i + 1..];
      ParseStep(env, State(cfg.Value(), section, arrayKey), lines[i], lines[i + 1..]);
      var ok;
      ok, section, arrayKey := ParseLine(env, cfg, section, arrayKey, lines[i]);
      if !ok {
        return null;
      }
    }
    ParseNothing(env, State(cfg.Value(), section, arrayKey));
    assert lines[|lines|..] == [];
    if arrayKey != "" {
      return null;
    }
    var applied := cfg.ApplyGlobalAccessRule();
    if !applied {
      return null;
    }
    applied := cfg.ApplyProxyGroups(env);
    if !applied {
      return null;
    }
    if cfg.targets != map[] && |cfg.proxyAccessRules| == 0 {
      cfg.proxyAccessRules := GlobalRuleNames(cfg.Value());
    }
    return cfg;
  }

  lemma ParseNothing(env: Env, st: State)
    ensures ParseLines(env, st, []) == Some(st)
  {}
}
