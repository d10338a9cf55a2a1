/** How the gateway turns proxy groups into targets and access rules.

    The groups are a Go map: their order is unspecified.  The main result here is that no order
    of the groups changes the configuration or whether it is accepted. */
module ProxyGroups {
  import opened ConfigFile
  import opened Text
  import opened Wrappers

  const MEDIA_OWNER_FOLLOWS := "media_owner_follows"
  const OWNER_FOLLOWS_USER := "owner_follows_user"

  // ---------- Lists of rule names without repetition ----------

  /** Add the trimmed names that are not blank and not there yet. */
  function Append(names: seq<string>, values: seq<string>): seq<string>
    decreases |values|
  {
    if values == [] then names
    else
      var value := Trim(values[0]);
      Append(if value == "" || value in names then names else names + [value], values[1..])
  }

  function AppendUnique(rules: seq<string>, values: seq<string>): seq<string> {
    Append([], rules + values)
  }

  /** A list `Append` can produce. */
  predicate Clean(names: seq<string>) {
    && (forall i :: 0 <= i < |names| ==> names[i] != "" && Trim(names[i]) == names[i])
    && (forall i, j :: 0 <= i < j < |names| ==> names[i] != names[j])
  }

  /** Every name of `values`, trimmed, is blank or in `names`. */
  predicate Covered(names: seq<string>, values: seq<string>) {
    forall i :: 0 <= i < |values| ==> Trim(values[i]) == "" || Trim(values[i]) in names
  }

  lemma {:induction false} AppendMeans(names: seq<string>, values: seq<string>)
    requires Clean(names)
    ensures Clean(Append(names, values))
    ensures names <= Append(names, values)
    ensures Covered(Append(names, values), values)
    decreases |values|
  {
    hide Trim;
    if values != [] {
      var value := Trim(values[0]);
      var more := if value == "" || value in names then names else names + [value];
      TrimTrimmed(value);
      CleanMore(names, value);
      AppendMeans(more, values[1..]);
      assert value != "" ==> value in more;
      forall i | 0 <= i < |values|
        ensures Trim(values[i]) == "" || Trim(values[i]) in Append(more, values[1..])
      {
        if i > 0 {
          assert values[i] == values[1..][i - 1];
        }
      }
    }
  }

  lemma CleanMore(names: seq<string>, value: string)
    requires Clean(names) && Trim(value) == value
    ensures value != "" && value !in names ==> Clean(names + [value])
  {
    hide Trim;
  }

  /** Nothing comes from nowhere. */
  lemma {:induction false} AppendFrom(names: seq<string>, values: seq<string>, n: string)
    requires n in Append(names, values) && n !in names
    ensures exists i :: 0 <= i < |values| && Trim(values[i]) == n != ""
    decreases |values|
  {
    hide Trim;
    var value := Trim(values[0]);
    var more := if value == "" || value in names then names else names + [value];
    if n in more {
      assert Trim(values[0]) == n;
    } else {
      AppendFrom(more, values[1..], n);
      var i :| 0 <= i < |values[1..]| && Trim(values[1..][i]) == n != "";
      assert Trim(values[i + 1]) == n;
    }
  }

  lemma {:induction false} AppendConcat(names: seq<string>, u: seq<string>, v: seq<string>)
    ensures Append(names, u + v) == Append(Append(names, u), v)
    decreases |u|
  {
    hide Trim;
    if u == [] {
      assert u + v == v;
    } else {
      assert (u + v)[1..] == u[1..] + v;
      var value := Trim(u[0]);
      AppendConcat(if value == "" || value in names then names else names + [value], u[1..], v);
    }
  }

  lemma {:induction false} AppendCovered(names: seq<string>, values: seq<string>)
    requires Covered(names, values)
    ensures Append(names, values) == names
    decreases |values|
  {
    hide Trim;
    if values != [] {
      assert Trim(values[0]) == "" || Trim(values[0]) in names;
      assert forall i :: 0 <= i < |values[1..]| ==> values[1..][i] == values[i + 1];
      AppendCovered(names, values[1..]);
    }
  }

  lemma {:induction false} AppendClean(names: seq<string>, values: seq<string>)
    requires Clean(names + values)
    ensures Append(names, values) == names + values
    decreases |values|
  {
    hide Trim;
    if values == [] {
      assert names + values == names;
    } else {
      assert names + values == (names + [values[0]]) + values[1..];
      assert (names + values)[|names|] == values[0];
      assert values[0] !in names by {
        assert forall i :: 0 <= i < |names| ==> (names + values)[i] == names[i];
      }
      AppendClean(names + [values[0]], values[1..]);
    }
  }

  /** Adding a list, then a list that starts with it, is adding the longer list, in either order. */
  lemma AppendChain(rules: seq<string>, u: seq<string>, v: seq<string>)
    requires u <= v
    ensures AppendUnique(AppendUnique(rules, u), v) == AppendUnique(rules, v)
    ensures AppendUnique(AppendUnique(rules, v), u) == AppendUnique(rules, v)
  {
    hide Append, Clean;
    AppendAgain(rules, u, v);
    AppendAgain(rules, v, u);
    var base := Append([], rules);
    BaseClean(rules);
    AppendMeans(base, u);
    AppendMeans(base, v);
    var z := v[|u|..];
    assert v == u + z;
    AppendConcat(base, u, z);
    AppendConcat(Append(base, u), u, z);
    AppendCovered(Append(base, u), u);
    CoveredPrefix(Append(base, v), u, v);
    AppendCovered(Append(base, v), u);
  }

  lemma CoveredPrefix(names: seq<string>, u: seq<string>, v: seq<string>)
    requires u <= v && Covered(names, v)
    ensures Covered(names, u)
  {}

  lemma BaseClean(rules: seq<string>)
    ensures Clean(Append([], rules))
  {
    AppendMeans([], rules);
  }

  lemma AppendAgain(rules: seq<string>, u: seq<string>, v: seq<string>)
    ensures AppendUnique(rules, u) == Append(Append([], rules), u)
    ensures AppendUnique(AppendUnique(rules, u), v) == Append(Append(Append([], rules), u), v)
  {
    hide Append, Clean;
    AppendConcat([], rules, u);
    BaseClean(rules);
    AppendMeans(Append([], rules), u);
    var w := AppendUnique(rules, u);
    AppendConcat([], w, v);
    assert [] + w == w;
    AppendClean([], w);
  }

  /** What `appendUniqueRules` promises: exactly the trimmed names of both lists that are not
      blank, each once. */
  lemma AppendUniqueMeans(rules: seq<string>, values: seq<string>)
    ensures Clean(AppendUnique(rules, values))
    ensures forall n :: n in AppendUnique(rules, values) <==>
              n != "" && exists i :: 0 <= i < |rules + values| && Trim((rules + values)[i]) == n
  {
    hide Append, Trim;
    AppendMeans([], rules + values);
    forall n | n in AppendUnique(rules, values)
      ensures n != "" && exists i :: 0 <= i < |rules + values| && Trim((rules + values)[i]) == n
    {
      AppendFrom([], rules + values, n);
    }
  }

  method AppendUniqueRules(rules: seq<string>, values: seq<string>) returns (out: seq<string>)
    ensures out == AppendUnique(rules, values)
  {
    hide Trim;
    var seen: set<string> := {};
    out := [];
    var all := rules + values;
    for i := 0 to |all|
      invariant Append([], all) == Append(out, all[i..])
      invariant forall n :: n in seen <==> n in out
    {
      var value := Trim(all[i]);
      assert all[i..][1..] == all[i + 1..];
      if value == "" || value in seen {
        continue;
      }
      seen := seen + {value};
      out := out + [value];
    }
  }

  // ---------- Applying the groups ----------

  function AddTargetKey(env: Env, targets: map<string, string>, value: string): Option<(map<string, string>, string)> {
    match RouteKey(env, value)
    case None => None
    case Some(key) => if key in targets then None else Some((targets[key := value], key))
  }

  predicate IsHTTP(env: Env, value: string) {
    var u := env.parse(value);
    u.ok && u.host != "" && (u.scheme == "http" || u.scheme == "https")
  }

  function MediaService(value: string): Option<string> {
    if value == "fips_jellyfin" then Some("jellyfin")
    else if value == "fips_plex" then Some("plex")
    else None
  }

  function FollowRule(cfg: Config): Rule {
    RuleOf(cfg, MEDIA_OWNER_FOLLOWS).(
      kind := NOSTR_FOLLOW,
      relayURL := FirstRelay(cfg.additionalRelays),
      relayURLs := TrimmedRelays(cfg.additionalRelays),
      ownerPubkey := cfg.ownerPubkey,
      relationship := OWNER_FOLLOWS_USER)
  }

  function AddFollowRule(cfg: Config): Config {
    cfg.(accessRules := cfg.accessRules[MEDIA_OWNER_FOLLOWS := FollowRule(cfg)])
  }

  /** The rule names a group adds, and the configuration that defines them. */
  function AdditionalRules(cfg: Config, names: seq<string>, additional: seq<string>): Option<(Config, seq<string>)>
    decreases |additional|
  {
    if additional == [] then Some((cfg, names))
    else if additional[0] != NOSTR_FOLLOW || Trim(cfg.ownerPubkey) == "" then None
    else AdditionalRules(AddFollowRule(cfg), AppendUnique(names, [MEDIA_OWNER_FOLLOWS]), additional[1..])
  }

  function RulesOf(m: map<string, seq<string>>, key: string): seq<string> {
    if key in m then m[key] else []
  }

  function ApplyURL(env: Env, cfg: Config, extra: seq<string>, required: seq<string>, value: string): Option<Config> {
    if IsHTTP(env, value) then
      match AddTargetKey(env, cfg.targets, value)
      case None => None
      case Some((targets, key)) =>
        var rules := cfg.targetAccessRules;
        Some(cfg.(
             targets := targets,
             targetAccessRules := if extra == [] then rules else rules[key := AppendUnique(RulesOf(rules, key), extra)]))
    else
      match MediaService(value)
      case None => None
      case Some(service) =>
        var rules := cfg.mediaRules;
        Some(cfg.(mediaRules :=
             if required == [] then rules else rules[service := AppendUnique(RulesOf(rules, service), required)]))
  }

  function ApplyURLs(env: Env, cfg: Config, extra: seq<string>, required: seq<string>, urls: seq<string>): Option<Config>
    decreases |urls|
  {
    if urls == [] then Some(cfg)
    else
      match ApplyURL(env, cfg, extra, required, urls[0])
      case None => None
      case Some(cfg') => ApplyURLs(env, cfg', extra, required, urls[1..])
  }

  function ApplyGroup(env: Env, cfg: Config, group: Group): Option<Config> {
    match AdditionalRules(cfg, [], group.additional)
    case None => None
    case Some((cfg', extra)) =>
      ApplyURLs(env, cfg', extra, AppendUnique(GlobalRuleNames(cfg'), extra), group.urls)
  }

  /** The groups in the order of `names`. */
  function ApplyGroups(env: Env, cfg: Config, names: seq<string>): Option<Config>
    requires forall i :: 0 <= i < |names| ==> names[i] in cfg.groups
    decreases |names|
  {
    if names == [] then Some(cfg)
    else
      match ApplyGroup(env, cfg, cfg.groups[names[0]])
      case None => None
      case Some(cfg') =>
        GroupKeeps(env, cfg, cfg.groups[names[0]]);
        ApplyGroups(env, cfg', names[1..])
  }

  /** The fields no group changes. */
  predicate SameBasis(a: Config, b: Config) {
    && a.groups == b.groups
    && a.globalRule == b.globalRule
    && a.ownerPubkey == b.ownerPubkey
    && a.additionalRelays == b.additionalRelays
    && a.adminPubkeys == b.adminPubkeys
    && a.wikis == b.wikis
    && a.proxyAccessRules == b.proxyAccessRules
  }

  lemma {:induction false} AdditionalKeeps(cfg: Config, names: seq<string>, additional: seq<string>)
    ensures match AdditionalRules(cfg, names, additional) case None => true case Some((c, _)) => SameBasis(c, cfg)
    decreases |additional|
  {
    hide AppendUnique, FollowRule;
    if additional != [] && additional[0] == NOSTR_FOLLOW && Trim(cfg.ownerPubkey) != "" {
      AdditionalKeeps(AddFollowRule(cfg), AppendUnique(names, [MEDIA_OWNER_FOLLOWS]), additional[1..]);
    }
  }

  lemma {:induction false} URLsKeep(env: Env, cfg: Config, extra: seq<string>, required: seq<string>, urls: seq<string>)
    ensures match ApplyURLs(env, cfg, extra, required, urls) case None => true case Some(c) => SameBasis(c, cfg)
    decreases |urls|
  {
    hide AppendUnique, IsHTTP;
    if urls != [] {
      match ApplyURL(env, cfg, extra, required, urls[0])
      case None =>
      case Some(c) => URLsKeep(env, c, extra, required, urls[1..]);
    }
  }

  lemma GroupKeeps(env: Env, cfg: Config, group: Group)
    ensures match ApplyGroup(env, cfg, group) case None => true case Some(c) => SameBasis(c, cfg)
  {
    hide AdditionalRules, ApplyURLs, AppendUnique;
    AdditionalKeeps(cfg, [], group.additional);
    match AdditionalRules(cfg, [], group.additional)
    case None =>
    case Some((c, extra)) =>
      URLsKeep(env, c, extra, AppendUnique(GlobalRuleNames(c), extra), group.urls);
  }

  // ---------- Elementary effects ----------

  /** What one entry of a group does; `extra` says whether the group has additional rules. */
  datatype Effect =
    | Fail
    | Follow
    | Target(value: string, extra: bool)
    | Media(service: string, extra: bool)

  function Extra(extra: bool): seq<string> {
    if extra then [MEDIA_OWNER_FOLLOWS] else []
  }

  function Required(cfg: Config, extra: bool): seq<string> {
    AppendUnique(GlobalRuleNames(cfg), Extra(extra))
  }

  function TargetRules(rules: map<string, seq<string>>, key: string, extra: bool): map<string, seq<string>> {
    if extra then rules[key := AppendUnique(RulesOf(rules, key), Extra(true))] else rules
  }

  function Do(env: Env, cfg: Config, e: Effect): Option<Config> {
    match e
    case Fail => None
    case Follow => if Trim(cfg.ownerPubkey) == "" then None else Some(AddFollowRule(cfg))
    case Target(value, extra) =>
      (match AddTargetKey(env, cfg.targets, value)
       case None => None
       case Some((targets, key)) =>
         Some(cfg.(targets := targets, targetAccessRules := TargetRules(cfg.targetAccessRules, key, extra))))
    case Media(service, extra) =>
      var rules := cfg.mediaRules;
      var required := Required(cfg, extra);
      Some(cfg.(mediaRules :=
           if required == [] then rules else rules[service := AppendUnique(RulesOf(rules, service), required)]))
  }

  function DoAll(env: Env, cfg: Config, es: seq<Effect>): Option<Config>
    decreases |es|
  {
    if es == [] then Some(cfg)
    else
      match Do(env, cfg, es[0])
      case None => None
      case Some(c) => DoAll(env, c, es[1..])
  }

  function RuleEffects(additional: seq<string>): seq<Effect>
    decreases |additional|
  {
    if additional == [] then []
    else [if additional[0] == NOSTR_FOLLOW then Follow else Fail] + RuleEffects(additional[1..])
  }

  function URLEffect(env: Env, value: string, extra: bool): Effect {
    if IsHTTP(env, value) then Target(value, extra)
    else
      match MediaService(value)
      case None => Fail
      case Some(service) => Media(service, extra)
  }

  function URLEffects(env: Env, urls: seq<string>, extra: bool): seq<Effect>
    decreases |urls|
  {
    if urls == [] then [] else [URLEffect(env, urls[0], extra)] + URLEffects(env, urls[1..], extra)
  }

  function Effects(env: Env, group: Group): seq<Effect> {
    RuleEffects(group.additional) + URLEffects(env, group.urls, group.additional != [])
  }

  // ---------- A group is its effects ----------

  lemma {:induction false} DoAllConcat(env: Env, cfg: Config, u: seq<Effect>, v: seq<Effect>)
    ensures DoAll(env, cfg, u + v) ==
            match DoAll(env, cfg, u) case None => None case Some(c) => DoAll(env, c, v)
    decreases |u|
  {
    hide Do;
    if u == [] {
      assert u + v == v;
    } else {
      assert (u + v)[1..] == u[1..] + v;
      match Do(env, cfg, u[0])
      case None =>
      case Some(c) => DoAllConcat(env, c, u[1..], v);
    }
  }

  lemma NamesOnce(names: seq<string>)
    requires names == [] || names == [MEDIA_OWNER_FOLLOWS]
    ensures AppendUnique(names, [MEDIA_OWNER_FOLLOWS]) == [MEDIA_OWNER_FOLLOWS]
  {
    hide Trim;
    TrimTrimmed(MEDIA_OWNER_FOLLOWS);
    AppendConcat([], names, [MEDIA_OWNER_FOLLOWS]);
    assert Append([], [MEDIA_OWNER_FOLLOWS]) == [MEDIA_OWNER_FOLLOWS] by {
      AppendOne([], MEDIA_OWNER_FOLLOWS);
    }
    AppendOne([MEDIA_OWNER_FOLLOWS], MEDIA_OWNER_FOLLOWS);
  }

  lemma AppendOne(names: seq<string>, value: string)
    requires value != "" && Trim(value) == value
    ensures Append(names, [value]) == if value in names then names else names + [value]
  {
    hide Trim;
    assert [value][1..] == [];
  }

  lemma {:induction false} AdditionalIsEffects(env: Env, cfg: Config, names: seq<string>, additional: seq<string>)
    requires names == [] || names == [MEDIA_OWNER_FOLLOWS]
    ensures match AdditionalRules(cfg, names, additional)
            case None => DoAll(env, cfg, RuleEffects(additional)) == None
            case Some((c, extra)) =>
              && DoAll(env, cfg, RuleEffects(additional)) == Some(c)
              && extra == if additional == [] then names else [MEDIA_OWNER_FOLLOWS]
    decreases |additional|
  {
    hide AppendUnique, FollowRule, Trim;
    if additional != [] {
      var es := RuleEffects(additional);
      assert es[1..] == RuleEffects(additional[1..]);
      if additional[0] == NOSTR_FOLLOW && Trim(cfg.ownerPubkey) != "" {
        NamesOnce(names);
        AdditionalIsEffects(env, AddFollowRule(cfg), [MEDIA_OWNER_FOLLOWS], additional[1..]);
      }
    }
  }

  lemma {:induction false} URLsAreEffects(env: Env, cfg: Config, extra: bool, urls: seq<string>)
    ensures ApplyURLs(env, cfg, Extra(extra), Required(cfg, extra), urls) == DoAll(env, cfg, URLEffects(env, urls, extra))
    decreases |urls|
  {
    hide AppendUnique, IsHTTP, GlobalRuleNames, MediaService;
    if urls != [] {
      var es := URLEffects(env, urls, extra);
      assert es[1..] == URLEffects(env, urls[1..], extra);
      URLIsEffect(env, cfg, extra, urls[0]);
      match Do(env, cfg, es[0])
      case None =>
      case Some(c) =>
        DoKeeps(env, cfg, es[0]);
        SameRequired(c, cfg, extra);
        URLsAreEffects(env, c, extra, urls[1..]);
    }
  }

  lemma URLIsEffect(env: Env, cfg: Config, extra: bool, value: string)
    ensures ApplyURL(env, cfg, Extra(extra), Required(cfg, extra), value) == Do(env, cfg, URLEffect(env, value, extra))
  {
    hide AppendUnique, IsHTTP, GlobalRuleNames, MediaService, Required, AddTargetKey;
  }

  lemma SameRequired(a: Config, b: Config, extra: bool)
    requires SameBasis(a, b)
    ensures Required(a, extra) == Required(b, extra)
    ensures GlobalRuleNames(a) == GlobalRuleNames(b)
  {}

  lemma DoKeeps(env: Env, cfg: Config, e: Effect)
    ensures match Do(env, cfg, e) case None => true case Some(c) => SameBasis(c, cfg)
  {
    hide AppendUnique, FollowRule, Required, Trim;
  }

  lemma GroupIsEffects(env: Env, cfg: Config, group: Group)
    ensures ApplyGroup(env, cfg, group) == DoAll(env, cfg, Effects(env, group))
  {
    hide AdditionalRules, ApplyURLs, AppendUnique, DoAll, GlobalRuleNames;
    AdditionalIsEffects(env, cfg, [], group.additional);
    DoAllConcat(env, cfg, RuleEffects(group.additional), URLEffects(env, group.urls, group.additional != []));
    match AdditionalRules(cfg, [], group.additional)
    case None =>
    case Some((c, extra)) =>
      assert extra == Extra(group.additional != []);
      URLsAreEffects(env, c, group.additional != [], group.urls);
  }

  // ---------- Effects commute ----------

  function Both(env: Env, cfg: Config, a: Effect, b: Effect): Option<Config> {
    match Do(env, cfg, a) case None => None case Some(c) => Do(env, c, b)
  }

  lemma RequiredChain(cfg: Config)
    ensures Required(cfg, false) <= Required(cfg, true)
  {
    hide Append, Clean;
    var names := GlobalRuleNames(cfg);
    AppendConcat([], names, Extra(false));
    AppendConcat([], names, Extra(true));
    BaseClean(names);
    AppendMeans(Append([], names), Extra(true));
    AppendCovered(Append([], names), Extra(false));
  }

  lemma MediaCommute(rules: map<string, seq<string>>, s: string, t: string, u: seq<string>, v: seq<string>)
    requires u <= v
    ensures var a := rules[s := AppendUnique(RulesOf(rules, s), u)];
            var b := rules[t := AppendUnique(RulesOf(rules, t), v)];
            a[t := AppendUnique(RulesOf(a, t), v)] == b[s := AppendUnique(RulesOf(b, s), u)]
  {
    hide AppendUnique;
    if s == t {
      AppendChain(RulesOf(rules, s), u, v);
      MapTwice(rules, s, AppendUnique(RulesOf(rules, s), u), AppendUnique(RulesOf(rules, s), v));
      MapTwice(rules, s, AppendUnique(RulesOf(rules, s), v), AppendUnique(RulesOf(rules, s), v));
    } else {
      MapSwap(rules, s, AppendUnique(RulesOf(rules, s), u), t, AppendUnique(RulesOf(rules, t), v));
    }
  }

  lemma MapSwap<K, V>(m: map<K, V>, k: K, a: V, l: K, b: V)
    requires k != l
    ensures m[k := a][l := b] == m[l := b][k := a]
  {}

  lemma TwoMedia(env: Env, cfg: Config, s: string, x: bool, t: string, y: bool)
    requires x ==> y
    ensures Both(env, cfg, Media(s, x), Media(t, y)) == Both(env, cfg, Media(t, y), Media(s, x))
  {
    hide AppendUnique, Required;
    RequiredChain(cfg);
    var c, d := Do(env, cfg, Media(s, x)).value, Do(env, cfg, Media(t, y)).value;
    SameRequired(c, cfg, y);
    SameRequired(d, cfg, x);
    MediaCommute(cfg.mediaRules, s, t, Required(cfg, x), Required(cfg, y));
  }

  function PutTarget(cfg: Config, key: string, value: string, extra: bool): Option<Config> {
    if key in cfg.targets then None
    else
      Some(cfg.(
           targets := cfg.targets[key := value],
           targetAccessRules := TargetRules(cfg.targetAccessRules, key, extra)))
  }

  lemma DoTarget(env: Env, cfg: Config, v: string, x: bool)
    ensures Do(env, cfg, Target(v, x)) ==
            match RouteKey(env, v) case None => None case Some(k) => PutTarget(cfg, k, v, x)
  {
    hide RouteKey, TargetRules;
  }

  lemma PutTwice(cfg: Config, k: string, v: string, x: bool, l: string, w: string, y: bool)
    requires k != l && k !in cfg.targets && l !in cfg.targets
    ensures PutTarget(PutTarget(cfg, k, v, x).value, l, w, y) == PutTarget(PutTarget(cfg, l, w, y).value, k, v, x)
  {
    hide TargetRules;
    MapSwap(cfg.targets, k, v, l, w);
    TargetRulesSwap(cfg.targetAccessRules, k, x, l, y);
  }

  lemma TwoTargets(env: Env, cfg: Config, v: string, x: bool, w: string, y: bool)
    ensures Both(env, cfg, Target(v, x), Target(w, y)) == Both(env, cfg, Target(w, y), Target(v, x))
  {
    hide TargetRules, RouteKey, Do;
    DoTarget(env, cfg, v, x);
    DoTarget(env, cfg, w, y);
    match RouteKey(env, v)
    case None =>
      if Do(env, cfg, Target(w, y)).Some? {
        DoTarget(env, Do(env, cfg, Target(w, y)).value, v, x);
      }
    case Some(k) =>
      match RouteKey(env, w)
      case None =>
        if Do(env, cfg, Target(v, x)).Some? {
          DoTarget(env, Do(env, cfg, Target(v, x)).value, w, y);
        }
      case Some(l) =>
        TwoPuts(env, cfg, k, v, x, l, w, y);
  }

  lemma TwoPuts(env: Env, cfg: Config, k: string, v: string, x: bool, l: string, w: string, y: bool)
    requires RouteKey(env, v) == Some(k) && RouteKey(env, w) == Some(l)
    ensures Both(env, cfg, Target(v, x), Target(w, y)) == Both(env, cfg, Target(w, y), Target(v, x))
  {
    hide TargetRules, RouteKey, Do;
    DoTarget(env, cfg, v, x);
    DoTarget(env, cfg, w, y);
    if k !in cfg.targets {
      DoTarget(env, PutTarget(cfg, k, v, x).value, w, y);
    }
    if l !in cfg.targets {
      DoTarget(env, PutTarget(cfg, l, w, y).value, v, x);
      if k !in cfg.targets && k != l {
        PutTwice(cfg, k, v, x, l, w, y);
      }
    }
  }

  lemma TargetRulesSwap(rules: map<string, seq<string>>, k: string, x: bool, l: string, y: bool)
    requires k != l
    ensures TargetRules(TargetRules(rules, k, x), l, y) == TargetRules(TargetRules(rules, l, y), k, x)
  {
    hide AppendUnique;
    MapSwap(rules, k, AppendUnique(RulesOf(rules, k), Extra(true)), l, AppendUnique(RulesOf(rules, l), Extra(true)));
  }

  lemma FollowTarget(env: Env, cfg: Config, v: string, x: bool)
    ensures Both(env, cfg, Follow, Target(v, x)) == Both(env, cfg, Target(v, x), Follow)
  {
    hide Trim, TrimmedRelays, FirstRelay, TargetRules, RouteKey;
  }

  lemma FollowMedia(env: Env, cfg: Config, s: string, x: bool)
    ensures Both(env, cfg, Follow, Media(s, x)) == Both(env, cfg, Media(s, x), Follow)
  {
    hide Trim, TrimmedRelays, FirstRelay, AppendUnique, Required;
    SameRequired(AddFollowRule(cfg), cfg, x);
  }

  lemma FollowCommutes(env: Env, cfg: Config, e: Effect)
    requires !e.Fail?
    ensures Both(env, cfg, Follow, e) == Both(env, cfg, e, Follow)
  {
    hide Do;
    match e
    case Follow =>
    case Target(v, x) => FollowTarget(env, cfg, v, x);
    case Media(s, x) => FollowMedia(env, cfg, s, x);
  }

  lemma TargetMediaCommute(env: Env, cfg: Config, v: string, x: bool, s: string, y: bool)
    ensures Both(env, cfg, Target(v, x), Media(s, y)) == Both(env, cfg, Media(s, y), Target(v, x))
  {
    hide AppendUnique, Required, RouteKey, TargetRules;
    match Do(env, cfg, Target(v, x))
    case None =>
    case Some(c) => SameRequired(c, cfg, y);
  }

  lemma Commute(env: Env, cfg: Config, a: Effect, b: Effect)
    ensures Both(env, cfg, a, b) == Both(env, cfg, b, a)
  {
    hide Do;
    if a.Fail? || b.Fail? {
      FailBoth(env, cfg, a, b);
    } else if a.Follow? {
      FollowCommutes(env, cfg, b);
    } else if b.Follow? {
      FollowCommutes(env, cfg, a);
    } else if a.Target? && b.Target? {
      TwoTargets(env, cfg, a.value, a.extra, b.value, b.extra);
    } else if a.Media? && b.Media? {
      if a.extra ==> b.extra {
        TwoMedia(env, cfg, a.service, a.extra, b.service, b.extra);
      } else {
        TwoMedia(env, cfg, b.service, b.extra, a.service, a.extra);
      }
    } else if a.Target? {
      TargetMediaCommute(env, cfg, a.value, a.extra, b.service, b.extra);
    } else {
      TargetMediaCommute(env, cfg, b.value, b.extra, a.service, a.extra);
    }
  }

  lemma FailBoth(env: Env, cfg: Config, a: Effect, b: Effect)
    requires a.Fail? || b.Fail?
    ensures Both(env, cfg, a, b) == None && Both(env, cfg, b, a) == None
  {}

  /** One effect passes a block of effects. */
  lemma {:induction false} PassBlock(env: Env, cfg: Config, e: Effect, block: seq<Effect>)
    ensures DoAll(env, cfg, [e] + block) == DoAll(env, cfg, block + [e])
    decreases |block|
  {
    hide Do;
    if block == [] {
      assert [e] + block == block + [e];
    } else {
      var b, rest := block[0], block[1..];
      Commute(env, cfg, e, b);
      assert ([e] + block)[1..] == block && block + [e] == [b] + (rest + [e]);
      assert (block + [e])[1..] == rest + [e];
      UnfoldTwo(env, cfg, e, b, rest);
      UnfoldTwo(env, cfg, b, e, rest);
      assert [e] + block == [e, b] + rest;
      match Do(env, cfg, b)
      case None =>
      case Some(c) =>
        PassBlock(env, c, e, rest);
        assert ([e] + rest)[1..] == rest;
    }
  }

  lemma UnfoldTwo(env: Env, cfg: Config, a: Effect, b: Effect, rest: seq<Effect>)
    ensures DoAll(env, cfg, [a, b] + rest) ==
            match Both(env, cfg, a, b) case None => None case Some(c) => DoAll(env, c, rest)
  {
    hide Do;
    var es := [a, b] + rest;
    assert es[1..] == [b] + rest;
    assert es[1..][1..] == rest;
  }

  lemma {:induction false} SwapBlocks(env: Env, cfg: Config, u: seq<Effect>, v: seq<Effect>)
    ensures DoAll(env, cfg, u + v) == DoAll(env, cfg, v + u)
    decreases |u|
  {
    hide Do;
    if u == [] {
      assert u + v == v == v + u;
    } else {
      var e, rest := u[0], u[1..];
      assert u + v == [e] + (rest + v);
      DoAllConcat(env, cfg, [e], rest + v);
      DoAllConcat(env, cfg, [e], v + rest);
      match DoAll(env, cfg, [e]) {
        case None =>
        case Some(c) => SwapBlocks(env, c, rest, v);
      }
      assert [e] + (v + rest) == ([e] + v) + rest;
      PassBlock(env, cfg, e, v);
      DoAllConcat(env, cfg, [e] + v, rest);
      DoAllConcat(env, cfg, v + [e], rest);
      assert v + u == (v + [e]) + rest;
    }
  }

  // ---------- Main result ----------

  function AllEffects(env: Env, groups: map<string, Group>, names: seq<string>): seq<Effect>
    requires forall i :: 0 <= i < |names| ==> names[i] in groups
    decreases |names|
  {
    if names == [] then [] else Effects(env, groups[names[0]]) + AllEffects(env, groups, names[1..])
  }

  lemma {:induction false} DoAllKeeps(env: Env, cfg: Config, es: seq<Effect>)
    ensures match DoAll(env, cfg, es) case None => true case Some(c) => SameBasis(c, cfg)
    decreases |es|
  {
    hide Do;
    if es != [] {
      DoKeeps(env, cfg, es[0]);
      match Do(env, cfg, es[0])
      case None =>
      case Some(c) => DoAllKeeps(env, c, es[1..]);
    }
  }

  lemma {:induction false} GroupsAreEffects(env: Env, cfg: Config, names: seq<string>)
    requires forall i :: 0 <= i < |names| ==> names[i] in cfg.groups
    ensures ApplyGroups(env, cfg, names) == DoAll(env, cfg, AllEffects(env, cfg.groups, names))
    decreases |names|
  {
    hide ApplyGroup, DoAll, Effects;
    if names == [] {
      DoNothing(env, cfg);
    } else {
      var group := cfg.groups[names[0]];
      GroupIsEffects(env, cfg, group);
      GroupKeeps(env, cfg, group);
      DoAllConcat(env, cfg, Effects(env, group), AllEffects(env, cfg.groups, names[1..]));
      match ApplyGroup(env, cfg, group)
      case None =>
      case Some(c) => GroupsAreEffects(env, c, names[1..]);
    }
  }

  lemma DoNothing(env: Env, cfg: Config)
    ensures DoAll(env, cfg, []) == Some(cfg)
  {}

  lemma {:induction false} AllEffectsConcat(env: Env, groups: map<string, Group>, p: seq<string>, q: seq<string>)
    requires forall i :: 0 <= i < |p| ==> p[i] in groups
    requires forall i :: 0 <= i < |q| ==> q[i] in groups
    ensures AllEffects(env, groups, p + q) == AllEffects(env, groups, p) + AllEffects(env, groups, q)
    decreases |p|
  {
    hide Effects;
    if p == [] {
      assert p + q == q;
      assert [] + AllEffects(env, groups, q) == AllEffects(env, groups, q);
    } else {
      assert (p + q)[1..] == p[1..] + q;
      AllEffectsConcat(env, groups, p[1..], q);
      Reassociate(Effects(env, groups[p[0]]), AllEffects(env, groups, p[1..]), AllEffects(env, groups, q));
    }
  }

  lemma Reassociate<T>(u: seq<T>, v: seq<T>, w: seq<T>)
    ensures (u + v) + w == u + (v + w)
  {}

  /** Moving a group to the front changes nothing. */
  lemma MoveToFront(env: Env, cfg: Config, p: seq<string>, name: string, q: seq<string>)
    requires name in cfg.groups
    requires forall i :: 0 <= i < |p| ==> p[i] in cfg.groups
    requires forall i :: 0 <= i < |q| ==> q[i] in cfg.groups
    ensures ApplyGroups(env, cfg, p + [name] + q) == ApplyGroups(env, cfg, [name] + (p + q))
  {
    hide ApplyGroups, DoAll, AllEffects;
    var groups := cfg.groups;
    var n, u, v := AllEffects(env, groups, [name]), AllEffects(env, groups, p), AllEffects(env, groups, q);
    GroupsAreEffects(env, cfg, p + [name] + q);
    GroupsAreEffects(env, cfg, [name] + (p + q));
    AllEffectsConcat(env, groups, p + [name], q);
    AllEffectsConcat(env, groups, p, [name]);
    AllEffectsConcat(env, groups, [name], p + q);
    AllEffectsConcat(env, groups, p, q);
    SwapBlocks(env, cfg, u, n);
    DoAllConcat(env, cfg, u + n, v);
    DoAllConcat(env, cfg, n + u, v);
    Reassociate(n, u, v);
  }

  lemma DropOne<T>(x: T, rest: seq<T>, p: seq<T>, q: seq<T>)
    requires multiset([x] + rest) == multiset(p + [x] + q)
    ensures multiset(rest) == multiset(p + q)
  {
    assert multiset([x] + rest) == multiset{x} + multiset(rest);
    assert multiset(p + [x] + q) == multiset(p) + multiset{x} + multiset(q);
    assert multiset(rest) == multiset([x] + rest) - multiset{x};
    assert multiset(p + q) == multiset(p + [x] + q) - multiset{x};
  }

  /** Main result: two orders of the same groups give the same configuration, or both fail. */
  lemma {:induction false} OrderDoesNotMatter(env: Env, cfg: Config, names: seq<string>, others: seq<string>)
    requires forall i :: 0 <= i < |names| ==> names[i] in cfg.groups
    requires forall i :: 0 <= i < |others| ==> others[i] in cfg.groups
    requires multiset(names) == multiset(others)
    ensures ApplyGroups(env, cfg, names) == ApplyGroups(env, cfg, others)
    decreases |names|
  {
    hide ApplyGroup;
    if names == [] {
      assert |others| == |multiset(others)| == |multiset(names)| == 0;
    } else {
      var name := names[0];
      assert name in multiset(names);
      var i :| 0 <= i < |others| && others[i] == name;
      var p, q := others[..i], others[i + 1..];
      assert others == p + [name] + q;
      MoveToFront(env, cfg, p, name, q);
      assert names == [name] + names[1..];
      DropOne(name, names[1..], p, q);
      assert ([name] + (p + q))[1..] == p + q;
      match ApplyGroup(env, cfg, cfg.groups[name])
      case None =>
      case Some(c) =>
        GroupKeeps(env, cfg, cfg.groups[name]);
        OrderDoesNotMatter(env, c, names[1..], p + q);
    }
  }
}
