/** What the proxy groups leave behind: which targets exist, which carry additional rules, and
    that every rule name in use is defined. */
module GroupRules {
  import opened ConfigFile
  import opened ProxyGroups
  import opened Text
  import opened Wrappers

  // ---------- Every name in use is defined ----------

  predicate Defined(cfg: Config, names: seq<string>) {
    forall n :: n in names ==> n in cfg.accessRules
  }

  predicate Sound(cfg: Config) {
    && Defined(cfg, GlobalRuleNames(cfg))
    && (forall k :: k in cfg.targetAccessRules ==> Defined(cfg, cfg.targetAccessRules[k]))
    && (forall s :: s in cfg.mediaRules ==> Defined(cfg, cfg.mediaRules[s]))
  }

  predicate AllTrimmed(names: seq<string>) {
    forall n :: n in names ==> Trim(n) == n
  }

  lemma AppendDefined(cfg: Config, rules: seq<string>, values: seq<string>)
    requires Defined(cfg, rules) && Defined(cfg, values) && AllTrimmed(rules) && AllTrimmed(values)
    ensures Defined(cfg, AppendUnique(rules, values)) && AllTrimmed(AppendUnique(rules, values))
  {
    hide Trim;
    AppendUniqueMeans(rules, values);
    forall n | n in AppendUnique(rules, values)
      ensures n in cfg.accessRules && Trim(n) == n
    {
      var i :| 0 <= i < |rules + values| && Trim((rules + values)[i]) == n;
      assert (rules + values)[i] in rules || (rules + values)[i] in values;
    }
  }

  lemma NamesOfBoth(u: seq<string>, v: seq<string>, n: string)
    requires forall m :: m in u || m in v ==> Trim(m) == m != ""
    ensures n in AppendUnique(u, v) <==> n in u || n in v
  {
    hide Trim, AppendUnique;
    AppendUniqueMeans(u, v);
    if n in AppendUnique(u, v) {
      var i :| 0 <= i < |u + v| && Trim((u + v)[i]) == n;
      assert (u + v)[i] in u || (u + v)[i] in v;
    }
    if n in u || n in v {
      assert n in u + v;
      var i :| 0 <= i < |u + v| && (u + v)[i] == n;
      assert Trim((u + v)[i]) == n;
    }
  }

  /** Sound, with all names in use free of surrounding white space. */
  predicate Neat(cfg: Config) {
    && Sound(cfg)
    && (forall k :: k in cfg.targetAccessRules ==> AllTrimmed(cfg.targetAccessRules[k]))
    && (forall s :: s in cfg.mediaRules ==> AllTrimmed(cfg.mediaRules[s]))
  }

  predicate NeedsFollow(e: Effect) {
    match e
    case Target(_, extra) => extra
    case Media(_, extra) => extra
    case _ => false
  }

  lemma GlobalTrimmed(cfg: Config)
    ensures AllTrimmed(GlobalRuleNames(cfg))
  {
    TrimTrimmed(TRUSTROOTS_NIP05);
    TrimTrimmed("global_nip05");
  }

  lemma RequiredDefined(cfg: Config, extra: bool)
    requires Neat(cfg) && (extra ==> MEDIA_OWNER_FOLLOWS in cfg.accessRules)
    ensures Defined(cfg, Required(cfg, extra)) && AllTrimmed(Required(cfg, extra))
  {
    hide AppendUnique, Trim, GlobalRuleNames;
    GlobalTrimmed(cfg);
    FollowsTrimmed();
    AppendDefined(cfg, GlobalRuleNames(cfg), Extra(extra));
  }

  lemma FollowsTrimmed()
    ensures Trim(MEDIA_OWNER_FOLLOWS) == MEDIA_OWNER_FOLLOWS
  {
    TrimTrimmed(MEDIA_OWNER_FOLLOWS);
  }

  lemma DoNeat(env: Env, cfg: Config, e: Effect)
    requires Neat(cfg) && (NeedsFollow(e) ==> MEDIA_OWNER_FOLLOWS in cfg.accessRules)
    requires Do(env, cfg, e).Some?
    ensures Neat(Do(env, cfg, e).value)
    ensures cfg.accessRules.Keys <= Do(env, cfg, e).value.accessRules.Keys
    ensures e.Follow? ==> MEDIA_OWNER_FOLLOWS in Do(env, cfg, e).value.accessRules
  {
    hide Do, Neat;
    match e
    case Fail => NoFail(env, cfg);
    case Follow => FollowNeat(env, cfg);
    case Target(value, extra) => TargetNeat(env, cfg, value, extra);
    case Media(service, extra) => MediaNeat(env, cfg, service, extra);
  }

  lemma FollowNeat(env: Env, cfg: Config)
    requires Neat(cfg) && Do(env, cfg, Follow).Some?
    ensures Neat(Do(env, cfg, Follow).value)
    ensures cfg.accessRules.Keys <= Do(env, cfg, Follow).value.accessRules.Keys
    ensures MEDIA_OWNER_FOLLOWS in Do(env, cfg, Follow).value.accessRules
  {
    hide Trim, TrimmedRelays, FirstRelay, GlobalRuleNames;
    DoKeeps(env, cfg, Follow);
    SameRequired(Do(env, cfg, Follow).value, cfg, true);
  }

  lemma TargetNeat(env: Env, cfg: Config, value: string, extra: bool)
    requires Neat(cfg) && (extra ==> MEDIA_OWNER_FOLLOWS in cfg.accessRules)
    requires Do(env, cfg, Target(value, extra)).Some?
    ensures Neat(Do(env, cfg, Target(value, extra)).value)
    ensures cfg.accessRules == Do(env, cfg, Target(value, extra)).value.accessRules
  {
    hide AppendUnique, Trim, RouteKey, GlobalRuleNames;
    var c := Do(env, cfg, Target(value, extra)).value;
    DoKeeps(env, cfg, Target(value, extra));
    SameRequired(c, cfg, true);
    if extra {
      FollowsTrimmed();
      AppendDefined(cfg, RulesOf(cfg.targetAccessRules, RouteKey(env, value).value), Extra(true));
    }
  }

  lemma MediaNeat(env: Env, cfg: Config, service: string, extra: bool)
    requires Neat(cfg) && (extra ==> MEDIA_OWNER_FOLLOWS in cfg.accessRules)
    ensures Do(env, cfg, Media(service, extra)).Some?
    ensures Neat(Do(env, cfg, Media(service, extra)).value)
    ensures cfg.accessRules == Do(env, cfg, Media(service, extra)).value.accessRules
  {
    hide AppendUnique, Trim, Required, GlobalRuleNames;
    var c := Do(env, cfg, Media(service, extra)).value;
    DoKeeps(env, cfg, Media(service, extra));
    SameRequired(c, cfg, true);
    RequiredDefined(cfg, extra);
    AppendDefined(cfg, RulesOf(cfg.mediaRules, service), Required(cfg, extra));
  }

  /** A group's rule entries come first, so its targets and services name only defined rules. */
  lemma {:induction false} RulesNeat(env: Env, cfg: Config, additional: seq<string>)
    requires Neat(cfg) && DoAll(env, cfg, RuleEffects(additional)).Some?
    ensures var c := DoAll(env, cfg, RuleEffects(additional)).value;
            && Neat(c)
            && cfg.accessRules.Keys <= c.accessRules.Keys
            && (additional != [] ==> MEDIA_OWNER_FOLLOWS in c.accessRules)
    decreases |additional|
  {
    hide Do, Neat;
    if additional != [] {
      var es := RuleEffects(additional);
      assert es[1..] == RuleEffects(additional[1..]);
      if es[0].Fail? {
        FailBoth(env, cfg, es[0], es[0]);
        NoFail(env, cfg);
      } else {
        DoNeat(env, cfg, es[0]);
        RulesNeat(env, Do(env, cfg, es[0]).value, additional[1..]);
      }
    }
  }

  lemma NoFail(env: Env, cfg: Config)
    ensures Do(env, cfg, Fail) == None
  {}

  lemma {:induction false} URLsNeat(env: Env, cfg: Config, urls: seq<string>, extra: bool)
    requires Neat(cfg) && (extra ==> MEDIA_OWNER_FOLLOWS in cfg.accessRules)
    requires DoAll(env, cfg, URLEffects(env, urls, extra)).Some?
    ensures Neat(DoAll(env, cfg, URLEffects(env, urls, extra)).value)
    decreases |urls|
  {
    hide Do, Neat, IsHTTP, MediaService;
    if urls != [] {
      var es := URLEffects(env, urls, extra);
      assert es[1..] == URLEffects(env, urls[1..], extra);
      DoNeat(env, cfg, es[0]);
      URLsNeat(env, Do(env, cfg, es[0]).value, urls[1..], extra);
    }
  }

  lemma GroupNeat(env: Env, cfg: Config, group: Group)
    requires Neat(cfg) && ApplyGroup(env, cfg, group).Some?
    ensures Neat(ApplyGroup(env, cfg, group).value)
  {
    hide DoAll, Neat, ApplyGroup;
    GroupIsEffects(env, cfg, group);
    DoAllConcat(env, cfg, RuleEffects(group.additional), URLEffects(env, group.urls, group.additional != []));
    RulesNeat(env, cfg, group.additional);
    URLsNeat(env, DoAll(env, cfg, RuleEffects(group.additional)).value, group.urls, group.additional != []);
  }

  /** Whatever the groups are, every rule name the result uses is defined. */
  lemma {:induction false} GroupsNeat(env: Env, cfg: Config, names: seq<string>)
    requires forall i :: 0 <= i < |names| ==> names[i] in cfg.groups
    requires Neat(cfg) && ApplyGroups(env, cfg, names).Some?
    ensures Neat(ApplyGroups(env, cfg, names).value)
    decreases |names|
  {
    hide Neat, ApplyGroup;
    if names != [] {
      var group := cfg.groups[names[0]];
      GroupNeat(env, cfg, group);
      GroupKeeps(env, cfg, group);
      GroupsNeat(env, ApplyGroup(env, cfg, group).value, names[1..]);
    }
  }

  // ---------- Which targets there are, and which carry the additional rule ----------

  predicate Adds(env: Env, e: Effect, key: string) {
    e.Target? && RouteKey(env, e.value) == Some(key)
  }

  predicate Marks(env: Env, e: Effect, key: string) {
    Adds(env, e, key) && e.extra
  }

  lemma AppendFollows(rules: seq<string>)
    ensures MEDIA_OWNER_FOLLOWS in AppendUnique(rules, Extra(true))
  {
    hide Trim;
    FollowsTrimmed();
    AppendUniqueMeans(rules, Extra(true));
    assert Trim((rules + Extra(true))[|rules|]) == MEDIA_OWNER_FOLLOWS;
  }

  lemma DoMarks(env: Env, cfg: Config, e: Effect, key: string)
    requires Do(env, cfg, e).Some?
    ensures var c := Do(env, cfg, e).value;
            && (key in c.targets <==> key in cfg.targets || Adds(env, e, key))
            && (Adds(env, e, key) ==> key !in cfg.targets && c.targets[key] == e.value)
            && (key in cfg.targets ==> c.targets[key] == cfg.targets[key])
            && (MEDIA_OWNER_FOLLOWS in RulesOf(c.targetAccessRules, key) <==>
                MEDIA_OWNER_FOLLOWS in RulesOf(cfg.targetAccessRules, key) || Marks(env, e, key))
  {
    hide AppendUnique, Trim, RouteKey, TrimmedRelays, FirstRelay, Required;
    if e.Target? && e.extra {
      AppendFollows(RulesOf(cfg.targetAccessRules, RouteKey(env, e.value).value));
    }
  }

  lemma {:induction false} AllMarks(env: Env, cfg: Config, es: seq<Effect>, key: string)
    requires DoAll(env, cfg, es).Some?
    ensures var c := DoAll(env, cfg, es).value;
            && (key in c.targets <==> key in cfg.targets || exists i :: 0 <= i < |es| && Adds(env, es[i], key))
            && (key in cfg.targets ==> c.targets[key] == cfg.targets[key])
            && (MEDIA_OWNER_FOLLOWS in RulesOf(c.targetAccessRules, key) <==>
                || MEDIA_OWNER_FOLLOWS in RulesOf(cfg.targetAccessRules, key)
                || exists i :: 0 <= i < |es| && Marks(env, es[i], key))
    decreases |es|
  {
    hide Do, RulesOf, Adds, Marks;
    if es != [] {
      DoMarks(env, cfg, es[0], key);
      AllMarks(env, Do(env, cfg, es[0]).value, es[1..], key);
      Somewhere(es, i => Adds(env, i, key));
      Somewhere(es, i => Marks(env, i, key));
    }
  }

  lemma Somewhere(es: seq<Effect>, p: Effect -> bool)
    requires es != []
    ensures (exists i :: 0 <= i < |es| && p(es[i])) <==> p(es[0]) || exists i :: 0 <= i < |es[1..]| && p(es[1..][i])
  {
    if exists i :: 0 <= i < |es| && p(es[i]) {
      var i :| 0 <= i < |es| && p(es[i]);
      if i > 0 {
        assert es[1..][i - 1] == es[i];
      }
    }
    if exists i :: 0 <= i < |es[1..]| && p(es[1..][i]) {
      var i :| 0 <= i < |es[1..]| && p(es[1..][i]);
      assert es[i + 1] == es[1..][i];
    }
  }

  /** Some URL of `group` leads to the target `key`. */
  predicate Lists(env: Env, group: Group, key: string) {
    exists i :: 0 <= i < |group.urls| && IsHTTP(env, group.urls[i]) && RouteKey(env, group.urls[i]) == Some(key)
  }

  lemma {:induction false} RuleEffectsAdd(env: Env, additional: seq<string>, key: string)
    ensures forall i :: 0 <= i < |RuleEffects(additional)| ==> !Adds(env, RuleEffects(additional)[i], key)
    decreases |additional|
  {
    if additional != [] {
      RuleEffectsAdd(env, additional[1..], key);
    }
  }

  lemma {:induction false} URLEffectsAt(env: Env, urls: seq<string>, extra: bool)
    ensures |URLEffects(env, urls, extra)| == |urls|
    ensures forall i :: 0 <= i < |urls| ==> URLEffects(env, urls, extra)[i] == URLEffect(env, urls[i], extra)
    decreases |urls|
  {
    hide URLEffect;
    if urls != [] {
      URLEffectsAt(env, urls[1..], extra);
    }
  }

  lemma EffectAdds(env: Env, value: string, extra: bool, key: string)
    ensures Adds(env, URLEffect(env, value, extra), key) <==> IsHTTP(env, value) && RouteKey(env, value) == Some(key)
    ensures Marks(env, URLEffect(env, value, extra), key) <==>
            extra && IsHTTP(env, value) && RouteKey(env, value) == Some(key)
  {
    hide IsHTTP, RouteKey;
  }

  /** The effects of a group add exactly the targets it lists, and mark them if it has rules. */
  lemma EffectsAdd(env: Env, group: Group, key: string)
    ensures (exists i :: 0 <= i < |Effects(env, group)| && Adds(env, Effects(env, group)[i], key)) <==>
            Lists(env, group, key)
    ensures (exists i :: 0 <= i < |Effects(env, group)| && Marks(env, Effects(env, group)[i], key)) <==>
            Lists(env, group, key) && group.additional != []
  {
    hide IsHTTP, RouteKey, RuleEffects, URLEffects, Adds, URLEffect;
    var u, v := RuleEffects(group.additional), URLEffects(env, group.urls, group.additional != []);
    var es := Effects(env, group);
    RuleEffectsAdd(env, group.additional, key);
    URLEffectsAt(env, group.urls, group.additional != []);
    forall i | 0 <= i < |group.urls|
      ensures es[|u| + i] == v[i]
      ensures Adds(env, v[i], key) <==> IsHTTP(env, group.urls[i]) && RouteKey(env, group.urls[i]) == Some(key)
      ensures Marks(env, v[i], key) <==> Adds(env, v[i], key) && group.additional != []
    {
      EffectAdds(env, group.urls[i], group.additional != [], key);
    }
    assert forall i :: 0 <= i < |es| ==> es[i] == if i < |u| then u[i] else v[i - |u|];
    if Lists(env, group, key) {
      var i :| 0 <= i < |group.urls| && IsHTTP(env, group.urls[i]) && RouteKey(env, group.urls[i]) == Some(key);
      assert Adds(env, es[|u| + i], key);
      assert Marks(env, es[|u| + i], key) <==> group.additional != [];
    }
    forall i | 0 <= i < |es| && Adds(env, es[i], key)
      ensures Lists(env, group, key)
      ensures Marks(env, es[i], key) ==> group.additional != []
    {
      assert i >= |u|;
      assert es[i] == v[i - |u|];
    }
  }

  /** Main result: a target exists exactly if it was configured before or a group lists it, and
      it carries the additional rule exactly if some group with additional rules lists it. */
  lemma {:induction false} GroupsMark(env: Env, cfg: Config, names: seq<string>, key: string)
    requires forall i :: 0 <= i < |names| ==> names[i] in cfg.groups
    requires ApplyGroups(env, cfg, names).Some?
    ensures var c := ApplyGroups(env, cfg, names).value;
            && (key in c.targets <==>
                key in cfg.targets || exists n :: n in names && Lists(env, cfg.groups[n], key))
            && (key in cfg.targets ==> c.targets[key] == cfg.targets[key])
            && (MEDIA_OWNER_FOLLOWS in RulesOf(c.targetAccessRules, key) <==>
                || MEDIA_OWNER_FOLLOWS in RulesOf(cfg.targetAccessRules, key)
                || exists n :: n in names && Lists(env, cfg.groups[n], key) && cfg.groups[n].additional != [])
    decreases |names|
  {
    hide ApplyGroup, RulesOf, Lists;
    if names != [] {
      var group := cfg.groups[names[0]];
      GroupMarks(env, cfg, group, key);
      GroupKeeps(env, cfg, group);
      GroupsMark(env, ApplyGroup(env, cfg, group).value, names[1..], key);
      assert forall n :: n in names <==> n == names[0] || n in names[1..];
    }
  }

  lemma GroupMarks(env: Env, cfg: Config, group: Group, key: string)
    requires ApplyGroup(env, cfg, group).Some?
    ensures var c := ApplyGroup(env, cfg, group).value;
            && (key in c.targets <==> key in cfg.targets || Lists(env, group, key))
            && (key in cfg.targets ==> c.targets[key] == cfg.targets[key])
            && (MEDIA_OWNER_FOLLOWS in RulesOf(c.targetAccessRules, key) <==>
                || MEDIA_OWNER_FOLLOWS in RulesOf(cfg.targetAccessRules, key)
                || (Lists(env, group, key) && group.additional != []))
  {
    hide ApplyGroup, DoAll, RulesOf, Adds, Marks, Effects, Lists;
    GroupIsEffects(env, cfg, group);
    AllMarks(env, cfg, Effects(env, group), key);
    EffectsAdd(env, group, key);
  }

  // ---------- Targets carry no other additional rule ----------

  predicate OnlyFollows(cfg: Config) {
    forall k, n :: k in cfg.targetAccessRules && n in cfg.targetAccessRules[k] ==> n == MEDIA_OWNER_FOLLOWS
  }

  lemma DoOnlyFollows(env: Env, cfg: Config, e: Effect)
    requires OnlyFollows(cfg) && Do(env, cfg, e).Some?
    ensures OnlyFollows(Do(env, cfg, e).value)
  {
    hide AppendUnique, Trim, RouteKey, TrimmedRelays, FirstRelay, Required;
    if e.Target? && e.extra {
      var rules := RulesOf(cfg.targetAccessRules, RouteKey(env, e.value).value);
      FollowsTrimmed();
      AppendUniqueMeans(rules, Extra(true));
      forall n | n in AppendUnique(rules, Extra(true))
        ensures n == MEDIA_OWNER_FOLLOWS
      {
        var i :| 0 <= i < |rules + Extra(true)| && Trim((rules + Extra(true))[i]) == n;
        assert i < |rules| ==> (rules + Extra(true))[i] in rules;
      }
    }
  }

  lemma {:induction false} AllOnlyFollows(env: Env, cfg: Config, es: seq<Effect>)
    requires OnlyFollows(cfg) && DoAll(env, cfg, es).Some?
    ensures OnlyFollows(DoAll(env, cfg, es).value)
    decreases |es|
  {
    hide Do, OnlyFollows;
    if es != [] {
      DoOnlyFollows(env, cfg, es[0]);
      AllOnlyFollows(env, Do(env, cfg, es[0]).value, es[1..]);
    }
  }

  lemma GroupsOnlyFollow(env: Env, cfg: Config, names: seq<string>)
    requires forall i :: 0 <= i < |names| ==> names[i] in cfg.groups
    requires OnlyFollows(cfg) && ApplyGroups(env, cfg, names).Some?
    ensures OnlyFollows(ApplyGroups(env, cfg, names).value)
  {
    hide DoAll, ApplyGroups, OnlyFollows;
    GroupsAreEffects(env, cfg, names);
    AllOnlyFollows(env, cfg, AllEffects(env, cfg.groups, names));
  }
}
