/** What a set of proxy groups leads to: when they are accepted, and what they leave behind, told
    from the groups alone. */
module GroupResults {
  import opened ConfigFile
  import opened GroupRules
  import opened ProxyGroups
  import opened Text
  import opened Wrappers

  // ---------- When groups are accepted ----------

  /** The URLs among a group's entries; the others name media services. */
  function WebURLs(env: Env, urls: seq<string>): seq<string> {
    if urls == [] then []
    else if IsHTTP(env, urls[0]) then [urls[0]] + WebURLs(env, urls[1..])
    else WebURLs(env, urls[1..])
  }

  function AllWebURLs(env: Env, groups: map<string, Group>, names: seq<string>): seq<string>
    requires forall i :: 0 <= i < |names| ==> names[i] in groups
    decreases |names|
  {
    if names == [] then [] else WebURLs(env, groups[names[0]].urls) + AllWebURLs(env, groups, names[1..])
  }

  predicate KnownEntry(env: Env, value: string) {
    IsHTTP(env, value) || value == "fips_jellyfin" || value == "fips_plex"
  }

  /** A group whose entries are all known: it asks for no rule but the owner's follow list, and
      for that only if there is an owner. */
  predicate KnownGroup(env: Env, owner: string, group: Group) {
    && (forall i :: 0 <= i < |group.additional| ==> group.additional[i] == "nostr_follow")
    && (group.additional != [] ==> Trim(owner) != "")
    && (forall i :: 0 <= i < |group.urls| ==> KnownEntry(env, group.urls[i]))
  }

  lemma {:induction false} AdditionalAccepted(cfg: Config, names: seq<string>, additional: seq<string>)
    ensures AdditionalRules(cfg, names, additional).Some? <==>
            && (forall i :: 0 <= i < |additional| ==> additional[i] == "nostr_follow")
            && (additional != [] ==> Trim(cfg.ownerPubkey) != "")
    ensures AdditionalRules(cfg, names, additional).Some? ==>
              AdditionalRules(cfg, names, additional).value.0.targets == cfg.targets
    decreases |additional|
  {
    hide AppendUnique, FollowRule, Trim;
    if additional != [] {
      if additional[0] == NOSTR_FOLLOW && Trim(cfg.ownerPubkey) != "" {
        AdditionalAccepted(AddFollowRule(cfg), AppendUnique(names, [MEDIA_OWNER_FOLLOWS]), additional[1..]);
        assert forall i :: 0 < i < |additional| ==> additional[i] == additional[1..][i - 1];
        assert forall i :: 0 <= i < |additional[1..]| ==> additional[1..][i] == additional[i + 1];
      }
    }
  }

  lemma {:induction false} URLsAccepted(env: Env, cfg: Config, extra: seq<string>, required: seq<string>, urls: seq<string>)
    ensures ApplyURLs(env, cfg, extra, required, urls).Some? <==>
            && (forall i :: 0 <= i < |urls| ==> KnownEntry(env, urls[i]))
            && AddTargets(env, cfg.targets, WebURLs(env, urls)).Some?
    ensures ApplyURLs(env, cfg, extra, required, urls).Some? ==>
              Some(ApplyURLs(env, cfg, extra, required, urls).value.targets) == AddTargets(env, cfg.targets, WebURLs(env, urls))
    decreases |urls|
  {
    hide AppendUnique, IsHTTP, RouteKey;
    if urls != [] {
      var value, rest := urls[0], urls[1..];
      assert forall i :: 0 < i < |urls| ==> urls[i] == rest[i - 1];
      assert forall i :: 0 <= i < |rest| ==> rest[i] == urls[i + 1];
      URLAccepted(env, cfg, extra, required, value);
      match ApplyURL(env, cfg, extra, required, value) {
        case None =>
        case Some(c) => URLsAccepted(env, c, extra, required, rest);
      }
      if IsHTTP(env, value) {
        assert WebURLs(env, urls)[1..] == WebURLs(env, rest);
      }
    }
  }

  lemma URLAccepted(env: Env, cfg: Config, extra: seq<string>, required: seq<string>, value: string)
    ensures match ApplyURL(env, cfg, extra, required, value)
            case None => if IsHTTP(env, value) then AddTarget(env, cfg.targets, value) == None else !KnownEntry(env, value)
            case Some(c) =>
              && KnownEntry(env, value)
              && if IsHTTP(env, value) then AddTarget(env, cfg.targets, value) == Some(c.targets) else c.targets == cfg.targets
  {
    hide AppendUnique, IsHTTP, RouteKey;
  }

  /** Main result: groups are accepted exactly if every entry is known and all their URLs can be
      listed as targets; then the targets are those of that list. */
  lemma {:induction false} GroupsAccepted(env: Env, cfg: Config, names: seq<string>)
    requires forall i :: 0 <= i < |names| ==> names[i] in cfg.groups
    ensures ApplyGroups(env, cfg, names).Some? <==>
            && (forall i :: 0 <= i < |names| ==> KnownGroup(env, cfg.ownerPubkey, cfg.groups[names[i]]))
            && AddTargets(env, cfg.targets, AllWebURLs(env, cfg.groups, names)).Some?
    ensures ApplyGroups(env, cfg, names).Some? ==>
              Some(ApplyGroups(env, cfg, names).value.targets) ==
              AddTargets(env, cfg.targets, AllWebURLs(env, cfg.groups, names))
    decreases |names|
  {
    hide ApplyGroup, AddTargets, KnownGroup, WebURLs;
    if names == [] {
      NoTargets(env, cfg.targets);
    } else {
      var group, rest := cfg.groups[names[0]], names[1..];
      assert forall i :: 0 < i < |names| ==> names[i] == rest[i - 1];
      assert forall i :: 0 <= i < |rest| ==> rest[i] == names[i + 1];
      GroupAccepted(env, cfg, group);
      AddTargetsConcat(env, cfg.targets, WebURLs(env, group.urls), AllWebURLs(env, cfg.groups, rest));
      match ApplyGroup(env, cfg, group)
      case None =>
      case Some(c) =>
        GroupKeeps(env, cfg, group);
        GroupsAccepted(env, c, rest);
    }
  }

  lemma NoTargets(env: Env, targets: map<string, string>)
    ensures AddTargets(env, targets, []) == Some(targets)
  {}

  lemma GroupAccepted(env: Env, cfg: Config, group: Group)
    ensures ApplyGroup(env, cfg, group).Some? <==>
            KnownGroup(env, cfg.ownerPubkey, group) && AddTargets(env, cfg.targets, WebURLs(env, group.urls)).Some?
    ensures ApplyGroup(env, cfg, group).Some? ==>
              Some(ApplyGroup(env, cfg, group).value.targets) == AddTargets(env, cfg.targets, WebURLs(env, group.urls))
  {
    hide AdditionalRules, ApplyURLs, AppendUnique, AddTargets, WebURLs, KnownEntry, GlobalRuleNames, Trim;
    AdditionalAccepted(cfg, [], group.additional);
    match AdditionalRules(cfg, [], group.additional)
    case None =>
    case Some((c, extra)) => URLsAccepted(env, c, extra, AppendUnique(GlobalRuleNames(c), extra), group.urls);
  }

  // ---------- The rules of media services ----------

  predicate MediaTrimmed(cfg: Config) {
    forall s :: s in cfg.mediaRules ==> AllTrimmed(cfg.mediaRules[s]) && "" !in cfg.mediaRules[s]
  }

  /** The rules a group asks of its media services. */
  predicate Asked(cfg: Config, extra: bool, n: string) {
    n in GlobalRuleNames(cfg) || (extra && n == "media_owner_follows")
  }

  lemma RequiredMeans(cfg: Config, extra: bool, n: string)
    ensures n in Required(cfg, extra) <==> Asked(cfg, extra, n)
    ensures AllTrimmed(Required(cfg, extra)) && "" !in Required(cfg, extra)
  {
    hide AppendUnique, Trim, GlobalRuleNames;
    GlobalTrimmed(cfg);
    NoBlankGlobal(cfg);
    FollowsTrimmed();
    NamesOfBoth(GlobalRuleNames(cfg), Extra(extra), n);
    forall m | m in Required(cfg, extra)
      ensures Trim(m) == m != ""
    {
      NamesOfBoth(GlobalRuleNames(cfg), Extra(extra), m);
    }
  }

  lemma NoBlankGlobal(cfg: Config)
    ensures "" !in GlobalRuleNames(cfg)
  {}

  lemma DoServes(env: Env, cfg: Config, e: Effect, service: string, n: string)
    requires MediaTrimmed(cfg) && Do(env, cfg, e).Some?
    ensures var c := Do(env, cfg, e).value;
            && MediaTrimmed(c)
            && (n in RulesOf(c.mediaRules, service) <==>
                n in RulesOf(cfg.mediaRules, service) || (e.Media? && e.service == service && Asked(cfg, e.extra, n)))
  {
    hide AppendUnique, Trim, RouteKey, TrimmedRelays, FirstRelay, Required, Asked, TargetRules;
    if e.Media? {
      RequiredMeans(cfg, e.extra, n);
      var u, v := RulesOf(cfg.mediaRules, e.service), Required(cfg, e.extra);
      NamesOfBoth(u, v, n);
      forall m | m in AppendUnique(u, v)
        ensures Trim(m) == m != ""
      {
        NamesOfBoth(u, v, m);
      }
    }
  }

  predicate Serves(cfg: Config, e: Effect, service: string, n: string) {
    e.Media? && e.service == service && Asked(cfg, e.extra, n)
  }

  lemma {:induction false} AllServe(env: Env, cfg: Config, es: seq<Effect>, service: string, n: string)
    requires MediaTrimmed(cfg) && DoAll(env, cfg, es).Some?
    ensures var c := DoAll(env, cfg, es).value;
            && MediaTrimmed(c)
            && (n in RulesOf(c.mediaRules, service) <==>
                n in RulesOf(cfg.mediaRules, service) || exists i :: 0 <= i < |es| && Serves(cfg, es[i], service, n))
    decreases |es|
  {
    hide Do, RulesOf, MediaTrimmed, Asked;
    if es != [] {
      DoServes(env, cfg, es[0], service, n);
      DoKeeps(env, cfg, es[0]);
      var c := Do(env, cfg, es[0]).value;
      AllServe(env, c, es[1..], service, n);
      AskedAlike(c, cfg, n);
      Somewhere(es, e => Serves(cfg, e, service, n));
    }
  }

  lemma AskedAlike(a: Config, b: Config, n: string)
    requires SameBasis(a, b)
    ensures forall extra :: Asked(a, extra, n) <==> Asked(b, extra, n)
  {
    SameRequired(a, b, true);
  }

  /** The entry at `i` names the media service. */
  predicate NamesAt(env: Env, group: Group, service: string, i: int) {
    0 <= i < |group.urls| && !IsHTTP(env, group.urls[i])
    && ((group.urls[i] == "fips_jellyfin" && service == "jellyfin") || (group.urls[i] == "fips_plex" && service == "plex"))
  }

  ghost predicate Names(env: Env, group: Group, service: string) {
    exists i :: NamesAt(env, group, service, i)
  }

  lemma {:induction false} RuleEffectsServe(cfg: Config, additional: seq<string>, service: string, n: string)
    ensures forall i :: 0 <= i < |RuleEffects(additional)| ==> !Serves(cfg, RuleEffects(additional)[i], service, n)
    decreases |additional|
  {
    if additional != [] {
      RuleEffectsServe(cfg, additional[1..], service, n);
    }
  }

  lemma EffectServes(env: Env, cfg: Config, group: Group, i: nat, service: string, n: string)
    requires i < |group.urls|
    ensures Serves(cfg, URLEffect(env, group.urls[i], group.additional != []), service, n) <==>
            NamesAt(env, group, service, i) && Asked(cfg, group.additional != [], n)
  {
    hide IsHTTP, Asked;
  }

  lemma EffectsServe(env: Env, cfg: Config, group: Group, service: string, n: string)
    ensures (exists i :: 0 <= i < |Effects(env, group)| && Serves(cfg, Effects(env, group)[i], service, n)) <==>
            Names(env, group, service) && Asked(cfg, group.additional != [], n)
  {
    hide IsHTTP, RuleEffects, URLEffects, Serves, URLEffect, Asked;
    var extra := group.additional != [];
    var u, v, es := RuleEffects(group.additional), URLEffects(env, group.urls, extra), Effects(env, group);
    RuleEffectsServe(cfg, group.additional, service, n);
    URLEffectsAt(env, group.urls, extra);
    assert forall i :: 0 <= i < |es| ==> es[i] == if i < |u| then u[i] else v[i - |u|];
    if i :| NamesAt(env, group, service, i) {
      EffectServes(env, cfg, group, i, service, n);
      assert es[|u| + i] == v[i];
    }
    if i :| 0 <= i < |es| && Serves(cfg, es[i], service, n) {
      assert es[i] == v[i - |u|];
      EffectServes(env, cfg, group, i - |u|, service, n);
    }
  }

  /** Main result: a media service carries exactly the rules of the groups that name it: the
      global ones, and the additional one if such a group has additional rules. */
  lemma {:induction false} GroupsServe(env: Env, cfg: Config, names: seq<string>, service: string, n: string)
    requires forall i :: 0 <= i < |names| ==> names[i] in cfg.groups
    requires MediaTrimmed(cfg) && ApplyGroups(env, cfg, names).Some?
    ensures var c := ApplyGroups(env, cfg, names).value;
            && MediaTrimmed(c)
            && (n in RulesOf(c.mediaRules, service) <==>
                || n in RulesOf(cfg.mediaRules, service)
                || exists m :: m in names && Names(env, cfg.groups[m], service) && Asked(cfg, cfg.groups[m].additional != [], n))
    decreases |names|
  {
    hide ApplyGroup, RulesOf, Names, Asked, MediaTrimmed;
    if names != [] {
      var group := cfg.groups[names[0]];
      GroupServes(env, cfg, group, service, n);
      GroupKeeps(env, cfg, group);
      var c := ApplyGroup(env, cfg, group).value;
      GroupsServe(env, c, names[1..], service, n);
      AskedAlike(c, cfg, n);
      assert forall m :: m in names <==> m == names[0] || m in names[1..];
    }
  }

  lemma GroupServes(env: Env, cfg: Config, group: Group, service: string, n: string)
    requires MediaTrimmed(cfg) && ApplyGroup(env, cfg, group).Some?
    ensures var c := ApplyGroup(env, cfg, group).value;
            && MediaTrimmed(c)
            && (n in RulesOf(c.mediaRules, service) <==>
                n in RulesOf(cfg.mediaRules, service) || (Names(env, group, service) && Asked(cfg, group.additional != [], n)))
  {
    hide ApplyGroup, DoAll, RulesOf, Serves, Effects, Names, Asked, MediaTrimmed;
    GroupIsEffects(env, cfg, group);
    AllServe(env, cfg, Effects(env, group), service, n);
    EffectsServe(env, cfg, group, service, n);
  }

  // ---------- The follow rule ----------

  /** The rule that asks the owner's follow list, as the configuration's owner and relays make it. */
  predicate HasFollowRule(c: Config) {
    && "media_owner_follows" in c.accessRules
    && var rule := c.accessRules["media_owner_follows"];
    && rule.kind == "nostr_follow" && rule.relationship == "owner_follows_user"
    && rule.ownerPubkey == c.ownerPubkey
    && rule.relayURL == FirstRelay(c.additionalRelays) && rule.relayURLs == TrimmedRelays(c.additionalRelays)
  }

  lemma DoFollows(env: Env, cfg: Config, e: Effect)
    requires Do(env, cfg, e).Some?
    ensures var c := Do(env, cfg, e).value;
            && (e.Follow? || HasFollowRule(cfg) ==> HasFollowRule(c))
            && (forall k :: k != "media_owner_follows" ==>
                  && (k in c.accessRules <==> k in cfg.accessRules)
                  && (k in cfg.accessRules ==> c.accessRules[k] == cfg.accessRules[k]))
            && (!e.Follow? ==> c.accessRules == cfg.accessRules)
  {
    hide AppendUnique, Trim, RouteKey, TrimmedRelays, FirstRelay, Required, TargetRules;
  }

  lemma {:induction false} AllFollow(env: Env, cfg: Config, es: seq<Effect>)
    requires DoAll(env, cfg, es).Some?
    ensures var c := DoAll(env, cfg, es).value;
            && (HasFollowRule(cfg) || Follow in es ==> HasFollowRule(c))
            && (forall k :: k != "media_owner_follows" ==>
                  && (k in c.accessRules <==> k in cfg.accessRules)
                  && (k in cfg.accessRules ==> c.accessRules[k] == cfg.accessRules[k]))
            && (Follow !in es ==> c.accessRules == cfg.accessRules)
    decreases |es|
  {
    hide Do, HasFollowRule;
    if es != [] {
      DoFollows(env, cfg, es[0]);
      AllFollow(env, Do(env, cfg, es[0]).value, es[1..]);
      assert Follow in es <==> es[0] == Follow || Follow in es[1..];
    }
  }

  lemma {:induction false} FollowInEffects(env: Env, groups: map<string, Group>, names: seq<string>)
    requires forall i :: 0 <= i < |names| ==> names[i] in groups
    ensures (exists m :: m in names && groups[m].additional != [] && groups[m].additional[0] == "nostr_follow")
            ==> Follow in AllEffects(env, groups, names)
    ensures Follow in AllEffects(env, groups, names) ==> exists m :: m in names && groups[m].additional != []
    decreases |names|
  {
    hide URLEffects;
    if names != [] {
      var group := groups[names[0]];
      FollowInEffects(env, groups, names[1..]);
      assert forall m :: m in names <==> m == names[0] || m in names[1..];
      NoFollowInURLs(env, group.urls, group.additional != []);
      var es := Effects(env, group);
      assert group.additional != [] ==> es[0] == RuleEffects(group.additional)[0];
      assert forall e :: e in AllEffects(env, groups, names) <==> e in es || e in AllEffects(env, groups, names[1..]);
      assert forall e :: e in es <==> e in RuleEffects(group.additional) || e in URLEffects(env, group.urls, group.additional != []);
    }
  }

  lemma {:induction false} NoFollowInURLs(env: Env, urls: seq<string>, extra: bool)
    ensures Follow !in URLEffects(env, urls, extra)
    decreases |urls|
  {
    hide IsHTTP, MediaService;
    if urls != [] {
      NoFollowInURLs(env, urls[1..], extra);
    }
  }

  /** Main result: accepted groups define the follow rule exactly if one of them asks for it, from
      the configuration's owner and relays, and change no other rule. */
  lemma GroupsDefineFollow(env: Env, cfg: Config, names: seq<string>)
    requires forall i :: 0 <= i < |names| ==> names[i] in cfg.groups
    requires ApplyGroups(env, cfg, names).Some?
    ensures var c := ApplyGroups(env, cfg, names).value;
            && ((exists m :: m in names && cfg.groups[m].additional != []) ==> HasFollowRule(c))
            && ((forall m :: m in names ==> cfg.groups[m].additional == []) ==> c.accessRules == cfg.accessRules)
            && (forall k :: k != "media_owner_follows" ==>
                  && (k in c.accessRules <==> k in cfg.accessRules)
                  && (k in cfg.accessRules ==> c.accessRules[k] == cfg.accessRules[k]))
  {
    hide ApplyGroups, DoAll, AllEffects, HasFollowRule, IsHTTP, AddTargets, AllWebURLs;
    GroupsAreEffects(env, cfg, names);
    AllFollow(env, cfg, AllEffects(env, cfg.groups, names));
    FollowInEffects(env, cfg.groups, names);
    GroupsAccepted(env, cfg, names);
    forall m | m in names && cfg.groups[m].additional != []
      ensures cfg.groups[m].additional[0] == "nostr_follow"
    {
      var i :| 0 <= i < |names| && names[i] == m;
      assert KnownGroup(env, cfg.ownerPubkey, cfg.groups[names[i]]);
    }
  }
}
