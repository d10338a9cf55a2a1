/** The gateway end to end: from configuration text to what a forwarded request has passed. */
module Gateway {
  import opened Access
  import opened ConfigFile
  import opened GroupRules
  import opened LoadConfig
  import opened ProxyGroups
  import opened Proxy
  import opened Text
  import opened Wrappers

  function ProxyOf(s: Settings, prefix: string, origins: set<string>): Proxy {
    New(prefix, s.defaultTarget, s.targets, origins, s.accessRules, s.targetAccessRules, s.rules)
  }

  lemma {:induction false} TrimSlashesTwice(s: string)
    ensures TrimSlashes(TrimSlashes(s)) == TrimSlashes(s)
  {
    if s != "" && s[|s| - 1] == '/' {
      TrimSlashesTwice(s[..|s| - 1]);
    }
  }

  lemma CompactOfTrimmed(names: seq<string>)
    requires AllTrimmed(names) && "" !in names
    ensures forall n :: n in CompactNames(names) <==> n in names
  {
    hide CompactNames, Trim;
    CompactMeans(names);
    forall n
      ensures n in CompactNames(names) <==> n in names
    {
      if n in names {
        var i :| 0 <= i < |names| && names[i] == n;
        assert Trim(names[i]) == n;
      }
      if n in CompactNames(names) {
        var i :| 0 <= i < |names| && Trim(names[i]) == n;
        assert names[i] in names;
      }
    }
  }

  function ProxyFor(cfg: Config, base: string, prefix: string, origins: set<string>): Proxy {
    ProxyOf(SettingsOf(cfg, base), prefix, origins)
  }

  /** What is known of a configuration the gateway loads. */
  ghost predicate Accepted(env: Env, cfg: Config) {
    && Neat(cfg) && OnlyFollows(cfg)
    && cfg.proxyAccessRules == GlobalRuleNames(cfg)
    && (forall k :: k in cfg.targets ==> ValidRouteKey(k))
    && (forall k :: MEDIA_OWNER_FOLLOWS in RulesOf(cfg.targetAccessRules, k) <==> Restricted(env, cfg, k))
    && !Restricted(env, cfg, "")
  }

  lemma LoadedIsAccepted(env: Env, raw: string, base: string)
    ensures Load(env, raw, base).Some? ==>
              && ParseConfig(env, raw).Some?
              && Accepted(env, ParseConfig(env, raw).value)
              && Load(env, raw, base) == Some(SettingsOf(ParseConfig(env, raw).value, base))
  {
    hide ParseConfig, Restricted, GlobalRuleNames, DefaultedRule, IsHTTP, Neat, OnlyFollows, TrimSlashes, ValidRules, Lists;
    if Load(env, raw, base).Some? {
      var cfg := ParseConfig(env, raw).value;
      EveryRuleIsDefined(env, raw);
      forall k
        ensures MEDIA_OWNER_FOLLOWS in RulesOf(cfg.targetAccessRules, k) <==> Restricted(env, cfg, k)
      {
        GroupTargets(env, raw, k);
      }
      assert forall k :: k in cfg.targets ==> k in SettingsOf(cfg, base).targets;
      NotRestricted(env, raw);
    }
  }

  lemma NotRestricted(env: Env, raw: string)
    requires ParseConfig(env, raw).Some? && "" !in ParseConfig(env, raw).value.targets
    ensures OnlyFollows(ParseConfig(env, raw).value) && !Restricted(env, ParseConfig(env, raw).value, "")
  {
    hide ParseConfig, Lists;
    GroupTargets(env, raw, "");
  }

  /** The rules of a target are the global rules and, if a group with additional rules lists the
      target, the rule of those groups; the fallback has the global rules only.  All are defined. */
  lemma RulesOfTarget(env: Env, cfg: Config, base: string, prefix: string, origins: set<string>, key: string, n: string)
    requires Accepted(env, cfg)
    ensures var p := ProxyFor(cfg, base, prefix, origins);
            && (n in RulesForTarget(p, key) <==>
                n in GlobalRuleNames(cfg) || (n == MEDIA_OWNER_FOLLOWS && Restricted(env, cfg, key)))
            && (n in RulesForTarget(p, "") <==> n in GlobalRuleNames(cfg))
            && (n in RulesForTarget(p, key) ==> n in p.rules)
  {
    hide Accepted, RulesForTarget, GlobalRuleNames, Restricted;
    RulesOfKey(env, cfg, base, prefix, origins, key, n);
    RulesOfKey(env, cfg, base, prefix, origins, "", n);
    NoRestrictedFallback(env, cfg);
  }

  lemma NoRestrictedFallback(env: Env, cfg: Config)
    requires Accepted(env, cfg)
    ensures !Restricted(env, cfg, "")
  {
    hide Restricted, Neat, OnlyFollows, GlobalRuleNames;
  }

  lemma RulesOfKey(env: Env, cfg: Config, base: string, prefix: string, origins: set<string>, key: string, n: string)
    requires Accepted(env, cfg)
    ensures var p := ProxyFor(cfg, base, prefix, origins);
            && (n in RulesForTarget(p, key) <==>
                n in GlobalRuleNames(cfg) || (n == MEDIA_OWNER_FOLLOWS && Restricted(env, cfg, key)))
            && (n in RulesForTarget(p, key) ==> n in p.rules)
  {
    hide Restricted, AppendUnique, CompactNames, Trim, GlobalRuleNames, DefaultedRule, Neat, OnlyFollows, TrimSlashes, CleanPrefix;
    var p := ProxyFor(cfg, base, prefix, origins);
    GlobalNames(cfg);
    CompactOfTrimmed(cfg.proxyAccessRules);
    TargetNames(cfg, key);
    CompactOfTrimmed(RulesOf(cfg.targetAccessRules, key));
    NamesOfBoth(p.accessRules, RulesOf(p.targetAccessRules, key), n);
    if n in GlobalRuleNames(cfg) || n in RulesOf(cfg.targetAccessRules, key) {
      NamesDefined(cfg, key, n);
    }
    assert p.accessRules == CompactNames(cfg.proxyAccessRules);
    CompactNothing();
    assert RulesOf(p.targetAccessRules, key) == CompactNames(RulesOf(cfg.targetAccessRules, key));
    assert p.rules.Keys == cfg.accessRules.Keys;
  }

  lemma CompactNothing()
    ensures CompactNames([]) == []
  {}

  lemma GlobalNames(cfg: Config)
    ensures AllTrimmed(GlobalRuleNames(cfg)) && "" !in GlobalRuleNames(cfg)
  {
    GlobalTrimmed(cfg);
  }

  lemma TargetNames(cfg: Config, key: string)
    requires OnlyFollows(cfg) && Neat(cfg)
    ensures var names := RulesOf(cfg.targetAccessRules, key);
            && AllTrimmed(names) && "" !in names
            && (forall n :: n in names ==> n == MEDIA_OWNER_FOLLOWS)
  {
    hide Trim;
  }

  lemma NamesDefined(cfg: Config, key: string, n: string)
    requires Neat(cfg) && (n in GlobalRuleNames(cfg) || n in RulesOf(cfg.targetAccessRules, key))
    ensures n in cfg.accessRules
  {
    hide Trim, GlobalRuleNames;
  }

  lemma MeetsRules(env: Env, cfg: Config, base: string, prefix: string, origins: set<string>, caller: Caller, key: string)
    requires Accepted(env, cfg)
    requires var p := ProxyFor(cfg, base, prefix, origins); MeetsAll(p, caller, RulesForTarget(p, key))
    ensures var p := ProxyFor(cfg, base, prefix, origins);
            && MeetsAll(p, caller, GlobalRuleNames(cfg))
            && (Restricted(env, cfg, key) ==> MeetsAll(p, caller, [MEDIA_OWNER_FOLLOWS]))
  {
    hide *;
    var p := ProxyFor(cfg, base, prefix, origins);
    forall n
      ensures n in RulesForTarget(p, key) <==>
              n in GlobalRuleNames(cfg) || (n == MEDIA_OWNER_FOLLOWS && Restricted(env, cfg, key))
    {
      RulesOfTarget(env, cfg, base, prefix, origins, key, n);
    }
    var all := RulesForTarget(p, key);
    MeetsSome(p, caller, all, GlobalRuleNames(cfg));
    if Restricted(env, cfg, key) {
      MeetsSome(p, caller, all, [MEDIA_OWNER_FOLLOWS]);
    }
  }

  lemma MeetsSome(p: Proxy, caller: Caller, all: seq<string>, names: seq<string>)
    requires MeetsAll(p, caller, all) && forall n :: n in names ==> n in all
    ensures MeetsAll(p, caller, names)
  {
    hide Meets;
    assert names != [] ==> names[0] in names;
  }

  /** A routed request goes to the configured URL of its target, a fallback request to that of
      trustroots. */
  lemma Upstreams(env: Env, cfg: Config, base: string, prefix: string, origins: set<string>, path: string, query: string)
    requires forall k :: k in cfg.targets ==> ValidRouteKey(k)
    ensures match RouteOf(ProxyFor(cfg, base, prefix, origins), path, query)
            case None => true
            case Some(route) =>
              var key := if route.platform == "" then "trustroots" else route.platform;
              key in cfg.targets && route.upstream == TrimSlashes(cfg.targets[key])
  {
    hide TrimSlashes, RulesForTarget, StripPrefix, TrimSlash, Segment, WithQuery, PublicPath, CleanPrefix, LooksLikePlatform;
    hide DefaultedRule;
    assert "" !in cfg.targets;
    match RouteOf(ProxyFor(cfg, base, prefix, origins), path, query)
    case None =>
    case Some(route) =>
      var key := if route.platform == "" then "trustroots" else route.platform;
      if key in cfg.targets {
        TrimSlashesTwice(cfg.targets[key]);
      }
      TrimNothing();
  }

  lemma TrimNothing()
    ensures TrimSlashes("") == ""
  {}

  /** What a forwarded request has passed, for a configuration and a route. */
  ghost predicate Guarded(env: Env, cfg: Config, p: Proxy, caller: Caller, req: Request, route: Route) {
    || (req.method_ == "GET" && IsPublicAsset("GET", route.forwardPath))
    || (&& MeetsAll(p, caller, GlobalRuleNames(cfg))
        && (Restricted(env, cfg, route.platform) ==> MeetsAll(p, caller, [MEDIA_OWNER_FOLLOWS])))
  }

  /** Main result: for every configuration the gateway loads and every request it forwards, the
      request is a GET for a public asset or its verified key meets the configured global rule
      and, if a group with additional rules lists the target, that rule too. */
  lemma ForwardedIsGuarded(env: Env, raw: string, base: string, prefix: string, origins: set<string>, caller: Caller,
                           req: Request)
    ensures match Load(env, raw, base)
            case None => true
            case Some(s) =>
              var p := ProxyOf(s, prefix, origins);
              match Serve(p, caller, req)
              case Forwarded(route) =>
                ParseConfig(env, raw).Some? && Guarded(env, ParseConfig(env, raw).value, p, caller, req, route)
              case _ => true
  {
    hide *;
    LoadedIsAccepted(env, raw, base);
    if Load(env, raw, base).Some? {
      var cfg := ParseConfig(env, raw).value;
      assert ProxyOf(SettingsOf(cfg, base), prefix, origins) == ProxyFor(cfg, base, prefix, origins) by {
        ProxyUnfolds(cfg, base, prefix, origins);
      }
      ForwardedGuarded(env, cfg, base, prefix, origins, caller, req);
    }
  }

  lemma ProxyUnfolds(cfg: Config, base: string, prefix: string, origins: set<string>)
    ensures ProxyFor(cfg, base, prefix, origins) == ProxyOf(SettingsOf(cfg, base), prefix, origins)
  {}

  lemma ForwardedGuarded(env: Env, cfg: Config, base: string, prefix: string, origins: set<string>, caller: Caller,
                         req: Request)
    requires Accepted(env, cfg)
    ensures var p := ProxyFor(cfg, base, prefix, origins);
            match Serve(p, caller, req)
            case Forwarded(route) => Guarded(env, cfg, p, caller, req, route)
            case _ => true
  {
    hide Accepted, ProxyFor, Serve, RouteOf, RulesForTarget, MeetsAll, Restricted, GlobalRuleNames, IsPublicAsset;
    var p := ProxyFor(cfg, base, prefix, origins);
    match Serve(p, caller, req)
    case Forwarded(route) =>
      ForwardedExactly(p, caller, req, route);
      if MeetsAll(p, caller, RulesForTarget(p, route.platform)) {
        MeetsRules(env, cfg, base, prefix, origins, caller, route.platform);
      }
    case _ =>
  }
}
