/** The reverse proxy: routing, the order of its gates, and redirect rewriting. */
module Proxy {
  import opened Access
  import opened ConfigFile
  import opened ProxyGroups
  import opened Text
  import opened Wrappers

  datatype Proxy = Proxy(
    prefix: string,
    defaultTarget: string,
    targets: map<string, string>,
    origins: set<string>,
    accessRules: seq<string>,
    targetAccessRules: map<string, seq<string>>,
    rules: map<string, Rule>)

  /** A request: `path` is the decoded path, `escapedPath` and `query` its parts as sent. */
  datatype Request = Request(method_: string, origin: string, path: string, escapedPath: string, query: string)

  datatype Route = Route(
    upstream: string, forwardPath: string, platform: string, pathScope: string, publicBase: string,
    accessRules: seq<string>)

  datatype Response =
    | Health
    | Preflight
    | OriginNotAllowed
    | MethodNotAllowed
    | NoUpstream
    | AccessRefused(error: AccessError)
    | Forwarded(route: Route)

  function CleanPrefix(prefix: string): string {
    var p := TrimSlashes(prefix);
    if p == "" then "" else if HasPrefix(p, "/") then p else "/" + p
  }

  function New(prefix: string, defaultTarget: string, targets: map<string, string>, origins: set<string>,
               accessRules: seq<string>, targetAccessRules: map<string, seq<string>>, rules: map<string, Rule>): Proxy {
    Proxy(
      CleanPrefix(prefix),
      TrimSlashes(defaultTarget),
      map k | k in targets :: TrimSlashes(targets[k]),
      origins,
      CompactNames(accessRules),
      map k | k in targetAccessRules :: CompactNames(targetAccessRules[k]),
      rules)
  }

  // ---------- Routing ----------

  function StripPrefix(p: Proxy, path: string): Option<string> {
    if p.prefix == "" then Some(path)
    else if path == p.prefix then Some("/")
    else if HasPrefix(path, p.prefix + "/") then Some(path[|p.prefix|..])
    else None
  }

  function PublicPath(p: Proxy, path: string): string {
    if p.prefix == "" then if path == "" then "/" else path
    else if path == "" || path == "/" then p.prefix
    else p.prefix + path
  }

  predicate LooksLikePlatform(segment: string) {
    segment !in {"api", "assets", "images", "img", "static", "uploads", ""}
  }

  function TrimSlash(s: string): string {
    if s != "" && s[0] == '/' then s[1..] else s
  }

  function WithQuery(path: string, query: string): string {
    if query == "" then path else path + "?" + query
  }

  function Segment(trimmed: string): (r: string)
    ensures |r| <= |trimmed| && r == trimmed[..|r|]
  {
    match IndexOf(trimmed, '/')
    case None => trimmed
    case Some(i) => trimmed[..i]
  }

  function RulesForTarget(p: Proxy, platform: string): seq<string> {
    AppendUnique(p.accessRules, RulesOf(p.targetAccessRules, platform))
  }

  function RouteOf(p: Proxy, escapedPath: string, query: string): Option<Route> {
    match StripPrefix(p, if escapedPath == "" then "/" else escapedPath)
    case None => None
    case Some(path) =>
      var trimmed := TrimSlash(path);
      var segment := Segment(trimmed);
      if segment in p.targets then
        var base := PublicPath(p, "/" + segment);
        Some(Route(p.targets[segment], WithQuery("/" + TrimSlash(trimmed[|segment|..]), query), segment, base, base,
                   RulesForTarget(p, segment)))
      else if segment != "" && LooksLikePlatform(segment) then None
      else if p.defaultTarget == "" then None
      else
        var base := PublicPath(p, "");
        Some(Route(p.defaultTarget, WithQuery(path, query), "", base, base, RulesForTarget(p, "")))
  }

  // ---------- Gates ----------

  const PUBLIC_ASSETS := ["/images/", "/image/", "/thumb/", "/w/images/", "/w/image/", "/w/thumb/", "/static/images/"]

  predicate IsPublicAsset(method_: string, forwardPath: string) {
    && (method_ == "GET" || method_ == "HEAD")
    && var path := Lower(forwardPath);
       var bare := (match IndexOf(path, '?') case None => path case Some(i) => path[..i]);
       exists i :: 0 <= i < |PUBLIC_ASSETS| && HasPrefix(bare, PUBLIC_ASSETS[i])
  }

  predicate OriginAllowed(p: Proxy, origin: string) {
    origin == "" || p.origins == {} || origin in p.origins
  }

  predicate AllowedMethod(method_: string) {
    method_ in {"GET", "POST", "PUT", "DELETE", "OPTIONS"}
  }

  function Serve(p: Proxy, caller: Caller, req: Request): Response {
    if req.path == p.prefix + "/healthz" then Health
    else if req.method_ == "OPTIONS" then if OriginAllowed(p, req.origin) then Preflight else OriginNotAllowed
    else if !OriginAllowed(p, req.origin) then OriginNotAllowed
    else if !AllowedMethod(req.method_) then MethodNotAllowed
    else
      match RouteOf(p, req.escapedPath, req.query)
      case None => NoUpstream
      case Some(route) =>
        if route.accessRules == [] || IsPublicAsset(req.method_, route.forwardPath) then Forwarded(route)
        else
          match VerifyAll(p.rules, caller, route.accessRules)
          case Err(e) => AccessRefused(e)
          case Ok(_) => Forwarded(route)
  }

  method ServeHTTP(p: Proxy, caller: Caller, req: Request) returns (r: Response)
    ensures r == Serve(p, caller, req)
  {
    var corsAllowed := OriginAllowed(p, req.origin);
    if req.path == p.prefix + "/healthz" {
      return Health;
    }
    if req.method_ == "OPTIONS" {
      if !corsAllowed {
        return OriginNotAllowed;
      }
      return Preflight;
    }
    if !corsAllowed {
      return OriginNotAllowed;
    }
    if !AllowedMethod(req.method_) {
      return MethodNotAllowed;
    }
    var routed := RouteOf(p, req.escapedPath, req.query);
    if routed.None? {
      return NoUpstream;
    }
    var route := routed.value;
    if |route.accessRules| > 0 && !IsPublicAsset(req.method_, route.forwardPath) {
      var verified := VerifyAllRequest(p.rules, caller, route.accessRules);
      if verified.Err? {
        return AccessRefused(verified.error);
      }
    }
    return Forwarded(route);
  }

  // ---------- What a forwarded request has passed ----------

  /** If any rules are named at all, the request's event verified and its key meets them. */
  predicate MeetsAll(p: Proxy, caller: Caller, names: seq<string>) {
    names != [] ==>
      && caller.verified.Some?
      && forall n :: n in names ==> Meets(p.rules, caller, n, caller.verified.value)
  }

  lemma RouteRules(p: Proxy, escapedPath: string, query: string)
    requires RouteOf(p, escapedPath, query).Some?
    ensures var route := RouteOf(p, escapedPath, query).value;
            && route.accessRules == RulesForTarget(p, route.platform)
            && (route.platform != "" ==> route.platform in p.targets && route.upstream == p.targets[route.platform])
            && (route.platform == "" && "" !in p.targets ==> route.upstream == p.defaultTarget)
  {
    hide RulesForTarget, TrimSlash, Segment, WithQuery, PublicPath, StripPrefix;
  }

  lemma RulesClean(p: Proxy, platform: string)
    ensures Clean(RulesForTarget(p, platform))
  {
    hide AppendUnique, Clean;
    AppendUniqueMeans(p.accessRules, RulesOf(p.targetAccessRules, platform));
  }

  /** For a target's rules, passing the authorizer is meeting every rule. */
  lemma VerifyMeansMeets(p: Proxy, caller: Caller, platform: string)
    requires RulesForTarget(p, platform) != []
    ensures VerifyAll(p.rules, caller, RulesForTarget(p, platform)).Ok? <==> MeetsAll(p, caller, RulesForTarget(p, platform))
  {
    hide RulesForTarget, VerifyAll, Trim, Meets;
    var names := RulesForTarget(p, platform);
    RulesClean(p, platform);
    var r := VerifyAll(p.rules, caller, names);
    if r.Ok? {
      VerifyAllMeans(p.rules, caller, names, r.value);
    }
    if caller.verified.Some? {
      VerifyAllMeans(p.rules, caller, names, caller.verified.value);
    }
    assert forall i :: 0 <= i < |names| ==> Trim(names[i]) == names[i] != "";
    assert Trim(names[0]) != "";
    forall n | n in names
      ensures exists i :: 0 <= i < |names| && Trim(names[i]) == n
    {
      var i :| 0 <= i < |names| && names[i] == n;
      assert Trim(names[i]) == n;
    }
  }

  /** Main result: a request is forwarded exactly if it is not the health check, its method is
      forwarded at all, its origin is allowed, it has a route, and it is a GET for a public asset
      or its verified key meets every rule of its target. */
  lemma ForwardedExactly(p: Proxy, caller: Caller, req: Request, route: Route)
    ensures Serve(p, caller, req) == Forwarded(route) <==>
            && req.path != p.prefix + "/healthz"
            && req.method_ in {"GET", "POST", "PUT", "DELETE"}
            && OriginAllowed(p, req.origin)
            && RouteOf(p, req.escapedPath, req.query) == Some(route)
            && (|| (req.method_ == "GET" && IsPublicAsset("GET", route.forwardPath))
                || MeetsAll(p, caller, RulesForTarget(p, route.platform)))
  {
    hide RouteOf, VerifyAll, RulesForTarget, Meets, IndexOf, Lower, OriginAllowed;
    match RouteOf(p, req.escapedPath, req.query)
    case None =>
    case Some(r) =>
      RouteRules(p, req.escapedPath, req.query);
      if req.method_ in {"GET", "POST", "PUT", "DELETE"} {
        OnlyGets(req.method_, r.forwardPath);
      }
      if RulesForTarget(p, r.platform) != [] {
        VerifyMeansMeets(p, caller, r.platform);
      }
  }

  lemma OnlyGets(method_: string, forwardPath: string)
    requires method_ in {"GET", "POST", "PUT", "DELETE"}
    ensures IsPublicAsset(method_, forwardPath) <==> method_ == "GET" && IsPublicAsset("GET", forwardPath)
  {
    hide IndexOf, Lower;
  }

  // ---------- Each gate, told from the request ----------

  predicate KnownOrigin(p: Proxy, origin: string) {
    origin == "" || p.origins == {} || origin in p.origins
  }

  /** Which response a request gets: the gates are asked in this order, and each answers for
      itself. */
  lemma ResponseMeans(p: Proxy, caller: Caller, req: Request)
    ensures var r := Serve(p, caller, req);
            var health := req.path == p.prefix + "/healthz";
            var known := KnownOrigin(p, req.origin);
            var served := req.method_ == "GET" || req.method_ == "POST" || req.method_ == "PUT" || req.method_ == "DELETE";
            && (r == Health <==> health)
            && (r == OriginNotAllowed <==> !health && !known)
            && (r == Preflight <==> !health && known && req.method_ == "OPTIONS")
            && (r == MethodNotAllowed <==> !health && known && req.method_ != "OPTIONS" && !served)
            && (r == NoUpstream <==> !health && known && served && RouteOf(p, req.escapedPath, req.query) == None)
            && (r.AccessRefused? <==>
                  && !health && known && served
                  && match RouteOf(p, req.escapedPath, req.query)
                     case None => false
                     case Some(route) =>
                       && !(req.method_ == "GET" && IsPublicAsset("GET", route.forwardPath))
                       && !MeetsAll(p, caller, RulesForTarget(p, route.platform)))
  {
    hide RouteOf, VerifyAll, RulesForTarget, MeetsAll, IsPublicAsset;
    match RouteOf(p, req.escapedPath, req.query)
    case None =>
    case Some(route) =>
      RouteRules(p, req.escapedPath, req.query);
      if AllowedMethod(req.method_) && req.method_ != "OPTIONS" {
        OnlyGets(req.method_, route.forwardPath);
      }
      NoRulesMet(p, caller);
      if RulesForTarget(p, route.platform) != [] {
        VerifyMeansMeets(p, caller, route.platform);
      }
  }

  lemma NoRulesMet(p: Proxy, caller: Caller)
    ensures MeetsAll(p, caller, [])
  {}

  /** A text that starts like one of the seven picture directories. */
  predicate PicturePath(path: string) {
    "/images/" <= path || "/image/" <= path || "/thumb/" <= path || "/w/images/" <= path
    || "/w/image/" <= path || "/w/thumb/" <= path || "/static/images/" <= path
  }

  /** A forwarded path is public if its path part, in any case, starts like one of them. */
  lemma PublicAssetMeans(path: string, query: string)
    requires '?' !in path
    ensures IsPublicAsset("GET", WithQuery(path, query)) <==> PicturePath(Lower(path))
  {
    hide IndexOf;
    var full := WithQuery(path, query);
    LowerQuestion(path);
    CutQuestion(Lower(path), if query == "" then "" else "?" + Lower(query));
    if query != "" {
      LowerConcat(path + "?", query);
      LowerConcat(path, "?");
      assert Lower("?") == "?";
      assert Lower(full) == Lower(path) + ("?" + Lower(query));
    } else {
      assert Lower(path) + "" == Lower(path);
    }
    SevenAssets(Lower(path));
  }

  lemma LowerQuestion(s: string)
    ensures '?' in Lower(s) <==> '?' in s
  {
    forall i | 0 <= i < |s|
      ensures Lower(s)[i] == '?' <==> s[i] == '?'
    {}
  }

  lemma {:induction false} CutQuestion(a: string, b: string)
    requires '?' !in a && (b != "" ==> b[0] == '?')
    ensures (match IndexOf(a + b, '?') case None => a + b case Some(i) => (a + b)[..i]) == a
  {
    if a == "" {
      assert a + b == b;
    } else {
      assert (a + b)[1..] == a[1..] + b;
      CutQuestion(a[1..], b);
      assert a + b == [a[0]] + (a[1..] + b);
    }
  }

  lemma SevenAssets(path: string)
    ensures (exists i :: 0 <= i < |PUBLIC_ASSETS| && HasPrefix(path, PUBLIC_ASSETS[i])) <==> PicturePath(path)
  {
    assert PUBLIC_ASSETS[0] == "/images/" && PUBLIC_ASSETS[1] == "/image/" && PUBLIC_ASSETS[2] == "/thumb/";
    assert PUBLIC_ASSETS[3] == "/w/images/" && PUBLIC_ASSETS[4] == "/w/image/" && PUBLIC_ASSETS[5] == "/w/thumb/";
    assert PUBLIC_ASSETS[6] == "/static/images/";
  }

  // ---------- The fallback ----------

  /** A path that names no target goes to the default target, whole, if its first segment is none
      or one of the site's own directories, and nowhere otherwise. */
  lemma FallbackRoutes(p: Proxy, segment: string, rest: string, query: string)
    requires '/' !in segment && (rest == "" || rest[0] == '/') && segment !in p.targets
    ensures var inner := "/" + segment + rest;
            var own := segment in {"", "api", "assets", "images", "img", "static", "uploads"};
            RouteOf(p, p.prefix + inner, query) ==
            if own && p.defaultTarget != "" then
              Some(Route(p.defaultTarget, WithQuery(inner, query), "", if p.prefix == "" then "/" else p.prefix,
                         if p.prefix == "" then "/" else p.prefix, RulesForTarget(p, "")))
            else None
  {
    hide RulesForTarget, Segment, StripPrefix, WithQuery;
    var inner := "/" + segment + rest;
    InnerStripped(p, inner);
    assert inner[1..] == segment + rest;
    FirstSegment(segment, rest);
  }

  lemma InnerStripped(p: Proxy, inner: string)
    requires inner != "" && inner[0] == '/'
    ensures StripPrefix(p, p.prefix + inner) == Some(inner) && p.prefix + inner != ""
  {
    var path := p.prefix + inner;
    assert path[|p.prefix|..] == inner;
    assert path == (p.prefix + "/") + inner[1..];
    assert |path| > |p.prefix|;
    if p.prefix == "" {
      assert path == inner;
    }
  }

  lemma FirstSegment(segment: string, rest: string)
    requires '/' !in segment && (rest == "" || rest[0] == '/')
    ensures Segment(segment + rest) == segment
  {
    if rest == "" {
      assert segment + rest == segment;
    } else {
      SlashAfter(segment, rest[1..]);
      assert segment + rest == segment + "/" + rest[1..];
      assert (segment + rest)[..|segment|] == segment;
    }
  }

  lemma {:induction false} SlashAfter(segment: string, rest: string)
    requires '/' !in segment
    ensures IndexOf(segment + "/" + rest, '/') == Some(|segment|)
  {
    if segment != "" {
      assert (segment + "/" + rest)[1..] == segment[1..] + "/" + rest;
      SlashAfter(segment[1..], rest);
    }
  }

  /** With a prefix, nothing outside it has a route. */
  lemma OutsideHasNoRoute(p: Proxy, path: string, query: string)
    requires p.prefix != "" && path != p.prefix && !(p.prefix + "/" <= path) && path != ""
    ensures RouteOf(p, path, query) == None
  {}

  /** The bare host and the bare prefix are the root. */
  lemma RootRoutes(p: Proxy, query: string)
    ensures RouteOf(p, "", query) == RouteOf(p, "/", query)
    ensures p.prefix != "" ==> RouteOf(p, p.prefix, query) == RouteOf(p, p.prefix + "/", query)
  {
    if p.prefix != "" {
      assert (p.prefix + "/")[|p.prefix|..] == "/";
    }
  }

  /** A configured prefix becomes empty, or starts with a slash and does not end with one. */
  lemma CleanPrefixMeans(prefix: string)
    ensures var r := CleanPrefix(prefix);
            && (r != "" ==> r[0] == '/' && r[|r| - 1] != '/')
            && (r == "" <==> forall i :: 0 <= i < |prefix| ==> prefix[i] == '/')
            && (r != "" ==> TrimSlashes(prefix) == r || "/" + TrimSlashes(prefix) == r)
  {
    hide TrimSlashes;
    SlashesGone(prefix);
    var t := TrimSlashes(prefix);
    assert t != "" ==> (HasPrefix(t, "/") <==> t[0] == '/');
    if t != "" {
      assert prefix[|t| - 1] == t[|t| - 1];
    }
  }

  lemma {:induction false} SlashesGone(s: string)
    ensures var r := TrimSlashes(s);
            r <= s && (forall i :: |r| <= i < |s| ==> s[i] == '/') && (r != "" ==> r[|r| - 1] != '/')
  {
    if s != "" && s[|s| - 1] == '/' {
      SlashesGone(s[..|s| - 1]);
    }
  }
}
