/** Redirects: rewriting a Location header so that following it comes back through the proxy. */
module Redirects {
  import opened ConfigFile
  import opened Proxy
  import opened Text
  import opened Wrappers

  /** What URL parsing makes of a Location. */
  datatype Parsed = Malformed | Relative | Absolute(escapedPath: string, query: string)

  function Before(s: string, c: char): string {
    match IndexOf(s, c)
    case None => s
    case Some(i) => s[..i]
  }

  function Rewrite(parse: string -> Parsed, location: string, route: Route): string {
    var first := Trim(Before(location, ','));
    if route.publicBase == "" || (route.platform == "" && route.publicBase == "/") then first
    else
      match parse(first)
      case Malformed => route.publicBase + "/" + TrimSlash(first)
      case Relative => if HasPrefix(first, "/") then route.publicBase + first else route.publicBase + "/" + first
      case Absolute(path, query) => route.publicBase + WithQuery(path, query)
  }

  /** The path and query of a URL reference, its fragment dropped. */
  function PathOf(url: string): string {
    Before(Before(url, '#'), '?')
  }

  function QueryOf(url: string): string {
    var u := Before(url, '#');
    match IndexOf(u, '?')
    case None => ""
    case Some(i) => u[i + 1..]
  }

  function Follow(p: Proxy, url: string): Option<Route> {
    RouteOf(p, PathOf(url), QueryOf(url))
  }

  /** A path as a request carries it. */
  predicate PathText(path: string) {
    '?' !in path && '#' !in path
  }

  // ---------- Routing under a target's public base ----------

  function Base(p: Proxy, key: string): string {
    p.prefix + "/" + key
  }

  lemma StripBase(p: Proxy, key: string, rest: string)
    requires key != ""
    ensures StripPrefix(p, Base(p, key) + rest) == Some("/" + key + rest)
  {
    var path := Base(p, key) + rest;
    assert path == p.prefix + ("/" + key + rest);
    assert path[|p.prefix|..] == "/" + key + rest;
    assert path == (p.prefix + "/") + (key + rest);
    assert |path| > |p.prefix|;
  }

  /** A path under a target's base goes to that target with the rest of the path. */
  lemma RoutesUnderBase(p: Proxy, key: string, rest: string, query: string)
    requires key in p.targets && key != "" && '/' !in key && (rest == "" || rest[0] == '/')
    ensures RouteOf(p, Base(p, key) + rest, query) ==
            Some(Route(p.targets[key], WithQuery(if rest == "" then "/" else rest, query), key, Base(p, key), Base(p, key),
                       RulesForTarget(p, key)))
  {
    hide Segment, StripPrefix, RulesForTarget;
    StripBase(p, key, rest);
    FirstSegment(key, rest);
    BaseIsPublic(p, key);
    var path := "/" + key + rest;
    assert path[1..] == key + rest;
    assert TrimSlash(path) == key + rest;
    assert (key + rest)[|key|..] == rest;
    assert "/" + TrimSlash(rest) == if rest == "" then "/" else rest;
    assert Base(p, key) + rest != "";
  }

  lemma BaseIsPublic(p: Proxy, key: string)
    requires key != ""
    ensures PublicPath(p, "/" + key) == Base(p, key)
  {
    if p.prefix == "" {
      assert "" + "/" + key == "/" + key;
    } else {
      assert p.prefix + ("/" + key) == p.prefix + "/" + key;
    }
  }

  /** What a route to a target says about the request it came from. */
  lemma RoutedFrom(p: Proxy, path: string, query: string)
    requires PathText(path)
    ensures match RouteOf(p, path, query)
            case None => true
            case Some(route) =>
              var key := route.platform;
              key != "" ==>
                && key in p.targets && '/' !in key && PathText(key) && PathText(p.prefix)
                && route.upstream == p.targets[key] && route.publicBase == Base(p, key)
  {
    hide RulesForTarget, PublicPath, WithQuery;
    var full := if path == "" then "/" else path;
    assert PathText(full);
    match StripPrefix(p, full)
    case None =>
    case Some(inner) =>
      StrippedText(p, full);
      var trimmed := TrimSlash(inner);
      assert PathText(trimmed);
      var key := Segment(trimmed);
      NoSlash(trimmed);
      assert PathText(key);
      if key != "" {
        BaseIsPublic(p, key);
      }
  }

  lemma NoSlash(s: string)
    ensures '/' !in Segment(s)
  {}

  lemma StrippedText(p: Proxy, path: string)
    requires PathText(path) && StripPrefix(p, path).Some?
    ensures PathText(StripPrefix(p, path).value) && PathText(p.prefix)
  {
    if p.prefix != "" && path != p.prefix {
      assert forall i :: 0 <= i < |p.prefix| ==> p.prefix[i] == (p.prefix + "/")[i] == path[i];
    }
  }

  // ---------- Cutting ----------

  lemma {:induction false} BeforeConcat(a: string, b: string, c: char)
    requires c !in a
    ensures Before(a + b, c) == a + Before(b, c)
    ensures IndexOf(a + b, c) == match IndexOf(b, c) case None => None case Some(i) => Some(|a| + i)
  {
    if a == "" {
      assert a + b == b;
    } else {
      assert (a + b)[1..] == a[1..] + b;
      BeforeConcat(a[1..], b, c);
      var i := IndexOf(b, c);
      if i.Some? {
        assert (a + b)[..|a| + i.value] == a + b[..i.value];
      }
    }
  }

  lemma BeforeWhole(s: string, c: char)
    ensures |Before(s, c)| <= |s| && Before(s, c) <= s
    ensures c !in Before(s, c)
    ensures |Before(s, c)| == |s| <==> c !in s
    ensures c !in s ==> Before(s, c) == s
    ensures s != "" && s[0] != c ==> Before(s, c) != "" && Before(s, c)[0] == s[0]
  {
    hide IndexOf;
  }

  /** Path and query of a URL under a base are those of the rest. */
  lemma PartsUnderBase(base: string, rest: string)
    requires PathText(base)
    ensures PathOf(base + rest) == base + PathOf(rest)
    ensures QueryOf(base + rest) == QueryOf(rest)
  {
    hide IndexOf;
    BeforeConcat(base, rest, '#');
    var u := Before(rest, '#');
    BeforeConcat(base, u, '?');
    match IndexOf(u, '?')
    case None =>
    case Some(i) => assert (base + u)[|base| + i + 1..] == u[i + 1..];
  }

  /** Putting path and query together again loses a fragment and an empty query, nothing else. */
  lemma Reassembled(url: string)
    ensures |WithQuery(PathOf(url), QueryOf(url))| <= |url|
    ensures WithQuery(PathOf(url), QueryOf(url)) == url <==>
            '#' !in url && (url == "" || IndexOf(url, '?') != Some(|url| - 1))
    ensures WithQuery(PathOf(url), QueryOf(url)) != url ==> |WithQuery(PathOf(url), QueryOf(url))| < |url|
  {
    hide IndexOf;
    BeforeWhole(url, '#');
    var u := Before(url, '#');
    ReassembledCut(u);
  }

  lemma ReassembledCut(u: string)
    ensures var back := WithQuery(Before(u, '?'), match IndexOf(u, '?') case None => "" case Some(i) => u[i + 1..]);
            && (back == u <==> (u == "" || IndexOf(u, '?') != Some(|u| - 1)))
            && (back != u ==> |back| < |u|)
  {
    hide IndexOf;
    match IndexOf(u, '?')
    case None =>
    case Some(i) => assert u == u[..i] + "?" + u[i + 1..];
  }

  lemma TrimAtSlash(s: string)
    requires s != "" && s[0] == '/'
    ensures Trim(s) != "" && Trim(s)[0] == '/' && Trim(s) <= s
    ensures Trim(s) == s <==> !IsSpace(s[|s| - 1])
    ensures Trim(s) != s ==> |Trim(s)| < |s|
  {
    TrimRightKeepsFirst(s);
  }

  lemma {:induction false} TrimRightKeepsFirst(s: string)
    requires s != "" && !IsSpace(s[0])
    ensures TrimRight(s) != "" && TrimRight(s)[0] == s[0]
  {
    hide IsSpace;
    if IsSpace(s[|s| - 1]) {
      TrimRightKeepsFirst(s[..|s| - 1]);
    }
  }

  // ---------- Main results ----------

  /** The Locations that survive: no comma, no fragment, no trailing white space, no empty query. */
  predicate Preserved(location: string) {
    && ',' !in location
    && '#' !in location
    && (location != "" ==> !IsSpace(location[|location| - 1]) && IndexOf(location, '?') != Some(|location| - 1))
  }

  lemma FollowRest(p: Proxy, key: string, rest: string)
    requires key in p.targets && key != "" && '/' !in key && PathText(key) && PathText(p.prefix)
    requires rest != "" && rest[0] == '/'
    ensures Follow(p, Base(p, key) + rest) ==
            Some(Route(p.targets[key], WithQuery(PathOf(rest), QueryOf(rest)), key, Base(p, key), Base(p, key),
                       RulesForTarget(p, key)))
  {
    hide IndexOf, RouteOf, RulesForTarget;
    PartsUnderBase(Base(p, key), rest);
    BeforeWhole(rest, '#');
    BeforeWhole(Before(rest, '#'), '?');
    RoutesUnderBase(p, key, PathOf(rest), QueryOf(rest));
  }

  /** What is kept of a path-absolute Location. */
  function KeptPart(location: string): string {
    Trim(Before(location, ','))
  }

  lemma KeptPartMeans(location: string)
    requires location != "" && location[0] == '/'
    ensures var first := KeptPart(location);
            && first != "" && first[0] == '/' && first <= location
            && (WithQuery(PathOf(first), QueryOf(first)) == location <==> Preserved(location))
  {
    hide IndexOf, IsSpace, Trim, PathOf, QueryOf, WithQuery;
    BeforeWhole(location, ',');
    var cut := Before(location, ',');
    TrimAtSlash(cut);
    Reassembled(Trim(cut));
  }

  /** Main result: rewriting inverts routing.  For a request routed to a target, following a
      rewritten path-absolute Location leads to the same upstream, and to exactly the original
      Location there if and only if it has no comma, no fragment, no trailing white space and no
      empty query. */
  lemma RewritingInvertsRouting(p: Proxy, parse: string -> Parsed, path: string, query: string, location: string)
    requires PathText(path) && location != "" && location[0] == '/'
    requires !parse(KeptPart(location)).Absolute?
    ensures match RouteOf(p, path, query)
            case None => true
            case Some(route) =>
              var again := Follow(p, Rewrite(parse, location, route));
              route.platform != "" ==>
                && again.Some?
                && again.value.upstream == route.upstream
                && again.value.platform == route.platform
                && (again.value.forwardPath == location <==> Preserved(location))
  {
    hide IndexOf, RouteOf, Trim, Follow, IsSpace, PathOf, QueryOf, WithQuery, Preserved;
    RoutedFrom(p, path, query);
    match RouteOf(p, path, query)
    case None =>
    case Some(route) =>
      if route.platform != "" {
        var first := KeptPart(location);
        KeptPartMeans(location);
        assert first == "/" + first[1..];
        assert Base(p, route.platform) + first == Base(p, route.platform) + "/" + first[1..];
        assert Rewrite(parse, location, route) == Base(p, route.platform) + first;
        FollowRest(p, route.platform, first);
      }
  }

  /** An absolute Location, whatever its host, comes back as its own path and query. */
  lemma AbsoluteComesBack(p: Proxy, parse: string -> Parsed, path: string, query: string, location: string)
    requires PathText(path)
    requires var u := parse(KeptPart(location));
             u.Absolute? && PathText(u.escapedPath) && '#' !in u.query && (u.escapedPath == "" || u.escapedPath[0] == '/')
    ensures match RouteOf(p, path, query)
            case None => true
            case Some(route) =>
              var again := Follow(p, Rewrite(parse, location, route));
              var u := parse(KeptPart(location));
              route.platform != "" ==>
                && again.Some?
                && again.value.upstream == route.upstream
                && again.value.forwardPath == WithQuery(if u.escapedPath == "" then "/" else u.escapedPath, u.query)
  {
    hide IndexOf, RouteOf, Trim, IsSpace, PathOf, QueryOf, Before;
    RoutedFrom(p, path, query);
    match RouteOf(p, path, query)
    case None =>
    case Some(route) =>
      if route.platform != "" {
        var u := parse(KeptPart(location));
        PartsUnderBase(Base(p, route.platform), WithQuery(u.escapedPath, u.query));
        PartsOf(u.escapedPath, u.query);
        RoutesUnderBase(p, route.platform, u.escapedPath, u.query);
      }
  }

  /** A relative Location comes back under a leading slash, cut like a path-absolute one. */
  lemma RelativeComesBack(p: Proxy, parse: string -> Parsed, path: string, query: string, location: string)
    requires PathText(path) && !parse(KeptPart(location)).Absolute?
    requires KeptPart(location) == "" || KeptPart(location)[0] != '/'
    ensures match RouteOf(p, path, query)
            case None => true
            case Some(route) =>
              var again := Follow(p, Rewrite(parse, location, route));
              var slashed := "/" + KeptPart(location);
              route.platform != "" ==>
                && again.Some?
                && again.value.upstream == route.upstream
                && again.value.forwardPath == WithQuery(PathOf(slashed), QueryOf(slashed))
  {
    hide IndexOf, RouteOf, Trim, Follow, PathOf, QueryOf, WithQuery, Before;
    RoutedFrom(p, path, query);
    match RouteOf(p, path, query)
    case None =>
    case Some(route) =>
      if route.platform != "" {
        var slashed := "/" + KeptPart(location);
        assert Base(p, route.platform) + slashed == Base(p, route.platform) + "/" + KeptPart(location);
        assert TrimSlash(KeptPart(location)) == KeptPart(location);
        FollowRest(p, route.platform, slashed);
      }
  }

  /** Without a target and a prefix there is nothing to rewrite. */
  lemma FallbackKeepsLocation(parse: string -> Parsed, location: string, route: Route)
    requires route.platform == "" && route.publicBase == "/"
    ensures Rewrite(parse, location, route) == KeptPart(location)
  {}

  lemma PartsOf(path: string, query: string)
    requires PathText(path) && '#' !in query
    ensures PathOf(WithQuery(path, query)) == path && QueryOf(WithQuery(path, query)) == query
  {
    hide IndexOf;
    var url := WithQuery(path, query);
    BeforeWhole(url, '#');
    BeforeWhole(path, '?');
    if query != "" {
      BeforeConcat(path, "?" + query, '?');
      QuestionFirst(query);
      assert path + ("?" + query) == url;
      assert url[|path| + 1..] == query;
      assert url[..|path|] == path;
    }
  }

  lemma QuestionFirst(query: string)
    ensures IndexOf("?" + query, '?') == Some(0)
  {}
}
