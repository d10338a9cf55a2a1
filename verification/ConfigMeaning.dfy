/** What the entries of a configuration file do, stated field by field. */
module ConfigMeaning {
  import opened ConfigFile
  import opened ProxyGroups
  import opened Text
  import opened Wrappers

  // ---------- Texts ----------

  predicate Spaces(s: string) {
    forall i :: 0 <= i < |s| ==> IsSpace(s[i])
  }

  lemma {:induction false} TrimLeftMeans(s: string)
    ensures TrimLeft(s) == s[|s| - |TrimLeft(s)|..] && Spaces(s[..|s| - |TrimLeft(s)|])
  {
    if s != "" && IsSpace(s[0]) {
      TrimLeftMeans(s[1..]);
      var n := |s| - |TrimLeft(s)|;
      assert s[1..][n - 1..] == s[n..];
      assert s[..n] == [s[0]] + s[1..][..n - 1];
    }
  }

  lemma {:induction false} TrimRightMeans(s: string)
    ensures Spaces(s[|TrimRight(s)|..])
  {
    if s != "" && IsSpace(s[|s| - 1]) {
      var init := s[..|s| - 1];
      TrimRightMeans(init);
      assert s[|TrimRight(s)|..] == init[|TrimRight(s)|..] + [s[|s| - 1]];
    }
  }

  /** Trimming removes white space at both ends, all of it and nothing else. */
  lemma TrimMeans(s: string)
    ensures exists a, b :: s == a + Trim(s) + b && Spaces(a) && Spaces(b)
    ensures Trim(s) != "" ==> !IsSpace(Trim(s)[0]) && !IsSpace(Trim(s)[|Trim(s)| - 1])
  {
    hide IsSpace, TrimLeft, TrimRight;
    var t := TrimLeft(s);
    TrimLeftMeans(s);
    TrimRightMeans(t);
    var a, b := s[..|s| - |t|], t[|Trim(s)|..];
    assert s == a + Trim(s) + b;
  }

  /** Trailing slashes go, all of them and nothing else. */
  lemma {:induction false} TrimSlashesMeans(s: string)
    ensures var r := TrimSlashes(s);
            && r <= s && (forall i :: |r| <= i < |s| ==> s[i] == '/')
            && (r != "" ==> r[|r| - 1] != '/')
  {
    if s != "" && s[|s| - 1] == '/' {
      TrimSlashesMeans(s[..|s| - 1]);
    }
  }

  /** A configured path is empty, the root, or starts with one added or given slash and ends
      without one. */
  lemma NormalizePathMeans(value: string)
    ensures var t, r := Trim(value), NormalizePath(value);
            && (t == "" || t == "/" ==> r == t)
            && (t != "" && t != "/" ==>
                  && (r == "" || r[|r| - 1] != '/')
                  && var from := if t[0] == '/' then t else "/" + t;
                     r <= from && forall i :: |r| <= i < |from| ==> from[i] == '/')
  {
    hide Trim, TrimSlashes;
    var t := Trim(value);
    if t != "" && t != "/" {
      assert HasPrefix(t, "/") <==> t[0] == '/';
      TrimSlashesMeans(if t[0] == '/' then t else "/" + t);
    }
  }

  // ---------- Targets ----------

  /** The key of a target is its host in lower case, without one leading "www."; the main site
      has a key of its own.  A URL without a host has none. */
  lemma RouteKeyMeans(env: Env, value: string)
    ensures var u := env.parse(value);
            var host := Lower(u.hostname);
            && (!u.ok || u.host == "" ==> RouteKey(env, value) == None)
            && (u.ok && u.host != "" ==>
                  && (host == "trustroots.org" || host == "www.trustroots.org" ==> RouteKey(env, value) == Some("trustroots"))
                  && (forall rest :: host == "www." + rest && rest != "trustroots.org" ==> RouteKey(env, value) == Some(rest))
                  && (!("www." <= host) && host != "trustroots.org" ==> RouteKey(env, value) == Some(host)))
  {
    hide Lower;
    var host := Lower(env.parse(value).hostname);
    if host == "www.trustroots.org" {
      assert HasPrefix(host, "www.") && host[4..] == "trustroots.org";
    } else if host == "trustroots.org" {
      assert host[0] == 't' && !HasPrefix(host, "www.");
    }
    forall rest | host == "www." + rest
      ensures HasPrefix(host, "www.") && host[4..] == rest
    {}
  }

  /** Listing targets succeeds exactly if every one has a key, no two the same and none taken; it
      adds each URL under its key and keeps what was there. */
  lemma {:induction false} AddTargetsMeans(env: Env, targets: map<string, string>, values: seq<string>)
    ensures AddTargets(env, targets, values).Some? <==>
            && (forall i :: 0 <= i < |values| ==> RouteKey(env, values[i]).Some? && RouteKey(env, values[i]).value !in targets)
            && (forall i, j :: 0 <= i < j < |values| ==> RouteKey(env, values[i]) != RouteKey(env, values[j]))
    ensures AddTargets(env, targets, values).Some? ==>
              var t := AddTargets(env, targets, values).value;
              && (forall k :: k in targets ==> k in t && t[k] == targets[k])
              && (forall i :: 0 <= i < |values| ==>
                    RouteKey(env, values[i]).Some? && RouteKey(env, values[i]).value in t
                    && t[RouteKey(env, values[i]).value] == values[i])
              && (forall k :: k in t ==> k in targets || exists i :: 0 <= i < |values| && RouteKey(env, values[i]) == Some(k))
    decreases |values|
  {
    hide RouteKey;
    if values != [] {
      var rest := values[1..];
      assert forall i :: 0 <= i < |rest| ==> rest[i] == values[i + 1];
      match AddTarget(env, targets, values[0])
      case None =>
        assert !(RouteKey(env, values[0]).Some? && RouteKey(env, values[0]).value !in targets);
      case Some(t0) =>
        AddTargetsMeans(env, t0, rest);
        FirstAdded(env, targets, values);
        if AddTargets(env, t0, rest).Some? {
          var t := AddTargets(env, t0, rest).value;
          assert RouteKey(env, values[0]).value in t0;
          forall i | 0 <= i < |values|
            ensures RouteKey(env, values[i]).Some? && RouteKey(env, values[i]).value in t
                    && t[RouteKey(env, values[i]).value] == values[i]
          {
            if i > 0 {
              assert values[i] == rest[i - 1];
            }
          }
          forall k | k in t
            ensures k in targets || exists i :: 0 <= i < |values| && RouteKey(env, values[i]) == Some(k)
          {
            if k !in t0 {
              var i :| 0 <= i < |rest| && RouteKey(env, rest[i]) == Some(k);
              assert RouteKey(env, values[i + 1]) == Some(k);
            } else if k !in targets {
              assert RouteKey(env, values[0]) == Some(k);
            }
          }
        }
    }
  }

  /** The conditions on a list, taken apart at its first URL. */
  lemma FirstAdded(env: Env, targets: map<string, string>, values: seq<string>)
    requires values != [] && RouteKey(env, values[0]).Some? && RouteKey(env, values[0]).value !in targets
    ensures var t0 := targets[RouteKey(env, values[0]).value := values[0]];
            var rest := values[1..];
            ((forall i :: 0 <= i < |rest| ==> RouteKey(env, rest[i]).Some? && RouteKey(env, rest[i]).value !in t0)
             && (forall i, j :: 0 <= i < j < |rest| ==> RouteKey(env, rest[i]) != RouteKey(env, rest[j])))
            <==>
            ((forall i :: 0 <= i < |values| ==> RouteKey(env, values[i]).Some? && RouteKey(env, values[i]).value !in targets)
             && (forall i, j :: 0 <= i < j < |values| ==> RouteKey(env, values[i]) != RouteKey(env, values[j])))
  {
    hide RouteKey;
    var rest := values[1..];
    assert forall i :: 0 <= i < |rest| ==> rest[i] == values[i + 1];
    assert forall i :: 0 < i < |values| ==> values[i] == rest[i - 1];
  }

  // ---------- Arrays ----------

  /** Where an array goes. */
  lemma ArrayMeans(env: Env, cfg: Config, section: string, key: string, values: seq<string>)
    ensures var r := ApplyArray(env, cfg, section, key, values);
            && (section == "" && key in {"targets", "target", "proxy_targets"} ==>
                  match AddTargets(env, cfg.targets, values)
                  case None => r == None
                  case Some(t) => r == Some(cfg.(targets := t)))
            && (section == "" && key == "additional_relays" ==>
                  r == Some(cfg.(additionalRelays := cfg.additionalRelays + values)))
            && (section == "" && key !in {"targets", "target", "proxy_targets", "additional_relays"} ==> r == None)
            && (section == "admin" ==>
                  r == if key in {"pubkeys", "owner_npub"} then Some(cfg.(adminPubkeys := cfg.adminPubkeys + values)) else None)
  {
    hide AddTargets, GroupOf, WikiOf;
    PrefixFacts(section);
    if section == "admin" {
      assert SlotOf(section, key) == if key == "pubkeys" || key == "owner_npub" then Some(Admins) else None;
    }
  }

  lemma PrefixFacts(section: string)
    ensures section == "" || section == "admin" || section == "targets" ==>
              !HasPrefix(section, "proxy_group.") && !HasPrefix(section, "wiki.")
  {
    assert "wiki."[0] == 'w' && "proxy_group."[0] == 'p' && "admin"[0] == 'a' && "targets"[0] == 't';
  }

  lemma GroupArrayMeans(env: Env, cfg: Config, name: string, key: string, values: seq<string>)
    ensures var r := ApplyArray(env, cfg, "proxy_group." + name, key, values);
            var urls := if name in cfg.groups then cfg.groups[name].urls else [];
            var rules := if name in cfg.groups then cfg.groups[name].additional else [];
            && (key == "urls" ==> r == Some(cfg.(groups := cfg.groups[name := Group(urls + values, rules)])))
            && (key == "additional_access_rule" ==> r == Some(cfg.(groups := cfg.groups[name := Group(urls, rules + values)])))
            && (key != "urls" && key != "additional_access_rule" ==> r == None)
  {
    hide AddTargets;
    var section := "proxy_group." + name;
    GroupSection(name);
    assert SlotOf(section, key) ==
           (if key == "urls" then Some(GroupURLs(name))
            else if key == "additional_access_rule" then Some(GroupRules(name)) else None);
  }

  lemma GroupSection(name: string)
    ensures var section := "proxy_group." + name;
            && HasPrefix(section, "proxy_group.") && section[12..] == name && section != "" && section != "admin"
            && !HasPrefix(section, "wiki.")
  {
    var section := "proxy_group." + name;
    assert section[0] == 'p' && "admin"[0] == 'a' && "wiki."[0] == 'w';
  }

  lemma WikiSection(name: string)
    ensures var section := "wiki." + name;
            && HasPrefix(section, "wiki.") && section[5..] == name && section != "" && section != "admin" && section != "targets"
            && !HasPrefix(section, "proxy_group.")
  {
    var section := "wiki." + name;
    assert section[0] == 'w' && "admin"[0] == 'a' && "proxy_group."[0] == 'p' && "targets"[0] == 't';
  }

  // ---------- Single strings ----------

  lemma ValueMeans(env: Env, cfg: Config, section: string, key: string, value: string)
    ensures var r := ApplyValue(env, cfg, section, key, value);
            && (section == "" && key == "owner_npub" ==>
                  match env.owner(value)
                  case None => r == None
                  case Some(pubkey) => r == Some(cfg.(ownerPubkey := pubkey)))
            && (section == "" && key in {"targets", "target", "proxy_targets"} ==>
                  match AddTargets(env, cfg.targets, [value])
                  case None => r == None
                  case Some(t) => r == Some(cfg.(targets := t)))
            && (section == "" && key !in {"owner_npub", "targets", "target", "proxy_targets"} ==> r == None)
            && (section == "targets" ==> r == Some(cfg.(targets := cfg.targets[key := value])))
            && (section == "admin" ==> r == None)
  {
    hide RouteKey, ApplyWiki;
    PrefixFacts(section);
    assert |"admin"| != |"targets"|;
    OneTarget(env, cfg.targets, value);
    assert "owner_npub"[0] == 'o' && "targets"[0] == "target"[0] == 't' && "proxy_targets"[0] == 'p';
  }

  lemma OneTarget(env: Env, targets: map<string, string>, value: string)
    ensures AddTargets(env, targets, [value]) == AddTarget(env, targets, value)
  {
    assert [value][1..] == [];
  }

  predicate Separates(c: char) {
    c == ',' || c == ' ' || c == '\n' || c == '\t'
  }

  /** A token list is cut at every separator; each part counts trimmed, unless it is blank. */
  lemma {:induction false} TokensMean(field: string, part: string, rest: string)
    requires forall i :: 0 <= i < |part| ==> !Separates(part[i])
    requires rest == "" || Separates(rest[0])
    ensures var token := Trim(field + part);
            SplitTokens(part + rest, field) ==
            (if token == "" then [] else [token]) + if rest == "" then [] else SplitTokens(rest[1..], "")
    decreases |part|
  {
    hide Trim;
    if part == "" {
      assert part + rest == rest && field + part == field;
    } else {
      var s := part + rest;
      assert s[0] == part[0] && s[1..] == part[1..] + rest;
      assert field + part == (field + [part[0]]) + part[1..];
      TokensMean(field + [part[0]], part[1..], rest);
    }
  }

  /** A wiki's entry sets its own field and no other; only known keys are accepted. */
  lemma WikiValueMeans(env: Env, cfg: Config, name: string, key: string, value: string)
    ensures var r := ApplyValue(env, cfg, "wiki." + name, key, value);
            var before := WikiOf(cfg, name);
            r.Some? ==>
              && name in r.value.wikis && r.value == cfg.(wikis := cfg.wikis[name := r.value.wikis[name]])
              && var wiki := r.value.wikis[name];
              && wiki.origin == (if key == "origin" then TrimSlashes(value) else before.origin)
              && wiki.title == (if key == "label" then value else before.title)
              && wiki.summary == (if key == "summary" then value else before.summary)
              && wiki.wikiPath == (if key == "wiki_path" then NormalizePath(value) else before.wikiPath)
              && wiki.wikiAPIPath == (if key == "wiki_api_path" then NormalizePath(value) else before.wikiAPIPath)
              && wiki.wikiLoadPath == (if key == "wiki_load_path" then NormalizePath(value) else before.wikiLoadPath)
              && wiki.wikiMainPagePath == (if key == "wiki_main_page_path" then NormalizePath(value) else before.wikiMainPagePath)
              && wiki.wikiMainPageTitle == (if key == "wiki_main_page_title" then value else before.wikiMainPageTitle)
              && wiki.proxyRoute == (if key == "proxy_route" then value else before.proxyRoute)
              && wiki.status == (if key == "status" then value else before.status)
              && wiki.audience == (if key == "audience" then SplitTokens(value, "") else before.audience)
    ensures ApplyValue(env, cfg, "wiki." + name, key, value).Some? <==>
            key in {"origin", "label", "summary", "wiki_path", "wiki_api_path", "wiki_load_path", "wiki_main_page_path",
                    "wiki_main_page_title", "proxy_route", "status", "audience"}
  {
    hide SplitTokens, NormalizePath, TrimSlashes, RouteKey, WikiOf, HasPrefix, IsTargetKey;
    WikiSection(name);
  }

  // ---------- Rules ----------

  lemma {:induction false} RelaysMean(relays: seq<string>)
    ensures forall r :: r in TrimmedRelays(relays) <==> r != "" && exists i :: 0 <= i < |relays| && Trim(relays[i]) == r
    ensures FirstRelay(relays) ==
            if TrimmedRelays(relays) == [] then "wss://nip42.trustroots.org" else TrimmedRelays(relays)[0]
  {
    hide Trim;
    if relays != [] {
      RelaysMean(relays[1..]);
      forall r
        ensures r in TrimmedRelays(relays) <==> r != "" && exists i :: 0 <= i < |relays| && Trim(relays[i]) == r
      {
        if i :| 0 <= i < |relays| && Trim(relays[i]) == r {
          if i > 0 {
            assert Trim(relays[1..][i - 1]) == r;
          }
        }
        if i :| 0 <= i < |relays[1..]| && Trim(relays[1..][i]) == r {
          assert Trim(relays[i + 1]) == r;
        }
        assert Trim(relays[0]) == r ==> exists i :: 0 <= i < |relays| && Trim(relays[i]) == r;
      }
    }
  }

  /** The address a domain's NIP-05 document has. */
  function DocumentOf(host: string): string {
    if host == "trustroots.org" then "https://www.trustroots.org/.well-known/nostr.json"
    else "https://" + host + "/.well-known/nostr.json"
  }

  /** The global rule: its table has a domain and nothing else, and makes one rule, for the main
      site or for any other, checked against the domain's document and asked of the relays. */
  lemma GlobalRuleMeans(cfg: Config, domain: string)
    requires cfg.globalRule == map["nip05_domain" := domain]
    ensures var host := Trim(domain);
            var name := if Lower(host) == "trustroots.org" then "trustroots_nip05" else "global_nip05";
            var r := ApplyGlobalRule(cfg);
            && (host == "" <==> r == None)
            && GlobalRuleNames(cfg) == [name]
            && (host != "" ==>
                  && name in r.value.accessRules
                  && r.value == cfg.(accessRules := cfg.accessRules[name := r.value.accessRules[name]])
                  && var rule := r.value.accessRules[name];
                  && rule.kind == "trustroots_nip05"
                  && rule.relayURL == FirstRelay(cfg.additionalRelays)
                  && rule.relayURLs == TrimmedRelays(cfg.additionalRelays)
                  && rule.nip05BaseURL == DocumentOf(Lower(host))
                  && rule.ownerPubkey == RuleOf(cfg, name).ownerPubkey && rule.relationship == RuleOf(cfg, name).relationship
                  && rule.denied == RuleOf(cfg, name).denied)
  {
    hide Trim, Lower, FirstRelay, TrimmedRelays;
    var host := Trim(domain);
    assert "nip05_domain" in cfg.globalRule && cfg.globalRule["nip05_domain"] == domain;
    LowerTrimmed(host);
    DocumentText(host);
  }

  lemma DocumentText(host: string)
    requires Trim(Lower(host)) == Lower(host)
    ensures BaseURL(host) == DocumentOf(Lower(host))
  {
    hide Trim, Lower;
  }

  lemma LowerTrimmed(host: string)
    requires Trimmed(host)
    ensures Trim(Lower(host)) == Lower(host)
  {
    if host != "" {
      SpaceHasNoCase(host[0]);
      SpaceHasNoCase(host[|host| - 1]);
    }
    TrimTrimmed(Lower(host));
  }

  lemma SpaceHasNoCase(c: char)
    ensures IsSpace(LowerChar(c)) <==> IsSpace(c)
  {}

  /** A table with another criterion, or with none, is refused; no table makes no rule. */
  lemma GlobalRuleRefused(cfg: Config)
    ensures cfg.globalRule == map[] ==> ApplyGlobalRule(cfg) == Some(cfg) && GlobalRuleNames(cfg) == []
    ensures (exists k :: k in cfg.globalRule && k != "nip05_domain") ==> ApplyGlobalRule(cfg) == None
    ensures cfg.globalRule != map[] && "nip05_domain" !in cfg.globalRule ==> ApplyGlobalRule(cfg) == None
  {
    hide Trim, Lower;
    NothingTrims();
    if cfg.globalRule != map[] && "nip05_domain" !in cfg.globalRule {
      assert exists k :: k in cfg.globalRule;
    }
  }

  lemma NothingTrims()
    ensures Trim("") == ""
  {}

  /** The rule of groups with additional rules: the owner's follow list, asked of the relays. */
  lemma FollowRuleMeans(cfg: Config)
    ensures var rule := FollowRule(cfg);
            && rule.kind == "nostr_follow" && rule.relationship == "owner_follows_user"
            && rule.ownerPubkey == cfg.ownerPubkey
            && rule.relayURL == FirstRelay(cfg.additionalRelays)
            && rule.relayURLs == TrimmedRelays(cfg.additionalRelays)
            && rule.denied == RuleOf(cfg, "media_owner_follows").denied
  {
    hide FirstRelay, TrimmedRelays;
  }

  lemma MediaServiceMeans(value: string, service: string)
    ensures MediaService(value) == Some(service) <==>
            (value == "fips_jellyfin" && service == "jellyfin") || (value == "fips_plex" && service == "plex")
  {}
}
