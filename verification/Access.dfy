/** The access rules: who may make a request. */
module Access {
  import opened ConfigFile
  import opened ProxyGroups
  import opened Text
  import opened Wrappers

  datatype AccessError = NoRule | Denied | NotVerified | InvalidFollowRule | UnsupportedRule | CheckFailed

  /** One request as the authorizer sees it: the outcome of checking its signed HTTP event, and
      what the two verifiers say of a rule and a public key. */
  datatype Caller = Caller(
    verified: Option<string>,
    nip05: (Rule, string) -> bool,
    follows: (Rule, string) -> bool)

  function CompactNames(names: seq<string>): seq<string> {
    if names == [] then []
    else if Trim(names[0]) != "" then [Trim(names[0])] + CompactNames(names[1..])
    else CompactNames(names[1..])
  }

  method CompactRuleNames(names: seq<string>) returns (out: seq<string>)
    ensures out == CompactNames(names)
  {
    hide Trim;
    out := [];
    for i := 0 to |names|
      invariant CompactNames(names) == out + CompactNames(names[i..])
    {
      assert names[i..][1..] == names[i + 1..];
      var name := Trim(names[i]);
      if name != "" {
        assert out + ([name] + CompactNames(names[i + 1..])) == (out + [name]) + CompactNames(names[i + 1..]);
        out := out + [name];
      }
    }
  }

  function CheckRule(rules: map<string, Rule>, caller: Caller, name: string, pubkey: string): Result<(), AccessError> {
    if name !in rules then Err(NoRule)
    else
      var rule := rules[name];
      if Lower(pubkey) in rule.denied then Err(Denied)
      else if rule.kind == TRUSTROOTS_NIP05 then
        if caller.nip05(rule, pubkey) then Ok(()) else Err(CheckFailed)
      else if rule.kind == NOSTR_FOLLOW then
        if rule.relationship != "" && rule.relationship != OWNER_FOLLOWS_USER then Err(InvalidFollowRule)
        else if caller.follows(rule, pubkey) then Ok(()) else Err(CheckFailed)
      else Err(UnsupportedRule)
  }

  /** `pubkey` meets the rule `name`: the rule is defined and does not deny the key, and its own
      verifier accepts the key.  A follow rule must leave its relationship out or name the only
      one there is. */
  predicate Meets(rules: map<string, Rule>, caller: Caller, name: string, pubkey: string) {
    && name in rules
    && var rule := rules[name];
    && Lower(pubkey) !in rule.denied
    && (|| (rule.kind == "trustroots_nip05" && caller.nip05(rule, pubkey))
        || (&& rule.kind == "nostr_follow"
            && (rule.relationship == "" || rule.relationship == "owner_follows_user")
            && caller.follows(rule, pubkey)))
  }

  /** A rule is passed exactly if it is met; otherwise the first thing wrong names the error. */
  lemma CheckRuleMeans(rules: map<string, Rule>, caller: Caller, name: string, pubkey: string)
    ensures CheckRule(rules, caller, name, pubkey).Ok? <==> Meets(rules, caller, name, pubkey)
    ensures var r := CheckRule(rules, caller, name, pubkey);
            if name !in rules then r == Err(NoRule)
            else
              var rule := rules[name];
              var follow := rule.kind == "nostr_follow";
              var related := rule.relationship == "" || rule.relationship == "owner_follows_user";
              && (Lower(pubkey) in rule.denied <==> r == Err(Denied))
              && (r == Err(UnsupportedRule) <==>
                    Lower(pubkey) !in rule.denied && rule.kind != "trustroots_nip05" && !follow)
              && (r == Err(InvalidFollowRule) <==> Lower(pubkey) !in rule.denied && follow && !related)
              && (r == Err(CheckFailed) <==>
                    Lower(pubkey) !in rule.denied && !Meets(rules, caller, name, pubkey)
                    && (rule.kind == "trustroots_nip05" || (follow && related)))
  {
    hide Lower;
  }

  /** `VerifyAllRequest`: the public key that meets every rule named, or the first failure. */
  method VerifyAllRequest(rules: map<string, Rule>, caller: Caller, names: seq<string>) returns (r: Result<string, AccessError>)
    ensures r == VerifyAll(rules, caller, names)
  {
    hide CheckRule;
    var ruleNames := CompactRuleNames(names);
    if |ruleNames| == 0 {
      return Err(NoRule);
    }
    if caller.verified.None? {
      return Err(NotVerified);
    }
    var pubkey := caller.verified.value;
    for i := 0 to |ruleNames|
      invariant CheckAll(rules, caller, ruleNames, pubkey) == CheckAll(rules, caller, ruleNames[i..], pubkey)
    {
      assert ruleNames[i..][1..] == ruleNames[i + 1..];
      var checked := CheckRule(rules, caller, ruleNames[i], pubkey);
      if checked.Err? {
        return Err(checked.error);
      }
    }
    return Ok(pubkey);
  }

  function CheckAll(rules: map<string, Rule>, caller: Caller, names: seq<string>, pubkey: string): Result<string, AccessError>
    decreases |names|
  {
    if names == [] then Ok(pubkey)
    else
      match CheckRule(rules, caller, names[0], pubkey)
      case Err(e) => Err(e)
      case Ok(_) => CheckAll(rules, caller, names[1..], pubkey)
  }

  function VerifyAll(rules: map<string, Rule>, caller: Caller, names: seq<string>): Result<string, AccessError> {
    var compact := CompactNames(names);
    if compact == [] then Err(NoRule)
    else
      match caller.verified
      case None => Err(NotVerified)
      case Some(pubkey) => CheckAll(rules, caller, compact, pubkey)
  }

  lemma {:induction false} CheckAllMeans(rules: map<string, Rule>, caller: Caller, names: seq<string>, pubkey: string)
    ensures CheckAll(rules, caller, names, pubkey).Ok? <==> forall n :: n in names ==> Meets(rules, caller, n, pubkey)
    ensures CheckAll(rules, caller, names, pubkey).Ok? ==> CheckAll(rules, caller, names, pubkey).value == pubkey
    ensures CheckAll(rules, caller, names, pubkey).Err? ==>
              exists i :: 0 <= i < |names| && CheckRule(rules, caller, names[i], pubkey) == Err(CheckAll(rules, caller, names, pubkey).error)
                       && forall j :: 0 <= j < i ==> Meets(rules, caller, names[j], pubkey)
    decreases |names|
  {
    hide CheckRule, Meets;
    if names != [] {
      CheckRuleMeans(rules, caller, names[0], pubkey);
      if CheckRule(rules, caller, names[0], pubkey).Ok? {
        CheckAllMeans(rules, caller, names[1..], pubkey);
        assert forall n :: n in names <==> n == names[0] || n in names[1..];
        var r := CheckAll(rules, caller, names[1..], pubkey);
        if r.Err? {
          var i :| 0 <= i < |names[1..]| && CheckRule(rules, caller, names[1..][i], pubkey) == Err(r.error)
                   && forall j :: 0 <= j < i ==> Meets(rules, caller, names[1..][j], pubkey);
          assert names[i + 1] == names[1..][i];
          forall j | 0 <= j < i + 1
            ensures Meets(rules, caller, names[j], pubkey)
          {
            if j > 0 {
              assert names[j] == names[1..][j - 1];
            }
          }
        }
      } else {
        assert !Meets(rules, caller, names[0], pubkey);
      }
    }
  }

  lemma {:induction false} CompactMeans(names: seq<string>)
    ensures forall n :: n in CompactNames(names) <==> n != "" && exists i :: 0 <= i < |names| && Trim(names[i]) == n
  {
    hide Trim;
    if names != [] {
      CompactMeans(names[1..]);
      forall n
        ensures n in CompactNames(names) <==> n != "" && exists i :: 0 <= i < |names| && Trim(names[i]) == n
      {
        if n != "" {
          SomeTrimmed(names, n);
        }
      }
    }
  }

  lemma SomeTrimmed(names: seq<string>, n: string)
    requires names != []
    ensures (exists i :: 0 <= i < |names| && Trim(names[i]) == n) <==>
            Trim(names[0]) == n || exists i :: 0 <= i < |names[1..]| && Trim(names[1..][i]) == n
  {
    hide Trim;
    if i :| 0 <= i < |names| && Trim(names[i]) == n {
      if i > 0 {
        assert Trim(names[1..][i - 1]) == n;
      }
    }
    if i :| 0 <= i < |names[1..]| && Trim(names[1..][i]) == n {
      assert Trim(names[i + 1]) == n;
    }
  }

  /** A request passes exactly if its event verifies, some name is not blank, and the event's
      public key meets every rule named. */
  lemma VerifyAllMeans(rules: map<string, Rule>, caller: Caller, names: seq<string>, pubkey: string)
    ensures VerifyAll(rules, caller, names) == Ok(pubkey) <==>
            && caller.verified == Some(pubkey)
            && (exists i :: 0 <= i < |names| && Trim(names[i]) != "")
            && (forall i :: 0 <= i < |names| && Trim(names[i]) != "" ==> Meets(rules, caller, Trim(names[i]), pubkey))
  {
    hide Trim, CompactNames, CheckAll, Meets;
    CompactMeans(names);
    var compact := CompactNames(names);
    CheckAllMeans(rules, caller, compact, pubkey);
    if caller.verified.Some? {
      CheckAllMeans(rules, caller, compact, caller.verified.value);
    }
    forall i | 0 <= i < |names| && Trim(names[i]) != ""
      ensures Trim(names[i]) in compact
    {}
    assert compact != [] ==> compact[0] in compact;
    assert (forall n :: n in compact ==> Meets(rules, caller, n, pubkey)) <==>
           (forall i :: 0 <= i < |names| && Trim(names[i]) != "" ==> Meets(rules, caller, Trim(names[i]), pubkey));
  }

  /** Why a request is refused: no rule is named, its event does not verify, or the first rule its
      key does not meet says why. */
  lemma VerifyAllRefused(rules: map<string, Rule>, caller: Caller, names: seq<string>)
    ensures var r := VerifyAll(rules, caller, names);
            var compact := CompactNames(names);
            && ((forall i :: 0 <= i < |names| ==> Trim(names[i]) == "") ==> r == Err(NoRule))
            && ((exists i :: 0 <= i < |names| && Trim(names[i]) != "") && caller.verified.None? ==> r == Err(NotVerified))
            && (caller.verified.Some? && compact != [] && r.Err? ==>
                  exists i :: 0 <= i < |compact|
                              && CheckRule(rules, caller, compact[i], caller.verified.value) == Err(r.error)
                              && forall j :: 0 <= j < i ==> Meets(rules, caller, compact[j], caller.verified.value))
  {
    hide Trim, CompactNames, CheckAll, CheckRule, Meets;
    CompactMeans(names);
    var compact := CompactNames(names);
    assert compact != [] ==> compact[0] in compact;
    if i :| 0 <= i < |names| && Trim(names[i]) != "" {
      assert Trim(names[i]) in compact;
    }
    if caller.verified.Some? {
      CheckAllMeans(rules, caller, compact, caller.verified.value);
    }
  }
}
