/** The relay as a whole: any number of connections, interleaved in any order over one cache that
    survives restarts. */
module Runs {
  import opened AuthEvent
  import opened Messages
  import opened Session
  import opened SessionInvariant
  import opened Store
  import opened Wrappers

  datatype Step =
    | Connect(challenge: string, greeted: bool)
    | Read(i: nat, f: Frame, w: World)
    | LookedUp(i: nat, w: World)
    | Hangup(i: nat)
    | Restart(cfg: Config)

  datatype Server = Server(cfg: Config, shared: Shared, sessions: seq<State>)

  function Start(cfg: Config, caching: bool): Server {
    Server(cfg, Shared(if caching then Some(map[]) else None, 0, [], [], []), [])
  }

  /** Between frames a connection reads or hangs up; in the middle of an authentication only the
      lookups can come back.  A restart cuts it off at either point. */
  predicate Reading(sv: Server, i: nat) {
    i < |sv.sessions| && sv.sessions[i].open && sv.sessions[i].pending.None?
  }

  predicate LookingUp(sv: Server, i: nat) {
    i < |sv.sessions| && sv.sessions[i].open && sv.sessions[i].pending.Some?
  }

  function StopAll(sessions: seq<State>): (r: seq<State>)
    ensures |r| == |sessions|
    ensures forall i :: 0 <= i < |r| ==> r[i] == sessions[i].(open := false)
  {
    if sessions == [] then [] else [sessions[0].(open := false)] + StopAll(sessions[1..])
  }

  function Next(sv: Server, step: Step): Server {
    match step
    case Connect(challenge, greeted) => sv.(sessions := sv.sessions + [Fresh0(challenge, greeted)])
    case Read(i, f, w) =>
      if !Reading(sv, i) then sv
      else
        var (s, sh) := Receive(sv.cfg, sv.sessions[i], sv.shared, f, w);
        sv.(sessions := sv.sessions[i := s], shared := sh)
    case LookedUp(i, w) =>
      if !LookingUp(sv, i) then sv
      else
        var (s, sh) := Resume(sv.sessions[i], sv.shared, w);
        sv.(sessions := sv.sessions[i := s], shared := sh)
    case Hangup(i) =>
      if !Reading(sv, i) then sv
      else sv.(sessions := sv.sessions[i := sv.sessions[i].(open := false)])
    case Restart(cfg) =>
      Server(cfg, sv.shared.(recent := [], recorded := []), StopAll(sv.sessions))
  }

  function Run(sv: Server, steps: seq<Step>): Server {
    if steps == [] then sv else Next(Run(sv, steps[..|steps| - 1]), steps[|steps| - 1])
  }

  // ---------- The invariant of every reachable server ----------

  ghost predicate SafeSessions(sv: Server) {
    forall i :: 0 <= i < |sv.sessions| ==> Valid(sv.sessions[i], sv.shared.verified)
  }

  ghost predicate Safe(sv: Server) {
    SafeSessions(sv) && CacheBacked(sv.shared.cache, sv.shared.verified)
  }

  /** Connections are never taken back: same challenge, more frames, and a pubkey for good. */
  ghost predicate Continues(sv: Server, sv': Server) {
    && |sv.sessions| <= |sv'.sessions|
    && (forall i :: 0 <= i < |sv.sessions| ==> Extends(sv.sessions[i], sv'.sessions[i]))
    && sv.shared.verified <= sv'.shared.verified
  }

  lemma ClosingKeeps(s: State, verified: seq<Verification>)
    requires Valid(s, verified)
    ensures Valid(s.(open := false), verified)
  {
    hide Proven, EventPassed, BootstrapOK, Arrived;
    var s' := s.(open := false);
    forall i | 0 <= i < |s'.trace| ensures EffectOK(s', i) {
      assert EffectOK(s, i);
      BootstrapClosed(s);
    }
  }

  lemma BootstrapClosed(s: State)
    requires s.authAt <= |s.frames|
    ensures forall f :: BootstrapOK(s.(open := false), f) <==> BootstrapOK(s, f)
  {}

  lemma FreshIsValid(challenge: string, greeted: bool, verified: seq<Verification>)
    ensures Valid(Fresh0(challenge, greeted), verified)
  {}

  lemma MoreSessions(sv: Server, sv': Server, i: nat)
    requires SafeSessions(sv) && i < |sv.sessions| && |sv'.sessions| == |sv.sessions|
    requires sv'.sessions == sv.sessions[i := sv'.sessions[i]]
    requires Valid(sv'.sessions[i], sv'.shared.verified) && Extends(sv.sessions[i], sv'.sessions[i])
    requires sv'.shared.verified == sv.shared.verified
          || exists v :: sv'.shared.verified == sv.shared.verified + [v]
    ensures SafeSessions(sv') && Continues(sv, sv')
  {
    hide Valid;
    forall j | 0 <= j < |sv'.sessions| ensures Valid(sv'.sessions[j], sv'.shared.verified) {
      if j != i && sv'.shared.verified != sv.shared.verified {
        var v :| sv'.shared.verified == sv.shared.verified + [v];
        MoreVerified(sv.sessions[j], sv.shared.verified, v);
      }
    }
  }

  lemma NextIsSafe(sv: Server, step: Step)
    requires Safe(sv)
    ensures Safe(Next(sv, step)) && Continues(sv, Next(sv, step))
  {
    hide Valid, Extends, CacheBacked, Receive, Resume;
    SelfExtends();
    var sv' := Next(sv, step);
    match step
    case Connect(challenge, greeted) =>
      FreshIsValid(challenge, greeted, sv.shared.verified);
    case Read(i, f, w) =>
      if Reading(sv, i) {
        ReceiveKeeps(sv.cfg, sv.sessions[i], sv.shared, f, w);
        MoreSessions(sv, sv', i);
      }
    case LookedUp(i, w) =>
      if LookingUp(sv, i) {
        ResumeKeeps(sv.sessions[i], sv.shared, w);
        MoreSessions(sv, sv', i);
      }
    case Hangup(i) =>
      if Reading(sv, i) {
        ClosingKeeps(sv.sessions[i], sv.shared.verified);
        MoreSessions(sv, sv', i);
      }
    case Restart(cfg) =>
      forall i | 0 <= i < |sv.sessions| ensures Valid(sv'.sessions[i], sv'.shared.verified) {
        ClosingKeeps(sv.sessions[i], sv.shared.verified);
      }
  }

  lemma SelfExtends()
    ensures forall s: State, t: State :: t == s || t == s.(open := false) ==> Extends(s, t)
  {}

  lemma {:induction false} RunIsSafe(sv: Server, steps: seq<Step>)
    requires Safe(sv)
    ensures Safe(Run(sv, steps)) && Continues(sv, Run(sv, steps))
  {
    hide Safe, Extends, Next;
    if steps == [] {
      SelfExtends();
    } else {
      RunIsSafe(sv, steps[..|steps| - 1]);
      NextIsSafe(Run(sv, steps[..|steps| - 1]), steps[|steps| - 1]);
      ContinuesTransitive(sv, Run(sv, steps[..|steps| - 1]), Run(sv, steps));
    }
  }

  lemma ContinuesTransitive(a: Server, b: Server, c: Server)
    requires Continues(a, b) && Continues(b, c)
    ensures Continues(a, c)
  {
    forall i | 0 <= i < |a.sessions| ensures Extends(a.sessions[i], c.sessions[i]) {
      assert Extends(a.sessions[i], b.sessions[i]) && Extends(b.sessions[i], c.sessions[i]);
    }
  }

  lemma StartIsSafe(cfg: Config, caching: bool)
    ensures Safe(Start(cfg, caching))
  {}

  lemma ReachableIsSafe(cfg: Config, caching: bool, steps: seq<Step>)
    ensures Safe(Run(Start(cfg, caching), steps))
  {
    hide Safe, Start;
    StartIsSafe(cfg, caching);
    RunIsSafe(Start(cfg, caching), steps);
  }

  lemma {:induction false} RunConcat(sv: Server, a: seq<Step>, b: seq<Step>)
    ensures Run(sv, a + b) == Run(Run(sv, a), b)
  {
    hide Next;
    if b == [] {
      assert a + b == a;
    } else {
      RunConcat(sv, a, b[..|b| - 1]);
      assert (a + b)[..|a + b| - 1] == a + b[..|b| - 1];
    }
  }

  // ---------- Main results ----------

  /** In every reachable state a nonempty pubkey has an upstream and a proof: an event that
      arrived on this connection proves it for this connection's own challenge, and then either a
      cache row answered at a time inside the lifetime of an earlier verification of this pubkey,
      or that verification was this connection's own. */
  lemma PubkeyIsProven(cfg: Config, caching: bool, steps: seq<Step>, i: nat)
    requires i < |Run(Start(cfg, caching), steps).sessions|
    requires Run(Start(cfg, caching), steps).sessions[i].pubkey != ""
    ensures var sv := Run(Start(cfg, caching), steps); var s := sv.sessions[i];
            && s.upstream.Some? && s.proof.Some?
            && var proof := s.proof.value;
            && Arrived(s.frames, proof.event)
            && Proves(proof.event, s.challenge, proof.cfg.relayURL, proof.cfg.maxAge, proof.verifyAt, s.pubkey)
            && match proof.via
               case CacheHit(now) =>
                 exists v :: v in sv.shared.verified && v.pubkey == s.pubkey && now < v.start + v.ttl
               case Fresh(start, ttl) => Verification(s.pubkey, start, ttl) in sv.shared.verified
  {
    hide Verify, Run, Proves, Arrived;
    ReachableIsSafe(cfg, caching, steps);
    var sv := Run(Start(cfg, caching), steps);
    assert Valid(sv.sessions[i], sv.shared.verified);
  }

  /** A nonempty pubkey, its upstream and its proof never change again. */
  lemma PubkeyIsForGood(cfg: Config, caching: bool, steps: seq<Step>, more: seq<Step>, i: nat)
    requires i < |Run(Start(cfg, caching), steps).sessions|
    ensures var s := Run(Start(cfg, caching), steps).sessions[i];
            var sv' := Run(Start(cfg, caching), steps + more);
            && i < |sv'.sessions| && s.frames <= sv'.sessions[i].frames
            && (s.pubkey != "" ==>
                  && sv'.sessions[i].pubkey == s.pubkey
                  && sv'.sessions[i].upstream == s.upstream && sv'.sessions[i].proof == s.proof)
  {
    hide Run, Safe, Start;
    ReachableIsSafe(cfg, caching, steps);
    RunConcat(Start(cfg, caching), steps, more);
    var sv := Run(Start(cfg, caching), steps);
    RunIsSafe(sv, more);
    assert Extends(sv.sessions[i], Run(sv, more).sessions[i]);
  }

  /** Step `k` completes a verification: both lookups of a pending authentication succeed, and
      the event of that authentication arrived there and proves its pubkey. */
  ghost predicate Completes(cfg: Config, caching: bool, steps: seq<Step>, k: nat, v: Verification) {
    && k < |steps| && steps[k].LookedUp?
    && var sv := Run(Start(cfg, caching), steps[..k]);
    && LookingUp(sv, steps[k].i)
    && steps[k].w.username.Ok? && steps[k].w.nip05Error.None?
    && var p := sv.sessions[steps[k].i].pending.value;
    && v == Verification(p.pubkey, p.start, p.cfg.ttl)
    && Arrived(sv.sessions[steps[k].i].frames, p.event)
    && EventPassed(sv.sessions[steps[k].i].challenge, p.event, p.cfg, p.verifyAt, p.pubkey)
  }

  lemma NextVerified(sv: Server, step: Step)
    requires Safe(sv)
    ensures Next(sv, step).shared.verified ==
            if step.LookedUp? && LookingUp(sv, step.i) && step.w.username.Ok? && step.w.nip05Error.None?
            then var p := sv.sessions[step.i].pending.value;
                 sv.shared.verified + [Verification(p.pubkey, p.start, p.cfg.ttl)]
            else sv.shared.verified
  {
    hide Valid, CacheBacked, Receive, Resume;
    match step
    case Read(i, f, w) => if Reading(sv, i) { ReceiveKeeps(sv.cfg, sv.sessions[i], sv.shared, f, w); }
    case LookedUp(i, w) => if LookingUp(sv, i) { ResumeKeeps(sv.sessions[i], sv.shared, w); }
    case _ =>
  }

  lemma {:induction false} VerifiedWasCompleted(cfg: Config, caching: bool, steps: seq<Step>, v: Verification)
    requires v in Run(Start(cfg, caching), steps).shared.verified
    ensures exists k :: 0 <= k < |steps| && Completes(cfg, caching, steps, k, v)
  {
    hide Next, Safe, Completes;
    if steps != [] {
      var init, step := steps[..|steps| - 1], steps[|steps| - 1];
      var sv := Run(Start(cfg, caching), init);
      ReachableIsSafe(cfg, caching, init);
      NextVerified(sv, step);
      if v in sv.shared.verified {
        VerifiedWasCompleted(cfg, caching, init, v);
        var k :| 0 <= k < |init| && Completes(cfg, caching, init, k, v);
        CompletesLonger(cfg, caching, steps, k, v);
      } else {
        LastCompletes(cfg, caching, steps, v);
      }
    }
  }

  lemma CompletesLonger(cfg: Config, caching: bool, steps: seq<Step>, k: nat, v: Verification)
    requires k < |steps| - 1 && Completes(cfg, caching, steps[..|steps| - 1], k, v)
    ensures Completes(cfg, caching, steps, k, v)
  {
    hide Run;
    assert steps[..|steps| - 1][..k] == steps[..k];
  }

  lemma LastCompletes(cfg: Config, caching: bool, steps: seq<Step>, v: Verification)
    requires steps != []
    requires var sv := Run(Start(cfg, caching), steps[..|steps| - 1]); var step := steps[|steps| - 1];
             && step.LookedUp? && LookingUp(sv, step.i) && step.w.username.Ok? && step.w.nip05Error.None?
             && var p := sv.sessions[step.i].pending.value; v == Verification(p.pubkey, p.start, p.cfg.ttl)
    ensures Completes(cfg, caching, steps, |steps| - 1, v)
  {
    hide Run, Verify;
    ReachableIsSafe(cfg, caching, steps[..|steps| - 1]);
    var sv := Run(Start(cfg, caching), steps[..|steps| - 1]);
    assert Valid(sv.sessions[steps[|steps| - 1].i], sv.shared.verified);
  }

  /** Over every interleaving and across restarts, a cache hit for a pubkey at `now` implies an
      earlier step that completed the username and NIP-05 verification of that pubkey, started
      at a time t with now < t + TTL, although both times are truncated to whole seconds. */
  lemma HitWasVerified(cfg: Config, caching: bool, steps: seq<Step>, pubkey: string, now: Instant)
    requires Run(Start(cfg, caching), steps).shared.cache.Some?
    requires Lookup(Run(Start(cfg, caching), steps).shared.cache.value, pubkey, now).Some?
    ensures exists k, v :: 0 <= k < |steps| && Completes(cfg, caching, steps, k, v)
              && v.pubkey == pubkey && now < v.start + v.ttl
  {
    hide Run, Completes, Lookup, Unix;
    ReachableIsSafe(cfg, caching, steps);
    var sv := Run(Start(cfg, caching), steps);
    HitIsVerified(sv.shared.cache, sv.shared.verified, pubkey, now);
    var v :| v in sv.shared.verified && v.pubkey == pubkey && now < v.start + v.ttl;
    VerifiedWasCompleted(cfg, caching, steps, v);
  }
}
