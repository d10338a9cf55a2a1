/** What reaches the upstream connections and the clients, over every run. */
module Wires {
  import opened AuthEvent
  import opened Messages
  import opened Runs
  import opened Session
  import opened SessionInvariant
  import opened Store
  import opened Wrappers

  /** The frames delivered on one upstream connection. */
  function Written(trace: seq<Effect>, conn: nat): seq<Frame> {
    if trace == [] then []
    else
      var init, e := trace[..|trace| - 1], trace[|trace| - 1];
      if !e.ToClient? && e.conn == conn && e.delivered then Written(init, conn) + [e.frame] else Written(init, conn)
  }

  ghost predicate Uses(s: State, conn: nat) {
    || s.upstream == Some(conn)
    || exists i :: 0 <= i < |s.trace| && !s.trace[i].ToClient? && s.trace[i].conn == conn
  }

  /** Bootstrap connections are used once each and are not the session's upstream. */
  ghost predicate OwnConns(s: State) {
    && (forall i :: 0 <= i < |s.trace| && s.trace[i].Bootstrap? ==> s.upstream != Some(s.trace[i].conn))
    && (forall i, j :: 0 <= i < j < |s.trace| && s.trace[i].Bootstrap? && s.trace[j].Bootstrap? ==>
          s.trace[i].conn != s.trace[j].conn)
  }

  ghost predicate Below(s: State, n: nat) {
    forall c: nat :: Uses(s, c) ==> c < n
  }

  /** What one turn may do to a connection's trace and upstream. */
  datatype Change =
    | Quiet
    | Answered(reply: Reply, delivered: bool)
    | Introduced(frame: Frame, ok: bool, reply: Reply, delivered: bool)
    | Admitted(reply: Reply, delivered: bool)
    | Passed(frame: Frame, ok: bool)

  /** `s'` and the connection counter `n'` follow from `s` and `n` by `c`. */
  ghost predicate Changes(c: Change, s: State, n: nat, s': State, n': nat) {
    match c
    case Quiet => s'.trace == s.trace && s'.upstream == s.upstream && n' == n
    case Answered(r, ok) => s'.trace == s.trace + [ToClient(r, ok)] && s'.upstream == s.upstream && n' == n
    case Introduced(f, ok, r, ok') =>
      s'.trace == s.trace + [Bootstrap(n, f, ok)] + [ToClient(r, ok')] && s'.upstream == s.upstream && n' == n + 1
    case Admitted(r, ok) => s'.trace == s.trace + [ToClient(r, ok)] && s'.upstream == Some(n) && n' == n + 1
    case Passed(f, ok) =>
      s.upstream.Some? && s'.trace == s.trace + [ToUpstream(s.upstream.value, f, ok)]
      && s'.upstream == s.upstream && n' == n
  }

  lemma CompleteChange(s: State, sh: Shared, pubkey: string, eventID: string, proof: Option<Proof>, w: World)
    returns (c: Change)
    ensures var (s', sh') := Complete(s, sh, pubkey, eventID, proof, w);
            && Changes(c, s, sh.nextConn, s', sh'.nextConn)
            && s'.frames == s.frames && s'.pending.None?
            && (if w.dials then c.Admitted? && s'.pubkey == pubkey else c.Answered? && s'.pubkey == s.pubkey)
  {
    c := if w.dials then Admitted(OK(eventID, true, ""), w.client)
         else Answered(OK(eventID, false, "error: upstream unavailable"), w.client);
  }

  lemma AuthenticateChange(cfg: Config, s: State, sh: Shared, f: Frame, w: World) returns (c: Change)
    requires f.items.Some? && s.pending.None?
    ensures var (s', sh') := Authenticate(cfg, s, sh, f, w);
            && Changes(c, s, sh.nextConn, s', sh'.nextConn)
            && s'.frames == s.frames
            && (c.Quiet? <==> s'.pending.Some?)
            && (c.Quiet? || c.Answered? || c.Admitted?)
  {
    hide Verify, Lookup;
    var (s', sh') := Authenticate(cfg, s, sh, f, w);
    if |f.items.value| < 2 {
      c := CompleteChange(s, sh, "", "", None, w);
    } else if s'.pending.Some? {
      c := Quiet;
    } else {
      var event := f.items.value[1].event;
      if event.Some? && Verify(event.value, s.challenge, cfg.relayURL, cfg.maxAge, w.verifyAt).Ok? && w.cacheError.None? {
        var pubkey := Verify(event.value, s.challenge, cfg.relayURL, cfg.maxAge, w.verifyAt).value;
        c := CompleteChange(s, sh, pubkey, event.value.id,
                            Some(Proof(event.value, cfg, w.verifyAt, CacheHit(w.now))), w);
      } else {
        var e := s'.trace[|s'.trace| - 1];
        c := Answered(e.reply, e.delivered);
      }
    }
  }

  lemma IntroduceChange(s: State, sh: Shared, event: Event, f: Frame, w: World) returns (c: Change)
    ensures var (s', sh') := Introduce(s, sh, event, f, w);
            && Changes(c, s, sh.nextConn, s', sh'.nextConn)
            && s'.frames == s.frames && s'.pending == s.pending
            && (if w.dials then c.Introduced? && c.frame == f else c.Answered?)
  {
    hide WaitOK;
    var (s', sh') := Introduce(s, sh, event, f, w);
    var e := s'.trace[|s'.trace| - 1];
    c := if w.dials then Introduced(f, w.upstream, e.reply, e.delivered) else Answered(e.reply, e.delivered);
  }

  lemma ForwardChange(s: State, sh: Shared, typ: string, f: Frame, w: World) returns (c: Change)
    requires MessageType(f) == Some(typ) && s.upstream.Some?
    ensures var (s', sh') := Forward(s, sh, typ, f, w);
            && Changes(c, s, sh.nextConn, s', sh'.nextConn)
            && s'.frames == s.frames && s'.pending == s.pending
            && (if Passes(f, s.pubkey) then c == Passed(f, w.upstream) else c.Answered?)
  {
    hide RecordQuery;
    RecordKeeps(sh, s.pubkey, f, w.now);
    c := if Passes(f, s.pubkey) then Passed(f, w.upstream)
         else Answered(OK(EventID(f), false, "restricted: authenticated pubkey does not match event pubkey"), w.client);
  }

  lemma ProfileIs(f: Frame)
    ensures SignedProfile(f) <==>
            MessageType(f) == Some("EVENT") && ParseEvent(f).Some? && IsBootstrap(ParseEvent(f).value)
  {}

  /** Every frame has exactly one outcome.  Before authentication it is one reply, except that an
      AUTH frame may wait for its lookups first, and only a validated self-signed kind 0 event is
      written upstream, once, on a new connection.  After authentication it is the one forward,
      exactly when the frame is well formed and, if an EVENT, carries the session's pubkey, and
      one reply otherwise. */
  lemma FrameHasOneOutcome(cfg: Config, s: State, sh: Shared, f: Frame, w: World) returns (c: Change)
    requires Valid(s, sh.verified) && s.open && s.pending.None?
    ensures var (s', sh') := Receive(cfg, s, sh, f, w);
            && Changes(c, s, sh.nextConn, s', sh'.nextConn)
            && s'.frames == s.frames + [f]
            && (c.Quiet? <==> s'.pending.Some?)
            && (c.Passed? <==> s.pubkey != "" && Passes(f, s.pubkey))
            && (c.Introduced? <==> s.pubkey == "" && w.dials && SignedProfile(f))
            && (c.Passed? || c.Introduced? ==> c.frame == f)
            && (c.Quiet? || c.Admitted? ==>
                  s.pubkey == "" && f.items.Some? && f.items.value != [] && f.items.value[0].text == Some("AUTH"))
  {
    ProfileIs(f);
    hide Authenticate, Introduce, Forward, Refusal, IsBootstrap, SignedProfile, Proven, EventPassed, Arrived, EffectOK;
    var s1 := s.(frames := s.frames + [f]);
    var typ := MessageType(f);
    if typ.None? {
      c := Answered(Notice("invalid: malformed Nostr message"), w.client);
    } else if s.pubkey != "" {
      c := ForwardChange(s1, sh, typ.value, f, w);
    } else if typ == Some("AUTH") {
      c := AuthenticateChange(cfg, s1, sh, f, w);
    } else if typ == Some("EVENT") && ParseEvent(f).Some? && IsBootstrap(ParseEvent(f).value) {
      c := IntroduceChange(s1, sh, ParseEvent(f).value, f, w);
    } else {
      c := Answered(Refusal(typ.value, f), w.client);
    }
  }

  /** The lookups of an authentication end in exactly one reply. */
  lemma LookupHasOneOutcome(s: State, sh: Shared, w: World) returns (c: Change)
    requires s.pending.Some?
    ensures var (s', sh') := Resume(s, sh, w);
            && Changes(c, s, sh.nextConn, s', sh'.nextConn)
            && s'.frames == s.frames && s'.pending.None?
            && (c.Answered? || c.Admitted?)
            && (s'.pubkey != s.pubkey ==> c.Admitted? && w.username.Ok? && w.nip05Error.None? && w.dials)
  {
    hide Complete, Upsert;
    var (s', sh') := Resume(s, sh, w);
    var p := s.pending.value;
    if w.username.Ok? && w.nip05Error.None? && (sh.cache.None? || w.putError.None?) {
      var cache := if sh.cache.None? then None
                   else Some(Upsert(sh.cache.value, p.pubkey, w.username.value, p.start, p.start + p.cfg.ttl));
      c := CompleteChange(s, sh.(verified := sh.verified + [Verification(p.pubkey, p.start, p.cfg.ttl)], cache := cache),
                          p.pubkey, p.event.id,
                          Some(Proof(p.event, p.cfg, p.verifyAt, Fresh(p.start, p.cfg.ttl))), w);
    } else {
      var e := s'.trace[|s'.trace| - 1];
      c := Answered(e.reply, e.delivered);
    }
  }

  // ---------- Connections are never shared ----------

  lemma ChangeUses(c: Change, s: State, n: nat, s': State, n': nat)
    requires Changes(c, s, n, s', n')
    ensures forall k: nat :: Uses(s', k) ==> Uses(s, k) || (k == n && n' == n + 1)
  {
    forall k: nat | Uses(s', k) ensures Uses(s, k) || (k == n && n' == n + 1) {
      if s'.upstream != Some(k) {
        var i :| 0 <= i < |s'.trace| && !s'.trace[i].ToClient? && s'.trace[i].conn == k;
        if i < |s.trace| {
          assert s.trace[i] == s'.trace[i];
        }
      }
    }
  }

  lemma ChangeOwns(c: Change, s: State, n: nat, s': State, n': nat)
    requires Changes(c, s, n, s', n') && OwnConns(s) && Below(s, n)
    ensures OwnConns(s') && Below(s', n') && n <= n'
  {
    ChangeUses(c, s, n, s', n');
    var k := |s.trace|;
    forall i | 0 <= i < k ensures s'.trace[i] == s.trace[i] && (!s.trace[i].ToClient? ==> s.trace[i].conn < n) {
      if !s.trace[i].ToClient? {
        assert Uses(s, s.trace[i].conn);
      }
    }
    forall i | 0 <= i < |s'.trace| && s'.trace[i].Bootstrap? ensures s'.upstream != Some(s'.trace[i].conn) {
      if i >= k {
        assert c.Introduced? && s'.trace[i].conn == n;
        if s.upstream == Some(n) {
          assert Uses(s, n);
        }
      }
    }
  }

  ghost predicate Separate(sv: Server) {
    && (forall i :: 0 <= i < |sv.sessions| ==> OwnConns(sv.sessions[i]) && Below(sv.sessions[i], sv.shared.nextConn))
    && (forall i, j, c: nat :: 0 <= i < |sv.sessions| && 0 <= j < |sv.sessions| && Uses(sv.sessions[i], c) && Uses(sv.sessions[j], c) ==> i == j)
  }

  lemma ChangeSeparates(sv: Server, i: nat, c: Change, s': State, sh': Shared)
    requires Separate(sv) && i < |sv.sessions|
    requires Changes(c, sv.sessions[i], sv.shared.nextConn, s', sh'.nextConn)
    ensures Separate(sv.(sessions := sv.sessions[i := s'], shared := sh'))
  {
    hide OwnConns, Uses, Changes;
    var n := sv.shared.nextConn;
    ChangeOwns(c, sv.sessions[i], n, s', sh'.nextConn);
    ChangeUses(c, sv.sessions[i], n, s', sh'.nextConn);
  }

  lemma ClosedUses(s: State)
    ensures OwnConns(s) <==> OwnConns(s.(open := false))
    ensures forall c: nat :: Uses(s, c) <==> Uses(s.(open := false), c)
  {}

  lemma NextSeparates(sv: Server, step: Step)
    requires Safe(sv) && Separate(sv)
    ensures Separate(Next(sv, step))
  {
    hide Valid, CacheBacked, Receive, Resume, OwnConns, Uses, Changes;
    var sv' := Next(sv, step);
    match step
    case Connect(challenge, greeted) =>
      NoConns(challenge, greeted);
    case Read(i, f, w) =>
      if Reading(sv, i) {
        var c := FrameHasOneOutcome(sv.cfg, sv.sessions[i], sv.shared, f, w);
        var (s', sh') := Receive(sv.cfg, sv.sessions[i], sv.shared, f, w);
        ChangeSeparates(sv, i, c, s', sh');
      }
    case LookedUp(i, w) =>
      if LookingUp(sv, i) {
        var c := LookupHasOneOutcome(sv.sessions[i], sv.shared, w);
        var (s', sh') := Resume(sv.sessions[i], sv.shared, w);
        ChangeSeparates(sv, i, c, s', sh');
      }
    case Hangup(i) =>
      if Reading(sv, i) {
        ClosedUses(sv.sessions[i]);
      }
    case Restart(cfg) =>
      forall i | 0 <= i < |sv.sessions|
        ensures OwnConns(sv'.sessions[i])
        ensures forall c: nat :: Uses(sv'.sessions[i], c) <==> Uses(sv.sessions[i], c)
      {
        ClosedUses(sv.sessions[i]);
      }
  }

  lemma NoConns(challenge: string, greeted: bool)
    ensures OwnConns(Fresh0(challenge, greeted))
    ensures forall c: nat :: !Uses(Fresh0(challenge, greeted), c)
  {}

  lemma {:induction false} ReachableSeparates(cfg: Config, caching: bool, steps: seq<Step>)
    ensures Separate(Run(Start(cfg, caching), steps))
  {
    hide Next, Safe;
    if steps == [] {
    } else {
      ReachableSeparates(cfg, caching, steps[..|steps| - 1]);
      ReachableIsSafe(cfg, caching, steps[..|steps| - 1]);
      NextSeparates(Run(Start(cfg, caching), steps[..|steps| - 1]), steps[|steps| - 1]);
    }
  }

  // ---------- Main results ----------

  lemma {:induction false} NothingWritten(trace: seq<Effect>, conn: nat)
    requires forall i :: 0 <= i < |trace| ==> trace[i].ToClient? || trace[i].conn != conn
    ensures Written(trace, conn) == []
  {
    if trace != [] {
      NothingWritten(trace[..|trace| - 1], conn);
    }
  }

  lemma {:induction false} AllSentWritten(trace: seq<Effect>, conn: nat)
    requires forall i :: 0 <= i < |trace| ==>
               match trace[i]
               case ToClient(_, _) => true
               case ToUpstream(k, _, delivered) => k == conn && delivered
               case Bootstrap(k, _, _) => k != conn
    ensures Written(trace, conn) == Sent(trace)
  {
    if trace != [] {
      AllSentWritten(trace[..|trace| - 1], conn);
    }
  }

  ghost predicate LastFailed(s: State) {
    s.trace != [] && s.trace[|s.trace| - 1].ToUpstream? && !s.trace[|s.trace| - 1].delivered
  }

  /** On every reachable server, the frames written to a session's upstream are, in order and
      unchanged, the frames received after authentication that are well formed and, if an EVENT,
      carry the session's pubkey; only when a write failed, which ended the session, is the last
      of them missing.  No other connection writes there. */
  lemma UpstreamSeesTheFilter(cfg: Config, caching: bool, steps: seq<Step>, i: nat)
    requires i < |Run(Start(cfg, caching), steps).sessions|
    requires Run(Start(cfg, caching), steps).sessions[i].pubkey != ""
    ensures var sv := Run(Start(cfg, caching), steps); var s := sv.sessions[i];
            && s.upstream.Some? && s.authAt <= |s.frames|
            && var wanted := Forwardable(s.frames[s.authAt..], s.pubkey);
               var got := Written(s.trace, s.upstream.value);
            && (!LastFailed(s) ==> got == wanted)
            && (LastFailed(s) ==> !s.open && wanted != [] && got == wanted[..|wanted| - 1])
            && forall j :: 0 <= j < |sv.sessions| && j != i ==> Written(sv.sessions[j].trace, s.upstream.value) == []
  {
    hide Run, Start, Proven, EventPassed, Arrived, BootstrapOK, Forwardable;
    ReachableIsSafe(cfg, caching, steps);
    ReachableSeparates(cfg, caching, steps);
    var sv := Run(Start(cfg, caching), steps);
    var s := sv.sessions[i];
    assert Valid(s, sv.shared.verified);
    SessionWrites(s, sv.shared.verified);
    var conn := s.upstream.value;
    assert Uses(s, conn);
    forall j | 0 <= j < |sv.sessions| && j != i ensures Written(sv.sessions[j].trace, conn) == [] {
      assert !Uses(sv.sessions[j], conn);
      NothingWritten(sv.sessions[j].trace, conn);
    }
  }

  lemma SessionWrites(s: State, verified: seq<Verification>)
    requires Valid(s, verified) && OwnConns(s) && s.pubkey != ""
    ensures s.upstream.Some? && s.authAt <= |s.frames|
    ensures var wanted := Forwardable(s.frames[s.authAt..], s.pubkey);
            var got := Written(s.trace, s.upstream.value);
            && (!LastFailed(s) ==> got == wanted)
            && (LastFailed(s) ==> !s.open && wanted != [] && got == wanted[..|wanted| - 1])
  {
    hide Proven, EventPassed, Arrived, BootstrapOK, Forwardable;
    var conn := s.upstream.value;
    var rest := if LastFailed(s) then s.trace[..|s.trace| - 1] else s.trace;
    forall k | 0 <= k < |rest|
      ensures match rest[k]
              case ToClient(_, _) => true
              case ToUpstream(c, _, delivered) => c == conn && delivered
              case Bootstrap(c, _, _) => c != conn
    {
      assert EffectOK(s, k);
      assert rest[k] == s.trace[k];
    }
    AllSentWritten(rest, conn);
    if LastFailed(s) {
      assert EffectOK(s, |s.trace| - 1);
    }
  }

  /** Accounting over a whole run: every frame read has one reply or forward, but for one still
      waiting for its lookups; an unauthenticated session has forwarded nothing; and everything
      else written upstream is a validated bootstrap event received before authentication, alone
      on its connection. */
  lemma EveryFrameIsAccountedFor(cfg: Config, caching: bool, steps: seq<Step>, i: nat)
    requires i < |Run(Start(cfg, caching), steps).sessions|
    ensures var s := Run(Start(cfg, caching), steps).sessions[i];
            && Outcomes(s.trace) + (if s.pending.Some? then 1 else 0) == |s.frames|
            && (s.pubkey == "" ==> Sent(s.trace) == [])
            && s.authAt <= |s.frames|
            && forall k :: 0 <= k < |s.trace| && s.trace[k].Bootstrap? ==>
                 BootstrapOK(s, s.trace[k].frame) && s.upstream != Some(s.trace[k].conn)
  {
    hide Run, Start, Proven, EventPassed, Arrived, BootstrapOK;
    ReachableIsSafe(cfg, caching, steps);
    ReachableSeparates(cfg, caching, steps);
    var sv := Run(Start(cfg, caching), steps);
    var s := sv.sessions[i];
    assert Valid(s, sv.shared.verified);
    assert OwnConns(s);
    forall k | 0 <= k < |s.trace| && s.trace[k].Bootstrap?
      ensures BootstrapOK(s, s.trace[k].frame) && s.upstream != Some(s.trace[k].conn)
    {
      assert EffectOK(s, k);
    }
  }

  /** An auth event admits only connections that were sent the challenge it carries, so distinct
      challenges make it useless anywhere else. */
  lemma AuthEventIsForOneChallenge(cfg: Config, caching: bool, steps: seq<Step>, i: nat, j: nat)
    requires i < |Run(Start(cfg, caching), steps).sessions| && j < |Run(Start(cfg, caching), steps).sessions|
    requires var sv := Run(Start(cfg, caching), steps);
             && sv.sessions[i].pubkey != "" && sv.sessions[j].pubkey != ""
             && sv.sessions[i].proof.Some? && sv.sessions[j].proof.Some?
             && sv.sessions[i].proof.value.event == sv.sessions[j].proof.value.event
    ensures Run(Start(cfg, caching), steps).sessions[i].challenge == Run(Start(cfg, caching), steps).sessions[j].challenge
  {
    hide Run, Start, SameUpToSlashes, Arrived;
    PubkeyIsProven(cfg, caching, steps, i);
    PubkeyIsProven(cfg, caching, steps, j);
    var sv := Run(Start(cfg, caching), steps);
    var tags := sv.sessions[i].proof.value.event.tags;
    TagValueCarried(tags, "challenge", sv.sessions[i].challenge);
    TagValueCarried(tags, "challenge", sv.sessions[j].challenge);
  }

  // ---------- Recent queries ----------

  function NewestFirst(qs: seq<Query>): (r: seq<Query>)
    ensures |r| == |qs|
  {
    if qs == [] then [] else [qs[|qs| - 1]] + NewestFirst(qs[..|qs| - 1])
  }

  /** The admin list shows the newest 25 of all queries recorded since the start. */
  ghost predicate ShowsNewest(sh: Shared) {
    sh.recent == NewestFirst(sh.recorded)[..if |sh.recorded| < RECENT_LIMIT then |sh.recorded| else RECENT_LIMIT]
  }

  lemma RecordShowsNewest(sh: Shared, pubkey: string, f: Frame, now: Instant)
    requires ShowsNewest(sh)
    ensures ShowsNewest(RecordQuery(sh, pubkey, f, now))
  {
    var sh' := RecordQuery(sh, pubkey, f, now);
    if sh'.recorded != sh.recorded {
      var q := sh'.recorded[|sh.recorded|];
      assert sh'.recorded[..|sh.recorded|] == sh.recorded;
      assert NewestFirst(sh'.recorded) == [q] + NewestFirst(sh.recorded);
    }
  }

  lemma {:induction false} RecentAreNewest(cfg: Config, caching: bool, steps: seq<Step>)
    ensures ShowsNewest(Run(Start(cfg, caching), steps).shared)
  {
    hide ShowsNewest, RecordQuery, Verify, Lookup, Refusal, WaitOK, IsBootstrap;
    if steps == [] {
      NothingRecorded(cfg, caching);
    } else {
      var init, step := steps[..|steps| - 1], steps[|steps| - 1];
      RecentAreNewest(cfg, caching, init);
      var sv := Run(Start(cfg, caching), init);
      if step.Read? && Reading(sv, step.i) {
        RecordShowsNewest(sv.shared, sv.sessions[step.i].pubkey, step.f, step.w.now);
      }
      SameQueries(sv.shared, Next(sv, step).shared);
    }
  }

  lemma NothingRecorded(cfg: Config, caching: bool)
    ensures ShowsNewest(Start(cfg, caching).shared)
  {}

  lemma SameQueries(a: Shared, b: Shared)
    requires ShowsNewest(a)
    ensures a.recent == b.recent && a.recorded == b.recorded ==> ShowsNewest(b)
    ensures b.recent == [] && b.recorded == [] ==> ShowsNewest(b)
  {}
}
