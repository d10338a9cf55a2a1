/** What every turn of a connection keeps. */
module SessionInvariant {
  import opened AuthEvent
  import opened Messages
  import opened Session
  import opened Store
  import opened Wrappers

  // ---------- Projections of a trace ----------

  /** The frames a connection tried to write to its upstream. */
  function Sent(trace: seq<Effect>): seq<Frame> {
    if trace == [] then []
    else
      var init, e := trace[..|trace| - 1], trace[|trace| - 1];
      if e.ToUpstream? then Sent(init) + [e.frame] else Sent(init)
  }

  /** How many replies and forwards the trace holds. */
  function Outcomes(trace: seq<Effect>): nat {
    if trace == [] then 0
    else
      var init, e := trace[..|trace| - 1], trace[|trace| - 1];
      Outcomes(init) + if e.Bootstrap? then 0 else 1
  }

  /** A frame an authenticated connection passes on: an array that starts with a text, and if
      that is EVENT, its second element carries the connection's pubkey. */
  predicate Passes(f: Frame, pubkey: string) {
    && f.items.Some? && f.items.value != [] && f.items.value[0].text.Some?
    && (f.items.value[0].text == Some("EVENT") ==> |f.items.value| >= 2 && f.items.value[1].pubkey == Some(pubkey))
  }

  function Forwardable(frames: seq<Frame>, pubkey: string): seq<Frame> {
    if frames == [] then []
    else
      var init, f := frames[..|frames| - 1], frames[|frames| - 1];
      if Passes(f, pubkey) then Forwardable(init, pubkey) + [f] else Forwardable(init, pubkey)
  }

  lemma TraceSnoc(trace: seq<Effect>, e: Effect)
    ensures Sent(trace + [e]) == if e.ToUpstream? then Sent(trace) + [e.frame] else Sent(trace)
    ensures Outcomes(trace + [e]) == Outcomes(trace) + if e.Bootstrap? then 0 else 1
  {
    assert (trace + [e])[..|trace|] == trace;
  }

  lemma ForwardableSnoc(frames: seq<Frame>, f: Frame, pubkey: string)
    ensures Forwardable(frames + [f], pubkey)
         == if Passes(f, pubkey) then Forwardable(frames, pubkey) + [f] else Forwardable(frames, pubkey)
  {
    assert (frames + [f])[..|frames|] == frames;
  }

  // ---------- The invariant ----------

  /** The auth event proves the pubkey for this connection's own challenge. */
  ghost predicate EventPassed(challenge: string, event: Event, cfg: Config, verifyAt: Instant, pubkey: string) {
    Proves(event, challenge, cfg.relayURL, cfg.maxAge, verifyAt, pubkey)
  }

  ghost predicate ViaHolds(via: Via, pubkey: string, verified: seq<Verification>) {
    match via
    case CacheHit(now) => exists v :: v in verified && v.pubkey == pubkey && now < v.start + v.ttl
    case Fresh(start, ttl) => Verification(pubkey, start, ttl) in verified
  }

  ghost predicate Proven(challenge: string, pubkey: string, proof: Option<Proof>, verified: seq<Verification>) {
    && proof.Some?
    && EventPassed(challenge, proof.value.event, proof.value.cfg, proof.value.verifyAt, pubkey)
    && ViaHolds(proof.value.via, pubkey, verified)
  }

  /** An EVENT frame with a kind 0 event whose pubkey is hex, whose id is its own and whose
      signature is good. */
  predicate SignedProfile(f: Frame) {
    && f.items.Some? && |f.items.value| >= 2 && f.items.value[0].text == Some("EVENT")
    && f.items.value[1].event.Some?
    && var e := f.items.value[1].event.value;
       e.kind == 0 && e.checks.pubkeyIsHex && e.checks.idMatches && e.checks.signature
  }

  /** An AUTH frame with this event is among the frames. */
  ghost predicate Arrived(frames: seq<Frame>, event: Event) {
    exists f :: f in frames && f.items.Some? && |f.items.value| >= 2
                && f.items.value[0].text == Some("AUTH") && f.items.value[1].event == Some(event)
  }

  lemma ArrivedMore(frames: seq<Frame>, f: Frame, event: Event)
    requires Arrived(frames, event)
    ensures Arrived(frames + [f], event)
  {
    var g :| g in frames && g.items.Some? && |g.items.value| >= 2
             && g.items.value[0].text == Some("AUTH") && g.items.value[1].event == Some(event);
    assert g in frames + [f];
  }

  /** Only a validated self-signed kind 0 EVENT goes upstream on a connection of its own, and it
      was received before authentication. */
  ghost predicate BootstrapOK(s: State, f: Frame)
    requires s.authAt <= |s.frames|
  {
    && SignedProfile(f)
    && f in if s.pubkey == "" then s.frames else s.frames[..s.authAt]
  }

  ghost predicate EffectOK(s: State, i: nat)
    requires i < |s.trace| && s.authAt <= |s.frames|
  {
    match s.trace[i]
    case ToClient(_, delivered) => !delivered ==> !s.open && i == |s.trace| - 1
    case ToUpstream(conn, _, delivered) =>
      s.pubkey != "" && s.upstream == Some(conn) && (!delivered ==> !s.open && i == |s.trace| - 1)
    case Bootstrap(_, f, _) => BootstrapOK(s, f)
  }

  ghost predicate Valid(s: State, verified: seq<Verification>) {
    && s.authAt <= |s.frames|
    && (s.pending.Some? ==>
          && s.pubkey == "" && Arrived(s.frames, s.pending.value.event)
          && EventPassed(s.challenge, s.pending.value.event, s.pending.value.cfg, s.pending.value.verifyAt, s.pending.value.pubkey))
    && (s.pubkey == "" ==> Sent(s.trace) == [])
    && (s.pubkey != "" ==>
          && s.upstream.Some? && Proven(s.challenge, s.pubkey, s.proof, verified)
          && s.proof.Some? && Arrived(s.frames, s.proof.value.event)
          && Sent(s.trace) == Forwardable(s.frames[s.authAt..], s.pubkey))
    && Outcomes(s.trace) + (if s.pending.Some? then 1 else 0) == |s.frames|
    && forall i :: 0 <= i < |s.trace| ==> EffectOK(s, i)
  }

  /** Every cached row comes from a completed verification. */
  ghost predicate CacheBacked(cache: Option<Table>, verified: seq<Verification>) {
    cache.Some? ==>
      forall p :: p in cache.value ==>
        exists v :: v in verified && v.pubkey == p && cache.value[p].expiresAt == Unix(v.start + v.ttl)
  }

  /** What a turn may not take back. */
  ghost predicate Extends(s: State, s': State) {
    && s'.challenge == s.challenge
    && s.frames <= s'.frames
    && (s.pubkey != "" ==>
          s'.pubkey == s.pubkey && s'.upstream == s.upstream && s'.proof == s.proof && s'.authAt == s.authAt)
  }

  lemma HitIsVerified(cache: Option<Table>, verified: seq<Verification>, pubkey: string, now: Instant)
    requires CacheBacked(cache, verified) && cache.Some? && Lookup(cache.value, pubkey, now).Some?
    ensures ViaHolds(CacheHit(now), pubkey, verified)
  {
    var v :| v in verified && v.pubkey == pubkey && cache.value[pubkey].expiresAt == Unix(v.start + v.ttl);
    TruncatedExpiry(v.start + v.ttl, now);
  }

  // ---------- Building blocks ----------

  /** A state in the middle of a turn: the frame is received, its outcome not yet in the trace. */
  ghost predicate Midway(s: State, verified: seq<Verification>) {
    s.open && s.pending.None? && |s.frames| > 0
    && s.authAt <= |s.frames|
    && (s.pubkey == "" ==> Sent(s.trace) == [])
    && (s.pubkey != "" ==>
          && s.upstream.Some? && Proven(s.challenge, s.pubkey, s.proof, verified)
          && s.proof.Some? && Arrived(s.frames, s.proof.value.event)
          && Sent(s.trace) == Forwardable(s.frames[s.authAt..], s.pubkey))
    && Outcomes(s.trace) + 1 == |s.frames|
    && forall i :: 0 <= i < |s.trace| ==> EffectOK(s, i)
  }

  lemma EffectsKept(s: State, s': State)
    requires s.open && s.authAt == s'.authAt && s.authAt <= |s.frames|
    requires forall i :: 0 <= i < |s.trace| ==> EffectOK(s, i)
    requires s.trace <= s'.trace && s.frames <= s'.frames
    requires s'.pubkey == s.pubkey && s'.upstream == s.upstream
    ensures forall i :: 0 <= i < |s.trace| ==> EffectOK(s', i)
  {
    hide SignedProfile;
    forall i | 0 <= i < |s.trace| ensures EffectOK(s', i) {
      assert EffectOK(s, i);
      assert s'.trace[i] == s.trace[i];
      assert s'.frames[..s.authAt] == s.frames[..s.authAt];
    }
  }

  lemma SayKeeps(s: State, verified: seq<Verification>, r: Reply, w: World)
    requires Midway(s, verified)
    ensures Valid(Say(s, r, w), verified)
  {
    hide Verify, Proven, EventPassed, ViaHolds, Arrived;
    TraceSnoc(s.trace, ToClient(r, w.client));
    EffectsKept(s, Say(s, r, w));
  }

  /** Receiving a frame on an unauthenticated connection. */
  lemma ReceivedUnauthenticated(s: State, verified: seq<Verification>, f: Frame)
    requires Valid(s, verified) && s.open && s.pending.None? && s.pubkey == ""
    ensures Midway(s.(frames := s.frames + [f]), verified)
  {
    EffectsKept(s, s.(frames := s.frames + [f]));
  }

  lemma CompleteKeeps(s: State, sh: Shared, pubkey: string, eventID: string, proof: Option<Proof>, w: World)
    requires Midway(s, sh.verified) && s.pubkey == ""
    requires pubkey != "" ==>
               Proven(s.challenge, pubkey, proof, sh.verified) && proof.Some? && Arrived(s.frames, proof.value.event)
    ensures Valid(Complete(s, sh, pubkey, eventID, proof, w).0, sh.verified)
    ensures Extends(s, Complete(s, sh, pubkey, eventID, proof, w).0)
    ensures Complete(s, sh, pubkey, eventID, proof, w).1.(nextConn := sh.nextConn) == sh
  {
    hide Verify, Proven, EventPassed, ViaHolds, Arrived, Outcomes, Sent, Forwardable, BootstrapOK;
    NothingForwardable(pubkey);
    if !w.dials {
      SayKeeps(s, sh.verified, OK(eventID, false, "error: upstream unavailable"), w);
    } else {
      var s1 := s.(upstream := Some(sh.nextConn), pubkey := pubkey, authAt := |s.frames|, proof := proof);
      assert s1.frames[s1.authAt..] == [];
      assert s.frames[..|s.frames|] == s.frames;
      forall i | 0 <= i < |s1.trace| ensures EffectOK(s1, i) {
        assert EffectOK(s, i);
        BootstrapsKept(s, s1);
      }
      SayKeeps(s1, sh.verified, OK(eventID, true, ""), w);
    }
  }

  lemma NothingForwardable(pubkey: string)
    ensures Forwardable([], pubkey) == []
  {}

  /** Admitting a session changes nothing about what was received before. */
  lemma BootstrapsKept(s: State, s1: State)
    requires s.pubkey == "" && s1.frames == s.frames && s.authAt <= |s.frames|
    requires s1.authAt == |s.frames|
    ensures forall f :: BootstrapOK(s, f) ==> BootstrapOK(s1, f)
  {
    hide SignedProfile;
    assert s.frames[..|s.frames|] == s.frames;
  }

  lemma AuthenticateKeeps(cfg: Config, s: State, sh: Shared, f: Frame, w: World)
    requires Midway(s, sh.verified) && s.pubkey == "" && CacheBacked(sh.cache, sh.verified)
    requires MessageType(f) == Some("AUTH") && f in s.frames
    ensures Valid(Authenticate(cfg, s, sh, f, w).0, sh.verified)
    ensures Extends(s, Authenticate(cfg, s, sh, f, w).0)
    ensures Authenticate(cfg, s, sh, f, w).1.(nextConn := sh.nextConn) == sh
  {
    hide Verify, ViaHolds, Lookup, CacheBacked, Complete, Proves, Arrived;
    if |f.items.value| < 2 {
      CompleteKeeps(s, sh, "", "", None, w);
    } else if f.items.value[1].event.None? {
      SayKeeps(s, sh.verified, OK("", false, "restricted: " + w.decodeError), w);
    } else {
      var event := f.items.value[1].event.value;
      ArrivedNow(s.frames, f);
      var checked := Verify(event, s.challenge, cfg.relayURL, cfg.maxAge, w.verifyAt);
      if checked.Err? {
        SayKeeps(s, sh.verified, OK(event.id, false, "restricted: " + checked.error), w);
      } else {
        var pubkey := checked.value;
        VerifyMeans(event, s.challenge, cfg.relayURL, cfg.maxAge, w.verifyAt, pubkey);
        if sh.cache.Some? && w.cacheError.Some? {
          SayKeeps(s, sh.verified, OK(event.id, false, "restricted: " + w.cacheError.value), w);
        } else if sh.cache.Some? && Lookup(sh.cache.value, pubkey, w.now).Some? {
          HitIsVerified(sh.cache, sh.verified, pubkey, w.now);
          CompleteKeeps(s, sh, pubkey, event.id, Some(Proof(event, cfg, w.verifyAt, CacheHit(w.now))), w);
        } else {
          EffectsKept(s, Authenticate(cfg, s, sh, f, w).0);
        }
      }
    }
  }

  lemma ArrivedNow(frames: seq<Frame>, f: Frame)
    requires f in frames && MessageType(f) == Some("AUTH") && |f.items.value| >= 2 && f.items.value[1].event.Some?
    ensures Arrived(frames, f.items.value[1].event.value)
  {}

  lemma BootstrapKeeps(s: State, verified: seq<Verification>, e: Effect)
    requires Midway(s, verified) && s.pubkey == "" && e.Bootstrap? && BootstrapOK(s, e.frame)
    ensures Midway(s.(trace := s.trace + [e]), verified)
  {
    hide Verify, Proven, EventPassed, ViaHolds, Arrived, SignedProfile;
    TraceSnoc(s.trace, e);
    EffectsKept(s, s.(trace := s.trace + [e]));
  }

  lemma UnauthenticatedKeeps(s: State, sh: Shared, typ: string, f: Frame, w: World)
    requires Midway(s, sh.verified) && s.pubkey == "" && MessageType(f) == Some(typ)
    requires s.frames[|s.frames| - 1] == f
    ensures Valid(Unauthenticated(s, sh, typ, f, w).0, sh.verified)
    ensures Extends(s, Unauthenticated(s, sh, typ, f, w).0)
    ensures Unauthenticated(s, sh, typ, f, w).1.(nextConn := sh.nextConn) == sh
  {
    hide Verify, Proven, EventPassed, ViaHolds, Arrived, WaitOK, Valid, Midway, Refusal, BootstrapOK, IsBootstrap;
    MidwayFacts(s, sh.verified);
    var event := ParseEvent(f);
    if typ == "EVENT" && event.Some? && IsBootstrap(event.value) {
      var e := Bootstrap(sh.nextConn, f, w.upstream);
      assert BootstrapOK(s, f) by { BootstrapReceived(s, f); }
      BootstrapKeeps(s, sh.verified, e);
      var s' := Unauthenticated(s, sh, typ, f, w).0;
      var reply := s'.trace[|s'.trace| - 1].reply;
      SayKeeps(if w.dials then s.(trace := s.trace + [e]) else s, sh.verified, reply, w);
    } else {
      SayKeeps(s, sh.verified, Refusal(typ, f), w);
    }
  }

  lemma BootstrapReceived(s: State, f: Frame)
    requires s.pubkey == "" && |s.frames| > 0 && s.frames[|s.frames| - 1] == f && s.authAt <= |s.frames|
    requires MessageType(f) == Some("EVENT") && ParseEvent(f).Some? && IsBootstrap(ParseEvent(f).value)
    ensures BootstrapOK(s, f)
  {}

  lemma MidwayFacts(s: State, verified: seq<Verification>)
    requires Midway(s, verified)
    ensures s.authAt <= |s.frames| && |s.frames| > 0
  {}

  lemma RecordKeeps(sh: Shared, pubkey: string, f: Frame, now: Instant)
    ensures RecordQuery(sh, pubkey, f, now).(recent := sh.recent, recorded := sh.recorded) == sh
  {}

  /** A frame that is not passed on is answered. */
  lemma AnsweredKeeps(s: State, verified: seq<Verification>, f: Frame, r: Reply, w: World)
    requires Valid(s, verified) && s.open && s.pending.None? && s.pubkey != "" && !Passes(f, s.pubkey)
    ensures Valid(Say(s.(frames := s.frames + [f]), r, w), verified)
  {
    hide Verify, Proven, EventPassed, ViaHolds, Arrived, SignedProfile;
    ArrivedMore(s.frames, f, s.proof.value.event);
    var s1 := s.(frames := s.frames + [f]);
    assert s1.frames[s.authAt..] == s.frames[s.authAt..] + [f];
    ForwardableSnoc(s.frames[s.authAt..], f, s.pubkey);
    EffectsKept(s, s1);
    SayKeeps(s1, verified, r, w);
  }

  /** A frame that is passed on is written to the upstream. */
  lemma PassedKeeps(s: State, verified: seq<Verification>, f: Frame, delivered: bool)
    requires Valid(s, verified) && s.open && s.pending.None? && s.pubkey != "" && Passes(f, s.pubkey)
    ensures s.upstream.Some?
    ensures Valid(s.(frames := s.frames + [f], trace := s.trace + [ToUpstream(s.upstream.value, f, delivered)],
                     open := delivered), verified)
  {
    hide Verify, Proven, EventPassed, ViaHolds, Arrived, SignedProfile, Outcomes, Sent, Forwardable, Passes;
    ArrivedMore(s.frames, f, s.proof.value.event);
    var e := ToUpstream(s.upstream.value, f, delivered);
    TraceSnoc(s.trace, e);
    assert (s.frames + [f])[s.authAt..] == s.frames[s.authAt..] + [f];
    ForwardableSnoc(s.frames[s.authAt..], f, s.pubkey);
    EffectsKept(s, s.(frames := s.frames + [f], trace := s.trace + [e], open := delivered));
  }

  lemma ForwardKeeps(s: State, sh: Shared, typ: string, f: Frame, w: World)
    requires Valid(s, sh.verified) && s.open && s.pending.None? && s.pubkey != "" && MessageType(f) == Some(typ)
    ensures Valid(Forward(s.(frames := s.frames + [f]), sh, typ, f, w).0, sh.verified)
    ensures Extends(s, Forward(s.(frames := s.frames + [f]), sh, typ, f, w).0)
    ensures Forward(s.(frames := s.frames + [f]), sh, typ, f, w).1.(recent := sh.recent, recorded := sh.recorded) == sh
  {
    hide Valid, RecordQuery;
    RecordKeeps(sh, s.pubkey, f, w.now);
    if Passes(f, s.pubkey) {
      PassedKeeps(s, sh.verified, f, w.upstream);
    } else {
      AnsweredKeeps(s, sh.verified, f,
        OK(EventID(f), false, "restricted: authenticated pubkey does not match event pubkey"), w);
    }
  }

  // ---------- One turn ----------

  lemma ReceiveKeeps(cfg: Config, s: State, sh: Shared, f: Frame, w: World)
    requires Valid(s, sh.verified) && s.open && s.pending.None? && CacheBacked(sh.cache, sh.verified)
    ensures var (s', sh') := Receive(cfg, s, sh, f, w);
            && Valid(s', sh.verified) && Extends(s, s')
            && sh'.cache == sh.cache && sh'.verified == sh.verified
  {
    hide Valid, Midway, CacheBacked, Authenticate, Unauthenticated, Forward;
    var s1 := s.(frames := s.frames + [f]);
    var typ := MessageType(f);
    if s.pubkey == "" {
      ReceivedUnauthenticated(s, sh.verified, f);
      if typ.None? {
        SayKeeps(s1, sh.verified, Notice("invalid: malformed Nostr message"), w);
      } else if typ == Some("AUTH") {
        AuthenticateKeeps(cfg, s1, sh, f, w);
      } else {
        UnauthenticatedKeeps(s1, sh, typ.value, f, w);
      }
    } else if typ.None? {
      AnsweredKeeps(s, sh.verified, f, Notice("invalid: malformed Nostr message"), w);
    } else {
      ForwardKeeps(s, sh, typ.value, f, w);
    }
  }

  lemma MoreVerified(s: State, verified: seq<Verification>, v: Verification)
    requires Valid(s, verified)
    ensures Valid(s, verified + [v])
  {
    hide Verify, TagValue, NormalizeRelayURL, EffectOK, Arrived, EventPassed;
  }

  lemma CachePut(rows: Table, verified: seq<Verification>, v: Verification, username: string)
    requires CacheBacked(Some(rows), verified) && v in verified
    ensures CacheBacked(Some(Upsert(rows, v.pubkey, username, v.start, v.start + v.ttl)), verified)
  {
    var rows' := Upsert(rows, v.pubkey, username, v.start, v.start + v.ttl);
    forall p | p in rows'
      ensures exists u :: u in verified && u.pubkey == p && rows'[p].expiresAt == Unix(u.start + u.ttl)
    {
      if p == v.pubkey {
        assert v in verified;
      } else {
        assert rows'[p] == rows[p];
      }
    }
  }

  lemma ResumeKeeps(s: State, sh: Shared, w: World)
    requires Valid(s, sh.verified) && s.open && s.pending.Some? && CacheBacked(sh.cache, sh.verified)
    ensures var (s', sh') := Resume(s, sh, w);
            && Valid(s', sh'.verified) && Extends(s, s') && s'.pending.None?
            && CacheBacked(sh'.cache, sh'.verified)
            && sh'.verified == (if w.username.Ok? && w.nip05Error.None?
                                then sh.verified + [Verification(s.pending.value.pubkey, s.pending.value.start, s.pending.value.cfg.ttl)]
                                else sh.verified)
  {
    hide Verify, TagValue, NormalizeRelayURL, CacheBacked, Complete, Upsert, Arrived, EventPassed;
    var p := s.pending.value;
    var idle := s.(pending := None);
    var id := p.event.id;
    EffectsKept(s, idle);
    assert Midway(idle, sh.verified);
    if w.username.Err? {
      SayKeeps(idle, sh.verified, OK(id, false, "restricted: " + w.username.error), w);
    } else if w.nip05Error.Some? {
      SayKeeps(idle, sh.verified, OK(id, false, "restricted: " + w.nip05Error.value), w);
    } else {
      var v := Verification(p.pubkey, p.start, p.cfg.ttl);
      var sh1 := sh.(verified := sh.verified + [v]);
      assert Midway(idle, sh1.verified);
      assert v in sh1.verified;
      assert CacheBacked(sh1.cache, sh1.verified) by { CacheMoreVerified(sh.cache, sh.verified, v); }
      var proof := Proof(p.event, p.cfg, p.verifyAt, Fresh(p.start, p.cfg.ttl));
      if sh.cache.None? {
        CompleteIdle(s, sh1, p.pubkey, id, Some(proof), w);
        CompleteKeeps(idle, sh1, p.pubkey, id, Some(proof), w);
      } else if w.putError.Some? {
        SayKeeps(idle, sh1.verified, OK(id, false, "restricted: " + w.putError.value), w);
      } else {
        var rows' := Upsert(sh.cache.value, p.pubkey, w.username.value, p.start, p.start + p.cfg.ttl);
        CachePut(sh.cache.value, sh1.verified, v, w.username.value);
        var sh2 := sh1.(cache := Some(rows'));
        CompleteIdle(s, sh2, p.pubkey, id, Some(proof), w);
        CompleteKeeps(idle, sh2, p.pubkey, id, Some(proof), w);
      }
    }
  }

  lemma CompleteIdle(s: State, sh: Shared, pubkey: string, eventID: string, proof: Option<Proof>, w: World)
    ensures Complete(s, sh, pubkey, eventID, proof, w) == Complete(s.(pending := None), sh, pubkey, eventID, proof, w)
    ensures Complete(s, sh, pubkey, eventID, proof, w).0.pending.None?
  {}

  lemma CacheMoreVerified(cache: Option<Table>, verified: seq<Verification>, v: Verification)
    requires CacheBacked(cache, verified)
    ensures CacheBacked(cache, verified + [v])
  {
    if cache.Some? {
      forall p | p in cache.value
        ensures exists u :: u in verified + [v] && u.pubkey == p && cache.value[p].expiresAt == Unix(u.start + u.ttl)
      {
        var u :| u in verified && u.pubkey == p && cache.value[p].expiresAt == Unix(u.start + u.ttl);
        assert u in verified + [v];
      }
    }
  }
}
