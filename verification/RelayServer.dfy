/** The relay's websocket loop over its mutable state: the connection's challenge, pubkey and
    upstream, the cache, and the list of recent queries. */
module RelayServer {
  import opened AuthEvent
  import opened Messages
  import opened Runs
  import opened Session
  import opened SessionInvariant
  import opened Store
  import opened Wrappers

  class Connection {
    const challenge: string
    var pubkey: string
    var upstream: Option<nat>
    var open: bool
    ghost var frames: seq<Frame>
    ghost var authAt: nat
    ghost var trace: seq<Effect>
    ghost var proof: Option<Proof>

    ghost function Abs(): State
      reads this
    {
      State(challenge, pubkey, upstream, open, None, frames, authAt, trace, proof)
    }

    constructor (challenge: string, greeted: bool)
      ensures Abs() == Fresh0(challenge, greeted)
    {
      this.challenge := challenge;
      pubkey, upstream, open := "", None, greeted;
      frames, authAt, trace, proof := [], 0, [], None;
    }

    /** `writeClient`: whether the loop goes on. */
    method WriteClient(reply: Reply, w: World) returns (ok: bool)
      modifies this
      ensures Abs() == Say(old(Abs()), reply, w) && ok == w.client
    {
      trace := trace + [ToClient(reply, w.client)];
      open := w.client;
      return w.client;
    }
  }

  /** What the loop does with the result of `authenticate`. */
  function Settle(s: State, sh: Shared, pubkey: string, eventID: string, error: Option<string>, proof: Option<Proof>, w: World): (State, Shared) {
    if error.Some? then Reject(s, sh, eventID, error.value, w) else Complete(s, sh, pubkey, eventID, proof, w)
  }

  /** Authentication without interruption. */
  function AuthTurn(cfg: Config, s: State, sh: Shared, f: Frame, w: World): (State, Shared)
    requires f.items.Some?
  {
    var (s1, sh1) := Authenticate(cfg, s, sh, f, w);
    if s1.pending.Some? then Resume(s1, sh1, w) else (s1, sh1)
  }

  class Server {
    const cfg: Config
    const cache: Cache?
    var nextConn: nat
    var recentQueries: seq<Query>
    ghost var verified: seq<Verification>
    ghost var recorded: seq<Query>

    ghost function Abs(): Shared
      reads this, cache
    {
      Shared(if cache == null then None else Some(cache.rows), nextConn, recentQueries, verified, recorded)
    }

    constructor (cfg: Config, cache: Cache?)
      ensures this.cfg == cfg && this.cache == cache
      ensures nextConn == 0 && recentQueries == [] && verified == [] && recorded == []
    {
      this.cfg, this.cache := cfg, cache;
      nextConn, recentQueries, verified, recorded := 0, [], [], [];
    }

    /** `authenticate`.  An array without an event is not an error: the pubkey stays empty. */
    method Authenticated(c: Connection, f: Frame, w: World)
      returns (pubkey: string, eventID: string, error: Option<string>, ghost proof: Option<Proof>)
      requires f.items.Some?
      modifies this, cache
      ensures Settle(c.Abs(), Abs(), pubkey, eventID, error, proof, w) == AuthTurn(cfg, c.Abs(), old(Abs()), f, w)
      ensures c.Abs() == old(c.Abs())
    {
      hide Verify, Lookup;
      pubkey, eventID, error, proof := "", "", None, None;
      var raw := f.items.value;
      if |raw| < 2 {
        return;
      }
      if raw[1].event.None? {
        error := Some(w.decodeError);
        return;
      }
      var event := raw[1].event.value;
      var checked := Verify(event, c.challenge, cfg.relayURL, cfg.maxAge, w.verifyAt);
      eventID := event.id;
      if checked.Err? {
        error := Some(checked.error);
        return;
      }
      var now := w.now;
      if cache != null {
        if w.cacheError.Some? {
          error := w.cacheError;
          return;
        }
        var entry := cache.GetValid(checked.value, now);
        if entry.Some? {
          pubkey := checked.value;
          proof := Some(Proof(event, cfg, w.verifyAt, CacheHit(now)));
          return;
        }
      }
      if w.username.Err? {
        error := Some(w.username.error);
        return;
      }
      if w.nip05Error.Some? {
        error := w.nip05Error;
        return;
      }
      verified := verified + [Verification(checked.value, now, cfg.ttl)];
      if cache != null {
        if w.putError.Some? {
          error := w.putError;
          return;
        }
        cache.Put(checked.value, w.username.value, now, now + cfg.ttl);
      }
      pubkey := checked.value;
      proof := Some(Proof(event, cfg, w.verifyAt, Fresh(now, cfg.ttl)));
    }

    /** `recordRelayQuery`: prepend and keep the newest. */
    method RecordRelayQuery(pubkey: string, f: Frame, now: Instant)
      modifies this
      ensures Abs() == RecordQuery(old(Abs()), pubkey, f, now)
    {
      var parsed := ParseREQ(f);
      if parsed.None? {
        return;
      }
      var entry := Query(now, pubkey, parsed.value.0, parsed.value.1);
      recentQueries := [entry] + recentQueries;
      if |recentQueries| > RECENT_LIMIT {
        recentQueries := recentQueries[..RECENT_LIMIT];
      }
      recorded := recorded + [entry];
    }

    /** The read loop of `forwardToUpstreamAndWaitOK`. */
    method ReadOK(answers: seq<Answer>, eventID: string) returns (r: Option<(bool, string)>)
      ensures r == WaitOK(answers, eventID)
    {
      var i := 0;
      while i < |answers|
        invariant 0 <= i <= |answers|
        invariant WaitOK(answers, eventID) == WaitOK(answers[i..], eventID)
      {
        var a := answers[i];
        assert answers[i..][1..] == answers[i + 1..];
        i := i + 1;
        if a.typ != Some("OK") || a.length < 4 || a.id != Some(eventID) {
          continue;
        }
        if a.accepted.None? || a.reason.None? {
          return None;
        }
        return Some((a.accepted.value, a.reason.value));
      }
      return None;
    }

    /** The event travels over a connection of its own, if one can be dialed. */
    method ForwardToUpstreamAndWaitOK(c: Connection, f: Frame, eventID: string, w: World)
      returns (answer: Option<(bool, string)>)
      modifies this`nextConn, c`trace
      ensures !w.dials ==> Abs() == old(Abs()) && c.Abs() == old(c.Abs()) && answer == None
      ensures w.dials ==>
                && Abs() == old(Abs()).(nextConn := old(nextConn) + 1)
                && c.Abs() == old(c.Abs()).(trace := old(c.trace) + [Bootstrap(old(nextConn), f, w.upstream)])
                && answer == if w.upstream then WaitOK(w.answers, eventID) else None
    {
      if !w.dials {
        return None;
      }
      var conn := nextConn;
      nextConn := nextConn + 1;
      c.trace := c.trace + [Bootstrap(conn, f, w.upstream)];
      if !w.upstream {
        return None;
      }
      answer := ReadOK(w.answers, eventID);
    }

    /** The end of `handleUnauthenticated` for a validated bootstrap event. */
    method RelayBootstrap(c: Connection, event: Event, f: Frame, w: World) returns (ok: bool)
      modifies this, c
      ensures (c.Abs(), Abs()) == Introduce(old(c.Abs()), old(Abs()), event, f, w)
      ensures ok == c.open
    {
      hide WaitOK;
      var answer := ForwardToUpstreamAndWaitOK(c, f, event.id, w);
      if answer.None? {
        ok := c.WriteClient(OK(event.id, false, "error: upstream unavailable"), w);
      } else {
        ok := c.WriteClient(OK(event.id, answer.value.0, answer.value.1), w);
      }
    }

    /** `handleUnauthenticated`: whether the loop goes on. */
    method HandleUnauthenticated(c: Connection, typ: string, f: Frame, w: World) returns (ok: bool)
      requires f.items.Some?
      modifies this, c
      ensures (c.Abs(), Abs()) == Unauthenticated(old(c.Abs()), old(Abs()), typ, f, w)
      ensures ok == c.open
    {
      hide IsBootstrap, Introduce;
      var raw := f.items.value;
      if typ == "REQ" {
        if |raw| >= 2 {
          var subID := if raw[1].text.Some? then raw[1].text.value else "";
          ok := c.WriteClient(Closed(subID, "auth-required: NIP-42 authentication required"), w);
          return;
        }
        ok := c.WriteClient(Notice("auth-required: NIP-42 authentication required"), w);
      } else if typ == "EVENT" {
        var event := ParseEvent(f);
        if event.None? {
          ok := c.WriteClient(OK(EventID(f), false, "invalid: malformed EVENT payload"), w);
          return;
        }
        var id := event.value.id;
        if !IsBootstrap(event.value) {
          ok := c.WriteClient(OK(id, false, "auth-required: NIP-42 required except self-signed kind 0 bootstrap"), w);
          return;
        }
        ok := RelayBootstrap(c, event.value, f, w);
      } else {
        ok := c.WriteClient(Notice("auth-required: NIP-42 authentication required"), w);
      }
    }

    /** The loop's branch for AUTH frames. */
    method HandleAuth(c: Connection, f: Frame, w: World) returns (ok: bool)
      requires f.items.Some?
      modifies this, c, cache
      ensures (c.Abs(), Abs()) == AuthTurn(cfg, old(c.Abs()), old(Abs()), f, w)
      ensures ok == c.open
    {
      hide AuthTurn;
      var pubkey, eventID, error;
      ghost var proof;
      pubkey, eventID, error, proof := Authenticated(c, f, w);
      if error.Some? {
        ok := c.WriteClient(OK(eventID, false, "restricted: " + error.value), w);
        return;
      }
      if !w.dials {
        ok := c.WriteClient(OK(eventID, false, "error: upstream unavailable"), w);
        return;
      }
      c.upstream := Some(nextConn);
      nextConn := nextConn + 1;
      c.pubkey := pubkey;
      c.authAt, c.proof := |c.frames|, proof;
      ok := c.WriteClient(OK(eventID, true, ""), w);
    }

    /** The loop's branch for an authenticated connection. */
    method HandleAuthenticated(c: Connection, typ: string, f: Frame, w: World) returns (ok: bool)
      modifies this, c
      ensures (c.Abs(), Abs()) == Forward(old(c.Abs()), old(Abs()), typ, f, w)
      ensures ok == c.open
    {
      hide RecordQuery;
      if typ == "EVENT" {
        var eventPubkey := EventPubkey(f);
        if eventPubkey.None? || eventPubkey.value != c.pubkey {
          ok := c.WriteClient(OK(EventID(f), false, "restricted: authenticated pubkey does not match event pubkey"), w);
          return;
        }
      }
      if typ == "REQ" {
        RecordRelayQuery(c.pubkey, f, w.now);
      }
      if c.upstream.None? {
        c.open := false;
        return false;
      }
      c.trace := c.trace + [ToUpstream(c.upstream.value, f, w.upstream)];
      c.open := w.upstream;
      return w.upstream;
    }

    /** The body of the read loop. */
    method HandleMessage(c: Connection, f: Frame, w: World) returns (ok: bool)
      modifies this, c, cache
      ensures (c.Abs(), Abs()) == Turn(cfg, old(c.Abs()), old(Abs()), f, w)
      ensures ok == c.open
    {
      hide Authenticate, Resume, Unauthenticated, Forward;
      UnauthenticatedIdle(c.Abs().(frames := c.frames + [f]), Abs(), f, w);
      ForwardIdle(c.Abs().(frames := c.frames + [f]), Abs(), f, w);
      c.frames := c.frames + [f];
      var typ := MessageType(f);
      if typ.None? {
        ok := c.WriteClient(Notice("invalid: malformed Nostr message"), w);
      } else if c.pubkey != "" {
        ok := HandleAuthenticated(c, typ.value, f, w);
      } else if typ.value == "AUTH" {
        ok := HandleAuth(c, f, w);
      } else {
        ok := HandleUnauthenticated(c, typ.value, f, w);
      }
    }

    /** `websocket`: the loop reads frames until a write fails or the client is gone. */
    method Websocket(c: Connection, inputs: seq<(Frame, World)>)
      requires c.open
      modifies this, c, cache
      ensures (c.Abs(), Abs()) == Conversation(cfg, old(c.Abs()), old(Abs()), inputs)
    {
      hide Turn;
      var i := 0;
      while i < |inputs| && c.open
        invariant 0 <= i <= |inputs|
        invariant Conversation(cfg, old(c.Abs()), old(Abs()), inputs) == Conversation(cfg, c.Abs(), Abs(), inputs[i..])
      {
        assert inputs[i..][1..] == inputs[i + 1..];
        var ok := HandleMessage(c, inputs[i].0, inputs[i].1);
        i := i + 1;
      }
    }
  }

  lemma UnauthenticatedIdle(s: State, sh: Shared, f: Frame, w: World)
    ensures MessageType(f).Some? ==>
              Unauthenticated(s, sh, MessageType(f).value, f, w).0.pending == s.pending
  {
    hide WaitOK, Refusal, IsBootstrap;
  }

  lemma ForwardIdle(s: State, sh: Shared, f: Frame, w: World)
    ensures MessageType(f).Some? ==>
              Forward(s, sh, MessageType(f).value, f, w).0.pending == s.pending
  {}

  /** A connection served from start to end while the others are silent. */
  function Conversation(cfg: Config, s: State, sh: Shared, inputs: seq<(Frame, World)>): (State, Shared)
    decreases |inputs|
  {
    if inputs == [] || !s.open then (s, sh)
    else
      var (s1, sh1) := Turn(cfg, s, sh, inputs[0].0, inputs[0].1);
      Conversation(cfg, s1, sh1, inputs[1..])
  }

  // ---------- Main results ----------

  /** An uninterrupted turn is one of the interleavings of `Runs`, so everything proved about
      runs holds of the loop. */
  lemma TurnIsTwoSteps(sv: Runs.Server, i: nat, f: Frame, w: World)
    requires Reading(sv, i) && Valid(sv.sessions[i], sv.shared.verified) && CacheBacked(sv.shared.cache, sv.shared.verified)
    ensures var (s, sh) := Turn(sv.cfg, sv.sessions[i], sv.shared, f, w);
            Next(Next(sv, Read(i, f, w)), LookedUp(i, w)) == sv.(sessions := sv.sessions[i := s], shared := sh)
  {
    hide Valid, CacheBacked, Receive, Resume;
    PendingStaysOpen(sv.cfg, sv.sessions[i], sv.shared, f, w);
    var (s1, sh1) := Receive(sv.cfg, sv.sessions[i], sv.shared, f, w);
    assert sv.sessions[i := s1][i] == s1;
  }

  lemma PendingStaysOpen(cfg: Config, s: State, sh: Shared, f: Frame, w: World)
    requires s.open && s.pending.None?
    ensures Receive(cfg, s, sh, f, w).0.pending.Some? ==> Receive(cfg, s, sh, f, w).0.open
  {
    hide Verify, Lookup, Unauthenticated, Forward;
    UnauthenticatedIdle(s.(frames := s.frames + [f]), sh, f, w);
    ForwardIdle(s.(frames := s.frames + [f]), sh, f, w);
  }

  /** A whole conversation keeps the invariant of connections and cache. */
  lemma {:induction false} ConversationKeeps(cfg: Config, s: State, sh: Shared, inputs: seq<(Frame, World)>)
    requires Valid(s, sh.verified) && s.pending.None? && CacheBacked(sh.cache, sh.verified)
    ensures var (s', sh') := Conversation(cfg, s, sh, inputs);
            Valid(s', sh'.verified) && Extends(s, s') && CacheBacked(sh'.cache, sh'.verified)
    decreases |inputs|
  {
    hide Valid, CacheBacked, Receive, Resume;
    if inputs != [] && s.open {
      var (f, w) := inputs[0];
      ReceiveKeeps(cfg, s, sh, f, w);
      PendingStaysOpen(cfg, s, sh, f, w);
      var (s1, sh1) := Receive(cfg, s, sh, f, w);
      if s1.pending.Some? {
        ResumeKeeps(s1, sh1, w);
      }
      var (s2, sh2) := Turn(cfg, s, sh, f, w);
      ConversationKeeps(cfg, s2, sh2, inputs[1..]);
    }
  }
}
