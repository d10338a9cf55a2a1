/** One relay connection as a state machine over client frames.

    `Receive` is one turn of the read loop.  It stops in the middle of an AUTH frame when the
    cache has no answer, because the username and NIP-05 lookups take time during which other
    connections use the cache; `Resume` is the rest of that turn.  What the outside world
    answers is the `World` of the turn. */
module Session {
  import opened AuthEvent
  import opened Messages
  import opened Store
  import opened Wrappers

  /** The deployment settings the relay reads. */
  datatype Config = Config(relayURL: string, maxAge: int, ttl: int)

  /** An upstream message while the relay waits for an OK, as far as it is decoded. */
  datatype Answer = Answer(
    typ: Option<string>, length: nat, id: Option<string>, accepted: Option<bool>, reason: Option<string>)

  datatype World = World(
    verifyAt: Instant,              // clock when the auth event is checked
    now: Instant,                   // clock when the cache is asked
    cacheError: Option<string>,
    decodeError: string,            // JSON error text for an undecodable auth event
    username: Result<string, string>,
    nip05Error: Option<string>,
    putError: Option<string>,
    dials: bool,                    // the upstream accepts a connection
    client: bool,                   // writing to the client succeeds
    upstream: bool,                 // writing to the upstream succeeds
    answers: seq<Answer>)           // what the bootstrap connection reads before it fails

  datatype Reply =
    | Notice(text: string)
    | Closed(subID: string, text: string)
    | OK(id: string, accepted: bool, reason: string)

  /** What a turn did, with whether the write succeeded. */
  datatype Effect =
    | ToClient(reply: Reply, delivered: bool)
    | ToUpstream(conn: nat, frame: Frame, delivered: bool)
    | Bootstrap(conn: nat, frame: Frame, delivered: bool)

  /** A completed username and NIP-05 verification. */
  datatype Verification = Verification(pubkey: string, start: Instant, ttl: int)

  datatype Via = CacheHit(now: Instant) | Fresh(start: Instant, ttl: int)

  /** How a connection came by its pubkey. */
  datatype Proof = Proof(event: Event, cfg: Config, verifyAt: Instant, via: Via)

  datatype Pending = Pending(event: Event, pubkey: string, cfg: Config, verifyAt: Instant, start: Instant)

  datatype Query = Query(at: Instant, pubkey: string, subID: string, filters: seq<string>)

  datatype State = State(
    challenge: string,
    pubkey: string,
    upstream: Option<nat>,
    open: bool,
    pending: Option<Pending>,
    // history
    frames: seq<Frame>,
    authAt: nat,
    trace: seq<Effect>,
    proof: Option<Proof>)

  /** What all connections share. */
  datatype Shared = Shared(
    cache: Option<Table>,
    nextConn: nat,
    recent: seq<Query>,
    // history
    verified: seq<Verification>,
    recorded: seq<Query>)

  const RECENT_LIMIT := 25

  function Say(s: State, r: Reply, w: World): State {
    s.(trace := s.trace + [ToClient(r, w.client)], open := w.client)
  }

  // ---------- Authentication ----------

  /** The end of an `authenticate` call without error.  The pubkey may be empty: an AUTH array
      with one element is not an error. */
  function Complete(s: State, sh: Shared, pubkey: string, eventID: string, proof: Option<Proof>, w: World): (State, Shared) {
    if !w.dials then (Say(s.(pending := None), OK(eventID, false, "error: upstream unavailable"), w), sh)
    else
      (Say(s.(pending := None, upstream := Some(sh.nextConn), pubkey := pubkey, authAt := |s.frames|, proof := proof),
           OK(eventID, true, ""), w),
       sh.(nextConn := sh.nextConn + 1))
  }

  function Reject(s: State, sh: Shared, eventID: string, error: string, w: World): (State, Shared) {
    (Say(s.(pending := None), OK(eventID, false, "restricted: " + error), w), sh)
  }

  function Authenticate(cfg: Config, s: State, sh: Shared, f: Frame, w: World): (State, Shared)
    requires f.items.Some?
  {
    if |f.items.value| < 2 then Complete(s, sh, "", "", None, w)
    else
      match f.items.value[1].event
      case None => Reject(s, sh, "", w.decodeError, w)
      case Some(event) =>
        match Verify(event, s.challenge, cfg.relayURL, cfg.maxAge, w.verifyAt)
        case Err(error) => Reject(s, sh, event.id, error, w)
        case Ok(pubkey) =>
          var pending := Pending(event, pubkey, cfg, w.verifyAt, w.now);
          match sh.cache
          case None => (s.(pending := Some(pending)), sh)
          case Some(rows) =>
            if w.cacheError.Some? then Reject(s, sh, event.id, w.cacheError.value, w)
            else if Lookup(rows, pubkey, w.now).Some? then
              Complete(s, sh, pubkey, event.id, Some(Proof(event, cfg, w.verifyAt, CacheHit(w.now))), w)
            else (s.(pending := Some(pending)), sh)
  }

  /** The lookups of a pending authentication have come back. */
  function Resume(s: State, sh: Shared, w: World): (State, Shared)
    requires s.pending.Some?
  {
    var p := s.pending.value;
    if w.username.Err? then Reject(s, sh, p.event.id, w.username.error, w)
    else if w.nip05Error.Some? then Reject(s, sh, p.event.id, w.nip05Error.value, w)
    else
      var sh1 := sh.(verified := sh.verified + [Verification(p.pubkey, p.start, p.cfg.ttl)]);
      var proof := Some(Proof(p.event, p.cfg, p.verifyAt, Fresh(p.start, p.cfg.ttl)));
      match sh.cache
      case None => Complete(s, sh1, p.pubkey, p.event.id, proof, w)
      case Some(rows) =>
        if w.putError.Some? then Reject(s, sh1, p.event.id, w.putError.value, w)
        else
          var sh2 := sh1.(cache := Some(Upsert(rows, p.pubkey, w.username.value, p.start, p.start + p.cfg.ttl)));
          Complete(s, sh2, p.pubkey, p.event.id, proof, w)
  }

  // ---------- Frames before authentication ----------

  /** The first OK for this event, unless it is malformed; nothing when reading fails first. */
  function WaitOK(answers: seq<Answer>, eventID: string): Option<(bool, string)> {
    if answers == [] then None
    else
      var a := answers[0];
      if a.typ != Some("OK") || a.length < 4 || a.id != Some(eventID) then WaitOK(answers[1..], eventID)
      else if a.accepted.None? || a.reason.None? then None
      else Some((a.accepted.value, a.reason.value))
  }

  /** The reply to a frame that goes nowhere. */
  function Refusal(typ: string, f: Frame): Reply
    requires f.items.Some?
  {
    if typ == "REQ" && |f.items.value| >= 2 then
      var text := f.items.value[1].text;
      Closed(if text.Some? then text.value else "", "auth-required: NIP-42 authentication required")
    else if typ == "EVENT" then
      match ParseEvent(f)
      case None => OK(EventID(f), false, "invalid: malformed EVENT payload")
      case Some(event) => OK(event.id, false, "auth-required: NIP-42 required except self-signed kind 0 bootstrap")
    else Notice("auth-required: NIP-42 authentication required")
  }

  /** A bootstrap event travels over a connection of its own, and its OK is relayed. */
  function Introduce(s: State, sh: Shared, event: Event, f: Frame, w: World): (State, Shared) {
    if !w.dials then (Say(s, OK(event.id, false, "error: upstream unavailable"), w), sh)
    else
      var s1 := s.(trace := s.trace + [Bootstrap(sh.nextConn, f, w.upstream)]);
      var answer := if w.upstream then WaitOK(w.answers, event.id) else None;
      var reply := match answer
        case None => OK(event.id, false, "error: upstream unavailable")
        case Some((accepted, reason)) => OK(event.id, accepted, reason);
      (Say(s1, reply, w), sh.(nextConn := sh.nextConn + 1))
  }

  function Unauthenticated(s: State, sh: Shared, typ: string, f: Frame, w: World): (State, Shared)
    requires f.items.Some?
  {
    var event := ParseEvent(f);
    if typ == "EVENT" && event.Some? && IsBootstrap(event.value) then Introduce(s, sh, event.value, f, w)
    else (Say(s, Refusal(typ, f), w), sh)
  }

  // ---------- Frames after authentication ----------

  function Newest(recent: seq<Query>, q: Query): seq<Query> {
    if |recent| + 1 > RECENT_LIMIT then ([q] + recent)[..RECENT_LIMIT] else [q] + recent
  }

  function RecordQuery(sh: Shared, pubkey: string, f: Frame, now: Instant): Shared {
    match ParseREQ(f)
    case None => sh
    case Some((subID, filters)) =>
      var q := Query(now, pubkey, subID, filters);
      sh.(recent := Newest(sh.recent, q), recorded := sh.recorded + [q])
  }

  function Forward(s: State, sh: Shared, typ: string, f: Frame, w: World): (State, Shared) {
    if typ == "EVENT" && EventPubkey(f) != Some(s.pubkey) then
      (Say(s, OK(EventID(f), false, "restricted: authenticated pubkey does not match event pubkey"), w), sh)
    else
      var sh1 := if typ == "REQ" then RecordQuery(sh, s.pubkey, f, w.now) else sh;
      match s.upstream
      case None => (s.(open := false), sh1)
      case Some(conn) => (s.(trace := s.trace + [ToUpstream(conn, f, w.upstream)], open := w.upstream), sh1)
  }

  // ---------- The loop body ----------

  function Receive(cfg: Config, s: State, sh: Shared, f: Frame, w: World): (State, Shared) {
    var s1 := s.(frames := s.frames + [f]);
    match MessageType(f)
    case None => (Say(s1, Notice("invalid: malformed Nostr message"), w), sh)
    case Some(typ) =>
      if s.pubkey == "" then
        if typ == "AUTH" then Authenticate(cfg, s1, sh, f, w) else Unauthenticated(s1, sh, typ, f, w)
      else Forward(s1, sh, typ, f, w)
  }

  /** A whole turn of a connection that nothing interrupts. */
  function Turn(cfg: Config, s: State, sh: Shared, f: Frame, w: World): (State, Shared) {
    var (s1, sh1) := Receive(cfg, s, sh, f, w);
    if s1.pending.Some? then Resume(s1, sh1, w) else (s1, sh1)
  }

  function Fresh0(challenge: string, greeted: bool): State {
    State(challenge, "", None, greeted, None, [], 0, [], None)
  }
}
