/** What each frame is answered with, in terms of the frame and of what the world says.

    The state machine computes these replies; here they are stated without it. */
module Replies {
  import opened AuthEvent
  import opened Messages
  import opened Session
  import opened SessionInvariant
  import opened Store
  import opened Wrappers

  /** `s'` is `s` after one more reply. */
  predicate Draws(s: State, s': State, reply: Reply, w: World) {
    s'.trace == s.trace + [ToClient(reply, w.client)] && s'.open == w.client
  }

  predicate StartsWith(f: Frame, typ: string) {
    f.items.Some? && f.items.value != [] && f.items.value[0].text == Some(typ)
  }

  // ---------- The upstream's answer to a bootstrap event ----------

  /** An OK message for the event. */
  predicate Answers(a: Answer, eventID: string) {
    a.typ == Some("OK") && a.length >= 4 && a.id == Some(eventID)
  }

  /** The first OK message for the event decides; a malformed one decides for nothing. */
  lemma {:induction false} WaitOKMeans(answers: seq<Answer>, eventID: string, accepted: bool, reason: string)
    ensures WaitOK(answers, eventID) == Some((accepted, reason)) <==>
            exists i :: 0 <= i < |answers| && Answers(answers[i], eventID)
                        && answers[i].accepted == Some(accepted) && answers[i].reason == Some(reason)
                        && forall j :: 0 <= j < i ==> !Answers(answers[j], eventID)
    decreases |answers|
  {
    if answers != [] && !Answers(answers[0], eventID) {
      var rest := answers[1..];
      WaitOKMeans(rest, eventID, accepted, reason);
      if i :| 0 <= i < |rest| && Answers(rest[i], eventID) && rest[i].accepted == Some(accepted)
              && rest[i].reason == Some(reason) && forall j :: 0 <= j < i ==> !Answers(rest[j], eventID) {
        assert answers[i + 1] == rest[i];
        assert forall j :: 0 < j < i + 1 ==> answers[j] == rest[j - 1];
      }
      if i :| 0 <= i < |answers| && Answers(answers[i], eventID) && answers[i].accepted == Some(accepted)
              && answers[i].reason == Some(reason) && forall j :: 0 <= j < i ==> !Answers(answers[j], eventID) {
        assert rest[i - 1] == answers[i];
        assert forall j :: 0 <= j < i - 1 ==> rest[j] == answers[j + 1];
      }
    }
  }

  // ---------- Before authentication ----------

  /** A frame that is no array, or whose first element is no text, is malformed at any time. */
  lemma MalformedDraws(cfg: Config, s: State, sh: Shared, f: Frame, w: World)
    requires f.items.None? || f.items.value == [] || f.items.value[0].text.None?
    ensures var (s', sh') := Receive(cfg, s, sh, f, w);
            Draws(s, s', Notice("invalid: malformed Nostr message"), w) && sh' == sh && s'.pubkey == s.pubkey
  {}

  /** Frames that need authentication are refused: a REQ by closing its subscription, an EVENT by
      a negative OK for its id, anything else by a notice. */
  lemma UnauthenticatedDraws(cfg: Config, s: State, sh: Shared, f: Frame, w: World, typ: string)
    requires s.pubkey == "" && StartsWith(f, typ) && typ != "AUTH" && !SignedProfile(f)
    ensures var (s', sh') := Receive(cfg, s, sh, f, w);
            var items := f.items.value;
            && sh' == sh && s'.pubkey == ""
            && (typ == "REQ" && |items| >= 2 ==>
                  Draws(s, s', Closed(if items[1].text.Some? then items[1].text.value else "",
                                      "auth-required: NIP-42 authentication required"), w))
            && (typ == "EVENT" && |items| >= 2 && items[1].event.Some? ==>
                  Draws(s, s', OK(items[1].event.value.id, false,
                                  "auth-required: NIP-42 required except self-signed kind 0 bootstrap"), w))
            && (typ == "EVENT" && (|items| < 2 || items[1].event.None?) ==>
                  Draws(s, s', OK(if |items| >= 2 && items[1].id.Some? then items[1].id.value else "", false,
                                  "invalid: malformed EVENT payload"), w))
            && (typ != "EVENT" && (typ != "REQ" || |items| < 2) ==>
                  Draws(s, s', Notice("auth-required: NIP-42 authentication required"), w))
  {
    hide Introduce, Authenticate, Forward;
  }

  /** A signed profile goes out on a new connection and draws the upstream's first OK for it, or
      an error if there is no connection, no delivery or no such OK. */
  lemma ProfileDraws(cfg: Config, s: State, sh: Shared, f: Frame, w: World)
    requires s.pubkey == "" && SignedProfile(f)
    ensures var (s', sh') := Receive(cfg, s, sh, f, w);
            var id := f.items.value[1].event.value.id;
            && s'.pubkey == "" && s'.open == w.client
            && (!w.dials ==> sh' == sh && Draws(s, s', OK(id, false, "error: upstream unavailable"), w))
            && (w.dials ==>
                  && sh' == sh.(nextConn := sh.nextConn + 1)
                  && |s'.trace| == |s.trace| + 2 && s.trace <= s'.trace
                  && s'.trace[|s.trace|] == Bootstrap(sh.nextConn, f, w.upstream)
                  && (forall accepted, reason ::
                        && w.upstream
                        && (exists i :: 0 <= i < |w.answers| && Answers(w.answers[i], id)
                                        && w.answers[i].accepted == Some(accepted) && w.answers[i].reason == Some(reason)
                                        && forall j :: 0 <= j < i ==> !Answers(w.answers[j], id))
                        ==> s'.trace[|s.trace| + 1] == ToClient(OK(id, accepted, reason), w.client))
                  && (s'.trace[|s.trace| + 1] == ToClient(OK(id, false, "error: upstream unavailable"), w.client)
                      || (w.upstream
                          && exists i :: 0 <= i < |w.answers| && Answers(w.answers[i], id)
                                         && w.answers[i].accepted.Some? && w.answers[i].reason.Some?)))
  {
    hide WaitOK, Authenticate, Forward, Refusal;
    var id := f.items.value[1].event.value.id;
    forall accepted, reason
      ensures WaitOK(w.answers, id) == Some((accepted, reason)) <==>
              exists i :: 0 <= i < |w.answers| && Answers(w.answers[i], id)
                          && w.answers[i].accepted == Some(accepted) && w.answers[i].reason == Some(reason)
                          && forall j :: 0 <= j < i ==> !Answers(w.answers[j], id)
    {
      WaitOKMeans(w.answers, id, accepted, reason);
    }
  }

  // ---------- Authentication ----------

  /** A row of the cache that is still valid, in whole seconds. */
  predicate CachedNow(sh: Shared, pubkey: string, now: Instant) {
    sh.cache.Some? && pubkey in sh.cache.value && sh.cache.value[pubkey].expiresAt > Unix(now)
  }

  /** The end of an authentication: admitted if the upstream can be dialed. */
  predicate Admits(s: State, s': State, id: string, pubkey: string, w: World) {
    if w.dials then Draws(s, s', OK(id, true, ""), w) && s'.pubkey == pubkey && s'.upstream.Some?
    else Draws(s, s', OK(id, false, "error: upstream unavailable"), w) && s'.pubkey == s.pubkey
  }

  /** An AUTH frame: without an event it admits nobody though it is answered OK; an event that
      proves nothing is refused with its flaw, and any event when the cache fails; a cached key is
      admitted at once; any other key has to be looked up. */
  lemma AuthDraws(cfg: Config, s: State, sh: Shared, f: Frame, w: World)
    requires s.pubkey == "" && s.pending.None? && StartsWith(f, "AUTH")
    ensures var (s', sh') := Receive(cfg, s, sh, f, w);
            var items := f.items.value;
            && (|items| < 2 ==> Admits(s, s', "", "", w))
            && (|items| >= 2 && items[1].event.None? ==>
                  Draws(s, s', OK("", false, "restricted: " + w.decodeError), w) && s'.pubkey == "")
            && (|items| >= 2 && items[1].event.Some? ==>
                  var e := items[1].event.value;
                  var proves := Proves(e, s.challenge, cfg.relayURL, cfg.maxAge, w.verifyAt, e.pubkey);
                  && (!proves ==> s'.pubkey == "" && exists error ::
                        && Flaw(e, s.challenge, cfg.relayURL, cfg.maxAge, w.verifyAt, error)
                        && Draws(s, s', OK(e.id, false, "restricted: " + error), w))
                  && (proves && sh.cache.Some? && w.cacheError.Some? ==>
                        s'.pubkey == "" && Draws(s, s', OK(e.id, false, "restricted: " + w.cacheError.value), w))
                  && (proves && w.cacheError.None? && CachedNow(sh, e.pubkey, w.now) ==> Admits(s, s', e.id, e.pubkey, w))
                  && (proves && (sh.cache.None? || w.cacheError.None?) && !CachedNow(sh, e.pubkey, w.now) ==>
                        && s'.trace == s.trace && s'.pubkey == "" && s'.pending.Some?
                        && s'.pending.value.event == e && s'.pending.value.pubkey == e.pubkey
                        && s'.pending.value.start == w.now && s'.pending.value.cfg == cfg))
  {
    hide Verify, Proves, Flaw, Unauthenticated, Forward;
    var items := f.items.value;
    if |items| >= 2 && items[1].event.Some? {
      var e := items[1].event.value;
      var checked := Verify(e, s.challenge, cfg.relayURL, cfg.maxAge, w.verifyAt);
      VerifyMeans(e, s.challenge, cfg.relayURL, cfg.maxAge, w.verifyAt, e.pubkey);
      if checked.Ok? {
        VerifyMeans(e, s.challenge, cfg.relayURL, cfg.maxAge, w.verifyAt, checked.value);
        ProvenKey(e, s.challenge, cfg.relayURL, cfg.maxAge, w.verifyAt, checked.value);
      } else {
        VerifyRefused(e, s.challenge, cfg.relayURL, cfg.maxAge, w.verifyAt, checked.error);
        var s' := Receive(cfg, s, sh, f, w).0;
        assert Draws(s, s', OK(e.id, false, "restricted: " + checked.error), w);
      }
    }
  }

  lemma ProvenKey(e: Event, challenge: string, relayURL: string, maxAge: int, now: Instant, pubkey: string)
    requires Proves(e, challenge, relayURL, maxAge, now, pubkey)
    ensures pubkey == e.pubkey
  {}

  /** The lookups of an authentication: each failure is a refusal with its reason, and writes no
      row; success writes the row of the key, valid from the start of the authentication for the
      configured time, in whole seconds. */
  lemma LookupDraws(s: State, sh: Shared, w: World)
    requires s.pending.Some?
    ensures var (s', sh') := Resume(s, sh, w);
            var p := s.pending.value;
            && (w.username.Err? ==> sh' == sh && Draws(s, s', OK(p.event.id, false, "restricted: " + w.username.error), w))
            && (w.username.Ok? && w.nip05Error.Some? ==>
                  sh' == sh && Draws(s, s', OK(p.event.id, false, "restricted: " + w.nip05Error.value), w))
            && (w.username.Ok? && w.nip05Error.None? && sh.cache.Some? && w.putError.Some? ==>
                  sh'.cache == sh.cache && Draws(s, s', OK(p.event.id, false, "restricted: " + w.putError.value), w))
            && (w.username.Ok? && w.nip05Error.None? && (sh.cache.None? || w.putError.None?) ==>
                  Admits(s, s', p.event.id, p.pubkey, w))
            && (w.username.Ok? && w.nip05Error.None? && sh.cache.Some? && w.putError.None? ==>
                  && sh'.cache.Some? && p.pubkey in sh'.cache.value
                  && sh'.cache.value[p.pubkey] == Row(w.username.value, p.start / SECOND, (p.start + p.cfg.ttl) / SECOND)
                  && forall k :: k != p.pubkey ==>
                       && (k in sh'.cache.value <==> k in sh.cache.value)
                       && (k in sh.cache.value ==> sh'.cache.value[k] == sh.cache.value[k]))
            && (w.username.Err? || w.nip05Error.Some? || (sh.cache.Some? && w.putError.Some?) ==> s'.pubkey == s.pubkey)
  {}

  // ---------- After authentication ----------

  /** An EVENT that does not carry the session's pubkey is refused under its own id; every other
      well-formed frame draws no reply. */
  lemma AuthenticatedDraws(cfg: Config, s: State, sh: Shared, f: Frame, w: World, typ: string)
    requires s.pubkey != "" && s.upstream.Some? && StartsWith(f, typ)
    ensures var (s', sh') := Receive(cfg, s, sh, f, w);
            var items := f.items.value;
            if typ == "EVENT" && (|items| < 2 || items[1].pubkey != Some(s.pubkey)) then
              && sh' == sh
              && Draws(s, s', OK(if |items| >= 2 && items[1].id.Some? then items[1].id.value else "", false,
                                 "restricted: authenticated pubkey does not match event pubkey"), w)
            else
              s'.trace == s.trace + [ToUpstream(s.upstream.value, f, w.upstream)] && s'.open == w.upstream
  {
    hide RecordQuery, Authenticate, Unauthenticated;
  }

  /** A REQ of an authenticated session with a subscription and at least one filter is recorded,
      first in the recent list, with the session's pubkey; no other frame is. */
  lemma QueriesAreRecorded(cfg: Config, s: State, sh: Shared, f: Frame, w: World)
    requires s.pubkey != "" && s.upstream.Some?
    ensures var sh' := Receive(cfg, s, sh, f, w).1;
            if StartsWith(f, "REQ") && |f.items.value| >= 3 && f.items.value[1].text.Some? then
              && |sh'.recorded| == |sh.recorded| + 1 && sh.recorded <= sh'.recorded
              && var q := sh'.recorded[|sh.recorded|];
              && q.at == w.now && q.pubkey == s.pubkey && q.subID == f.items.value[1].text.value
              && |q.filters| == |f.items.value| - 2
              && (forall k :: 0 <= k < |q.filters| ==> q.filters[k] == f.items.value[k + 2].raw)
              && sh'.recent != [] && sh'.recent[0] == q
            else sh'.recorded == sh.recorded && sh'.recent == sh.recent
  {
    hide Authenticate, Unauthenticated, Raws;
  }
}
