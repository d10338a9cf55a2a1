/** The streaming search for a follow list on one relay (NIP-02 contact lists over a NIP-01
    subscription). */
module FollowList {
  import opened AuthEvent
  import opened Text
  import opened Wrappers

  const FOLLOW_LIST_KIND := 3
  const SUBSCRIPTION := "wrapster-access-follow"

  /** One reading of the relay connection; `event` is None if the message holds no event. */
  datatype Message =
    | ReadFailure
    | Garbled
    | EventFor(subscription: string, event: Option<Event>)
    | EndOfStored
    | Closed
    | Other

  datatype FindError = ReadFailed | RelayClosed | NoFollowList

  const ZERO := Event("", "", 0, 0, [], Checks(false, false, false))

  /** The event of a message, and whether it ends the stored events. */
  function ReadSubscription(m: Message): Result<(Event, bool), FindError> {
    match m
    case ReadFailure => Err(ReadFailed)
    case Closed => Err(RelayClosed)
    case EndOfStored => Ok((ZERO, true))
    case EventFor(subscription, event) =>
      if subscription == SUBSCRIPTION && event.Some? then Ok((event.value, false)) else Ok((ZERO, false))
    case _ => Ok((ZERO, false))
  }

  predicate ValidAuthor(event: Event, owner: string) {
    Lower(event.pubkey) == Lower(owner) && event.checks.signature
  }

  predicate Accepts(event: Event, owner: string) {
    event.kind == FOLLOW_LIST_KIND && ValidAuthor(event, owner)
  }

  predicate HasContacts(event: Event) {
    exists i :: 0 <= i < |event.tags| && |event.tags[i]| >= 2 && event.tags[i][0] == "p" && Trim(event.tags[i][1]) != ""
  }

  method HasPubkeyTags(event: Event) returns (r: bool)
    ensures r == HasContacts(event)
  {
    hide Trim;
    for i := 0 to |event.tags|
      invariant forall j :: 0 <= j < i ==> |event.tags[j]| < 2 || event.tags[j][0] != "p" || Trim(event.tags[j][1]) == ""
    {
      var tag := event.tags[i];
      if |tag| >= 2 && tag[0] == "p" && Trim(tag[1]) != "" {
        return true;
      }
    }
    return false;
  }

  // ---------- The newest event ----------

  /** The earliest of the events with the greatest timestamp. */
  function Newest(es: seq<Event>): Option<Event> {
    if es == [] then None
    else
      match Newest(es[1..])
      case None => Some(es[0])
      case Some(e) => if e.createdAt > es[0].createdAt then Some(e) else Some(es[0])
  }

  /** `es[i]` is at least as new as every event and newer than every earlier one. */
  predicate IsNewest(es: seq<Event>, i: nat) {
    && i < |es|
    && (forall j :: 0 <= j < |es| ==> es[j].createdAt <= es[i].createdAt)
    && (forall j :: 0 <= j < i ==> es[j].createdAt < es[i].createdAt)
  }

  lemma {:induction false} NewestMeans(es: seq<Event>) returns (i: nat)
    ensures es == [] ==> Newest(es) == None
    ensures es != [] ==> IsNewest(es, i) && Newest(es) == Some(es[i])
  {
    i := 0;
    if es != [] {
      var rest := es[1..];
      var k := NewestMeans(rest);
      if rest != [] {
        assert es[k + 1] == rest[k];
        forall j | 0 <= j < |es|
          ensures j > 0 ==> es[j].createdAt <= rest[k].createdAt
          ensures 0 < j < k + 1 ==> es[j].createdAt < rest[k].createdAt
        {
          if j > 0 {
            assert es[j] == rest[j - 1];
          }
        }
        if rest[k].createdAt > es[0].createdAt {
          i := k + 1;
        }
      }
    }
  }

  lemma {:induction false} NewestMore(es: seq<Event>, e: Event)
    ensures Newest(es + [e]) ==
            if es == [] || e.createdAt > Newest(es).value.createdAt then Some(e) else Newest(es)
  {
    if es == [] {
      assert es + [e] == [e] && [e][1..] == [];
    } else {
      assert (es + [e])[1..] == es[1..] + [e];
      NewestMore(es[1..], e);
    }
  }

  function WithContacts(es: seq<Event>): seq<Event> {
    if es == [] then []
    else if HasContacts(es[0]) then [es[0]] + WithContacts(es[1..])
    else WithContacts(es[1..])
  }

  lemma {:induction false} WithContactsMore(es: seq<Event>, e: Event)
    ensures WithContacts(es + [e]) == if HasContacts(e) then WithContacts(es) + [e] else WithContacts(es)
  {
    hide HasContacts;
    if es == [] {
      assert es + [e] == [e] && [e][1..] == [];
    } else {
      assert (es + [e])[1..] == es[1..] + [e];
      WithContactsMore(es[1..], e);
    }
  }

  lemma {:induction false} WithContactsMeans(es: seq<Event>, e: Event)
    ensures e in WithContacts(es) <==> e in es && HasContacts(e)
  {
    hide HasContacts;
    if es != [] {
      WithContactsMeans(es[1..], e);
      assert e in es <==> e == es[0] || e in es[1..];
    }
  }

  function Choose(es: seq<Event>): Result<Event, FindError> {
    match Newest(WithContacts(es))
    case Some(e) => Ok(e)
    case None =>
      match Newest(es)
      case Some(e) => Ok(e)
      case None => Err(NoFollowList)
  }

  // ---------- The search ----------

  /** The acceptable events up to the end of the stored ones. */
  function Collect(messages: seq<Message>, owner: string): Result<seq<Event>, FindError>
    decreases |messages|
  {
    if messages == [] then Err(ReadFailed)
    else
      match ReadSubscription(messages[0])
      case Err(e) => Err(e)
      case Ok((event, done)) =>
        if done then Ok([])
        else
          match Collect(messages[1..], owner)
          case Err(e) => Err(e)
          case Ok(es) => Ok(if Accepts(event, owner) then [event] + es else es)
  }

  function Find(messages: seq<Message>, owner: string): Result<Event, FindError> {
    match Collect(messages, owner)
    case Err(e) => Err(e)
    case Ok(es) => Choose(es)
  }

  function Onto(seen: seq<Event>, r: Result<seq<Event>, FindError>): Result<seq<Event>, FindError> {
    match r
    case Err(e) => Err(e)
    case Ok(es) => Ok(seen + es)
  }

  lemma {:induction false} CollectStep(seen: seq<Event>, messages: seq<Message>, owner: string)
    requires messages != []
    ensures Onto(seen, Collect(messages, owner)) ==
            match ReadSubscription(messages[0])
            case Err(e) => Err(e)
            case Ok((event, done)) =>
              if done then Ok(seen)
              else Onto(if Accepts(event, owner) then seen + [event] else seen, Collect(messages[1..], owner))
  {
    hide Accepts, ReadSubscription;
    assert seen + [] == seen;
    var read := ReadSubscription(messages[0]);
    if read.Ok? && Collect(messages[1..], owner).Ok? {
      var event, es := read.value.0, Collect(messages[1..], owner).value;
      assert (seen + [event]) + es == seen + ([event] + es);
    }
  }

  /** `findFollowListOnRelay`, on the messages the connection delivers. */
  method FindFollowListOnRelay(messages: seq<Message>, owner: string) returns (r: Result<Event, FindError>)
    ensures r == Find(messages, owner)
  {
    hide Accepts, ReadSubscription, Collect, Newest, WithContacts, HasContacts;
    var latest: Option<Event> := None;
    var latestWithContacts: Option<Event> := None;
    ghost var seen: seq<Event> := [];
    NothingSeen(messages, owner);
    var i := 0;
    while i < |messages|
      invariant 0 <= i <= |messages|
      invariant Collect(messages, owner) == Onto(seen, Collect(messages[i..], owner))
      invariant latest == Newest(seen)
      invariant latestWithContacts == Newest(WithContacts(seen))
    {
      CollectStep(seen, messages[i..], owner);
      assert messages[i..][1..] == messages[i + 1..];
      var read := ReadSubscription(messages[i]);
      if read.Err? {
        return Err(read.error);
      }
      var (event, done) := read.value;
      if done {
        if latestWithContacts.Some? {
          return Ok(latestWithContacts.value);
        }
        if latest.Some? {
          return Ok(latest.value);
        }
        return Err(NoFollowList);
      }
      if Accepts(event, owner) {
        SeenMore(seen, event);
        if latest.None? || event.createdAt > latest.value.createdAt {
          latest := Some(event);
        }
        var contacts := HasPubkeyTags(event);
        if contacts && (latestWithContacts.None? || event.createdAt > latestWithContacts.value.createdAt) {
          latestWithContacts := Some(event);
        }
        seen := seen + [event];
      }
      i := i + 1;
    }
    NothingLeft(messages, owner);
    return Err(ReadFailed);
  }

  lemma NothingSeen(messages: seq<Message>, owner: string)
    ensures Onto([], Collect(messages, owner)) == Collect(messages, owner)
    ensures messages[0..] == messages
    ensures Newest([]) == None && WithContacts([]) == []
  {
    hide Collect;
    if Collect(messages, owner).Ok? {
      assert [] + Collect(messages, owner).value == Collect(messages, owner).value;
    }
  }

  lemma NothingLeft(messages: seq<Message>, owner: string)
    ensures Collect(messages[|messages|..], owner) == Err(ReadFailed)
  {}

  lemma SeenMore(seen: seq<Event>, e: Event)
    ensures Newest(seen + [e]) == if Newest(seen).None? || e.createdAt > Newest(seen).value.createdAt then Some(e) else Newest(seen)
    ensures Newest(WithContacts(seen + [e])) ==
            if HasContacts(e) && (Newest(WithContacts(seen)).None? || e.createdAt > Newest(WithContacts(seen)).value.createdAt)
            then Some(e) else Newest(WithContacts(seen))
  {
    hide HasContacts, Newest, WithContacts;
    NewestNone(seen);
    NewestNone(WithContacts(seen));
    NewestMore(seen, e);
    WithContactsMore(seen, e);
    NewestMore(WithContacts(seen), e);
  }

  lemma NewestNone(es: seq<Event>)
    ensures Newest(es).None? <==> es == []
  {
    var i := NewestMeans(es);
  }

  // ---------- Main results ----------

  predicate Continues(m: Message) {
    !m.ReadFailure? && !m.EndOfStored? && !m.Closed?
  }

  /** `event` arrived for the subscription and is a follow list signed by the owner, whose key
      may be written in either case. */
  predicate Offered(body: seq<Message>, owner: string, event: Event) {
    && EventFor("wrapster-access-follow", Some(event)) in body
    && event.kind == 3 && event.checks.signature && Lower(event.pubkey) == Lower(owner)
  }

  /** A tag that names somebody. */
  predicate NamesContact(tag: seq<string>) {
    |tag| >= 2 && tag[0] == "p" && Trim(tag[1]) != ""
  }

  lemma ContactsMean(event: Event)
    ensures HasContacts(event) <==> exists tag :: tag in event.tags && NamesContact(tag)
  {
    hide Trim;
    if i :| 0 <= i < |event.tags| && |event.tags[i]| >= 2 && event.tags[i][0] == "p" && Trim(event.tags[i][1]) != "" {
      assert event.tags[i] in event.tags && NamesContact(event.tags[i]);
    }
    if tag :| tag in event.tags && NamesContact(tag) {
      var i :| 0 <= i < |event.tags| && event.tags[i] == tag;
    }
  }

  function Accepted(body: seq<Message>, owner: string): seq<Event>
    requires forall i :: 0 <= i < |body| ==> Continues(body[i])
    decreases |body|
  {
    if body == [] then []
    else
      assert Continues(body[0]);
      var event := ReadSubscription(body[0]).value.0;
      if Accepts(event, owner) then [event] + Accepted(body[1..], owner) else Accepted(body[1..], owner)
  }

  lemma {:induction false} CollectUpTo(body: seq<Message>, end: Message, rest: seq<Message>, owner: string)
    requires forall i :: 0 <= i < |body| ==> Continues(body[i])
    requires !Continues(end)
    ensures Collect(body + [end] + rest, owner) ==
            if end.EndOfStored? then Ok(Accepted(body, owner)) else if end.Closed? then Err(RelayClosed) else Err(ReadFailed)
    decreases |body|
  {
    hide Accepts;
    var all := body + [end] + rest;
    if body == [] {
      assert all[0] == end;
    } else {
      assert all[1..] == body[1..] + [end] + rest;
      CollectUpTo(body[1..], end, rest, owner);
      assert Continues(body[0]);
    }
  }

  lemma {:induction false} AcceptedMeans(body: seq<Message>, owner: string, e: Event)
    requires forall i :: 0 <= i < |body| ==> Continues(body[i])
    ensures e in Accepted(body, owner) <==> Offered(body, owner, e)
    decreases |body|
  {
    if body != [] {
      AcceptedMeans(body[1..], owner, e);
      assert forall m :: m in body <==> m == body[0] || m in body[1..];
      assert Continues(body[0]);
    }
  }

  /** Main result: what ends the reading decides.  At the end of the stored events the result is
      the newest acceptable event that has contacts, or else the newest acceptable event, the
      earliest arrival among equals; a closed subscription or a failed read is an error. */
  lemma FoundMeans(body: seq<Message>, end: Message, rest: seq<Message>, owner: string, e: Event)
    requires forall i :: 0 <= i < |body| ==> Continues(body[i])
    requires !Continues(end)
    ensures var es := Accepted(body, owner);
            var chosen := if WithContacts(es) != [] then WithContacts(es) else es;
            Find(body + [end] + rest, owner) == Ok(e) <==>
            end.EndOfStored? && exists i: nat :: IsNewest(chosen, i) && chosen[i] == e
  {
    hide Collect, Accepted, Accepts, Continues, WithContacts, Newest;
    CollectUpTo(body, end, rest, owner);
    NewestUnique(Accepted(body, owner), e);
    NewestUnique(WithContacts(Accepted(body, owner)), e);
    NewestNone(Accepted(body, owner));
    NewestNone(WithContacts(Accepted(body, owner)));
    EndKinds(end);
  }

  lemma EndKinds(end: Message)
    ensures Continues(end) <==> !end.ReadFailure? && !end.EndOfStored? && !end.Closed?
  {}

  lemma NewestUnique(es: seq<Event>, e: Event)
    ensures Newest(es) == Some(e) <==> exists i: nat :: IsNewest(es, i) && es[i] == e
  {
    hide Newest;
    var k := NewestMeans(es);
    forall i: nat | IsNewest(es, i)
      ensures i == k
    {}
  }

  predicate Unrelated(m: Message, owner: string) {
    && Continues(m)
    && (m.EventFor? && m.subscription == SUBSCRIPTION && m.event.Some? ==> !Accepts(m.event.value, owner))
  }

  /** A message that offers nothing can be dropped. */
  lemma UnrelatedIgnored(before: seq<Message>, m: Message, after: seq<Message>, owner: string)
    requires Unrelated(m, owner)
    ensures Find(before + [m] + after, owner) == Find(before + after, owner)
  {
    hide Choose;
    CollectWithout(before, m, after, owner);
  }

  lemma {:induction false} CollectWithout(before: seq<Message>, m: Message, after: seq<Message>, owner: string)
    requires Unrelated(m, owner)
    ensures Collect(before + [m] + after, owner) == Collect(before + after, owner)
    decreases |before|
  {
    var all := before + [m] + after;
    if before == [] {
      assert all[0] == m && all[1..] == after;
      assert before + after == after;
    } else {
      assert all[1..] == before[1..] + [m] + after;
      assert (before + after)[1..] == before[1..] + after;
      CollectWithout(before[1..], m, after, owner);
    }
  }

  /** Different events have different timestamps. */
  ghost predicate Separated(body: seq<Message>, owner: string) {
    forall a, b :: Offered(body, owner, a) && Offered(body, owner, b) && a.createdAt == b.createdAt ==> a == b
  }

  lemma SameNewest(es: seq<Event>, fs: seq<Event>)
    requires forall e :: e in es <==> e in fs
    requires forall a, b :: a in es && b in es && a.createdAt == b.createdAt ==> a == b
    ensures Newest(es) == Newest(fs)
  {
    hide Newest;
    var i := NewestMeans(es);
    var j := NewestMeans(fs);
    assert fs != [] ==> fs[0] in fs;
    if es != [] {
      assert es[i] in es;
      assert es[i] in fs;
      assert fs[j] in fs;
      assert fs[j] in es;
      assert es[i].createdAt == fs[j].createdAt;
    }
  }

  /** Main result: with distinct timestamps the order of arrival, and repetition, do not matter. */
  lemma ArrivalOrderDoesNotMatter(body: seq<Message>, other: seq<Message>, rest: seq<Message>, rest': seq<Message>,
                                  owner: string)
    requires forall i :: 0 <= i < |body| ==> Continues(body[i])
    requires forall i :: 0 <= i < |other| ==> Continues(other[i])
    requires Separated(body, owner)
    requires forall e :: Offered(body, owner, e) <==> Offered(other, owner, e)
    ensures Find(body + [EndOfStored] + rest, owner) == Find(other + [EndOfStored] + rest', owner)
  {
    hide Collect, Accepted, Accepts, WithContacts, Newest, Offered, HasContacts;
    CollectUpTo(body, EndOfStored, rest, owner);
    CollectUpTo(other, EndOfStored, rest', owner);
    var es, fs := Accepted(body, owner), Accepted(other, owner);
    forall e
      ensures e in es <==> Offered(body, owner, e)
      ensures e in fs <==> Offered(other, owner, e)
      ensures e in WithContacts(es) <==> e in es && HasContacts(e)
      ensures e in WithContacts(fs) <==> e in fs && HasContacts(e)
    {
      AcceptedMeans(body, owner, e);
      AcceptedMeans(other, owner, e);
      WithContactsMeans(es, e);
      WithContactsMeans(fs, e);
    }
    SameNewest(es, fs);
    SameNewest(WithContacts(es), WithContacts(fs));
  }
}
