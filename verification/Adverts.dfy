/** Merging service adverts that arrive from many relays, several times and in any order. */
module Adverts {
  /** What an advert's event says, apart from its identity. */
  datatype Content = Content(pubkey: string, d: string, fields: seq<string>)

  datatype Advert = Advert(
    id: string, createdAt: int, address: string, content: Content, relay: string, relays: set<string>, incoming: bool)

  // ---------- The order of events at one address ----------

  /** Lexicographic order of strings. */
  predicate Less(s: string, t: string) {
    if t == "" then false
    else if s == "" then true
    else if s[0] != t[0] then s[0] < t[0]
    else Less(s[1..], t[1..])
  }

  lemma {:induction false} LessTotal(s: string, t: string)
    ensures s == t || Less(s, t) || Less(t, s)
    ensures !(Less(s, t) && Less(t, s))
    ensures s == t ==> !Less(s, t)
  {
    if s != "" && t != "" && s[0] == t[0] {
      LessTotal(s[1..], t[1..]);
      assert s == [s[0]] + s[1..] && t == [t[0]] + t[1..];
    }
  }

  lemma {:induction false} LessTransitive(s: string, t: string, u: string)
    requires Less(s, t) && Less(t, u)
    ensures Less(s, u)
  {
    if s != "" && s[0] == t[0] == u[0] {
      LessTransitive(s[1..], t[1..], u[1..]);
    }
  }

  /** `a` replaces `b`: it is newer, or as new with a lower id. */
  predicate Replaces(a: Advert, b: Advert) {
    a.createdAt > b.createdAt || (a.createdAt == b.createdAt && Less(a.id, b.id))
  }

  /** `s` and `t` agree before `n`, and there `s` has the lower character or has ended. */
  predicate LowerAt(s: string, t: string, n: nat) {
    n <= |s| && n < |t| && s[..n] == t[..n] && (n < |s| ==> s[n] < t[n])
  }

  /** At the first place where they differ, `s` is lower. */
  ghost predicate Precedes(s: string, t: string) {
    exists n: nat :: LowerAt(s, t, n)
  }

  lemma LowerLater(s: string, t: string, n: nat)
    requires s != "" && t != "" && s[0] == t[0]
    ensures LowerAt(s, t, n + 1) <==> LowerAt(s[1..], t[1..], n)
  {
    if n + 1 <= |s| && n + 1 <= |t| {
      assert s[..n + 1] == [s[0]] + s[1..][..n] && t[..n + 1] == [t[0]] + t[1..][..n];
      assert s[1..][..n] == s[..n + 1][1..] && t[1..][..n] == t[..n + 1][1..];
    }
  }

  lemma LowerStart(s: string, t: string, n: nat)
    requires LowerAt(s, t, n)
    ensures t != ""
    ensures n > 0 ==> s != "" && s[0] == t[0]
  {
    if n > 0 {
      assert s[..n][0] == s[0] && t[..n][0] == t[0];
    }
  }

  lemma {:induction false} LessMeans(s: string, t: string)
    ensures Less(s, t) <==> Precedes(s, t)
  {
    if Precedes(s, t) {
      var n: nat :| LowerAt(s, t, n);
      LowerStart(s, t, n);
      if n > 0 {
        LowerLater(s, t, n - 1);
        LessMeans(s[1..], t[1..]);
      }
    }
    if Less(s, t) {
      if s != "" && s[0] == t[0] {
        LessMeans(s[1..], t[1..]);
        var n: nat :| LowerAt(s[1..], t[1..], n);
        LowerLater(s, t, n);
      } else {
        assert s[..0] == t[..0];
        assert LowerAt(s, t, 0);
      }
    }
  }

  /** What replacing means: newer, or as new with an id that precedes. */
  lemma ReplacesMeans(a: Advert, b: Advert)
    ensures Replaces(a, b) <==> a.createdAt > b.createdAt || (a.createdAt == b.createdAt && Precedes(a.id, b.id))
  {
    hide Less, Precedes;
    LessMeans(a.id, b.id);
  }

  /** No arrival at the address replaces the kept entry, in both ways of saying it. */
  lemma NoneReplaces(arrivals: seq<Advert>, address: string, kept: Advert)
    ensures (forall i :: At(arrivals, i, address) ==> !Replaces(arrivals[i], kept)) <==>
            && (forall i :: At(arrivals, i, address) ==> arrivals[i].createdAt <= kept.createdAt)
            && (forall i :: At(arrivals, i, address) && arrivals[i].createdAt == kept.createdAt ==>
                  !Precedes(arrivals[i].id, kept.id))
  {
    hide Replaces, Precedes;
    forall i | At(arrivals, i, address)
      ensures Replaces(arrivals[i], kept) <==>
              || arrivals[i].createdAt > kept.createdAt
              || (arrivals[i].createdAt == kept.createdAt && Precedes(arrivals[i].id, kept.id))
    {
      ReplacesMeans(arrivals[i], kept);
    }
  }

  lemma ReplacesTransitive(a: Advert, b: Advert, c: Advert)
    requires !Replaces(a, b) && !Replaces(b, c)
    ensures !Replaces(a, c)
  {
    LessTotal(a.id, b.id);
    LessTotal(b.id, c.id);
    LessTotal(a.id, c.id);
    if Less(a.id, c.id) && Less(c.id, b.id) {
      LessTransitive(a.id, c.id, b.id);
    }
    if Less(b.id, a.id) && Less(a.id, c.id) {
      LessTransitive(b.id, a.id, c.id);
    }
  }

  // ---------- Merging ----------

  /** What remains of an arrival and the entry it meets. */
  function Winning(a: Advert, current: Advert): Advert {
    var relays := current.relays + {a.relay};
    if Replaces(a, current) then a.(relays := relays, incoming := a.incoming || current.incoming)
    else current.(relays := relays, incoming := current.incoming || a.incoming)
  }

  /** One arrival. */
  function Step(board: map<string, Advert>, a: Advert): map<string, Advert> {
    board[a.address := if a.address in board then Winning(a, board[a.address]) else a]
  }

  function Merge(arrivals: seq<Advert>): map<string, Advert> {
    if arrivals == [] then map[] else Step(Merge(arrivals[..|arrivals| - 1]), arrivals[|arrivals| - 1])
  }

  /** An advert as it is parsed: seen on the one relay that delivered it. */
  predicate Parsed(a: Advert) {
    a.relays == {a.relay}
  }

  /** The arrivals at an address. */
  predicate At(arrivals: seq<Advert>, i: int, address: string) {
    0 <= i < |arrivals| && arrivals[i].address == address
  }

  /** `kept` is the winner of the arrivals at its address, with what all of them add. */
  ghost predicate Summarizes(arrivals: seq<Advert>, address: string, kept: Advert) {
    && kept.address == address
    && (exists i :: At(arrivals, i, address) && arrivals[i].id == kept.id && arrivals[i].createdAt == kept.createdAt
                    && arrivals[i].content == kept.content && arrivals[i].relay == kept.relay)
    && (forall i :: At(arrivals, i, address) ==> arrivals[i].createdAt <= kept.createdAt)
    && (forall i :: At(arrivals, i, address) && arrivals[i].createdAt == kept.createdAt ==>
          !Precedes(arrivals[i].id, kept.id))
    && (forall r :: r in kept.relays <==> exists i :: At(arrivals, i, address) && arrivals[i].relay == r)
    && (kept.incoming <==> exists i :: At(arrivals, i, address) && arrivals[i].incoming)
  }

  lemma StepElsewhere(arrivals: seq<Advert>, a: Advert, address: string, kept: Advert)
    requires a.address != address && Summarizes(arrivals, address, kept)
    ensures Summarizes(arrivals + [a], address, kept)
  {
    hide Replaces;
    var all := arrivals + [a];
    forall i
      ensures At(all, i, address) <==> At(arrivals, i, address)
      ensures At(all, i, address) ==> all[i] == arrivals[i]
    {}
  }

  lemma StepFirst(arrivals: seq<Advert>, a: Advert)
    requires Parsed(a) && forall i :: !At(arrivals, i, a.address)
    ensures Summarizes(arrivals + [a], a.address, a)
  {
    var all := arrivals + [a];
    LessTotal(a.id, a.id);
    forall i
      ensures At(all, i, a.address) <==> i == |arrivals|
    {
      assert 0 <= i < |arrivals| ==> all[i] == arrivals[i];
      assert !At(arrivals, i, a.address);
    }
    assert At(all, |arrivals|, a.address) && all[|arrivals|] == a;
    NoneReplaces(all, a.address, a);
  }

  lemma StepAgain(arrivals: seq<Advert>, a: Advert, current: Advert)
    requires Summarizes(arrivals, a.address, current)
    ensures Summarizes(arrivals + [a], a.address, Winning(a, current))
  {
    hide Replaces, Precedes;
    NoneReplaces(arrivals, a.address, current);
    var all, address, n := arrivals + [a], a.address, |arrivals|;
    var kept := Winning(a, current);
    forall i
      ensures At(all, i, address) <==> At(arrivals, i, address) || i == n
      ensures At(arrivals, i, address) ==> all[i] == arrivals[i]
    {}
    assert all[n] == a;
    ReplacesOrNot(a, current);
    forall i | At(all, i, address)
      ensures !Replaces(all[i], kept)
    {
      if i == n {
        SameRank(a, kept, current);
      } else {
        Outranked(all[i], a, current, kept);
      }
    }
    var w :| At(arrivals, w, address) && arrivals[w].id == current.id && arrivals[w].createdAt == current.createdAt
             && arrivals[w].content == current.content && arrivals[w].relay == current.relay;
    if Replaces(a, current) {
      assert At(all, n, address);
    } else {
      assert At(all, w, address);
    }
    NoneReplaces(all, address, kept);
    RelaysMore(arrivals, a, current, kept);
    IncomingMore(arrivals, a, current, kept);
  }

  lemma ReplacesOrNot(a: Advert, b: Advert)
    ensures Replaces(a, b) ==> !Replaces(b, a)
  {
    LessTotal(a.id, b.id);
  }

  lemma SameRank(a: Advert, kept: Advert, current: Advert)
    requires if Replaces(a, current) then kept.id == a.id && kept.createdAt == a.createdAt
             else kept.id == current.id && kept.createdAt == current.createdAt
    ensures !Replaces(a, kept)
  {
    LessTotal(a.id, a.id);
  }

  lemma Outranked(b: Advert, a: Advert, current: Advert, kept: Advert)
    requires !Replaces(b, current)
    requires if Replaces(a, current) then kept.id == a.id && kept.createdAt == a.createdAt
             else kept.id == current.id && kept.createdAt == current.createdAt
    ensures !Replaces(b, kept)
  {
    if Replaces(a, current) {
      ReplacesOrNot(a, current);
      ReplacesTransitive(b, current, a);
    }
  }

  lemma RelaysMore(arrivals: seq<Advert>, a: Advert, current: Advert, kept: Advert)
    requires Summarizes(arrivals, a.address, current) && kept.relays == current.relays + {a.relay}
    ensures forall r :: r in kept.relays <==> exists i :: At(arrivals + [a], i, a.address) && (arrivals + [a])[i].relay == r
  {
    hide Replaces;
    var all := arrivals + [a];
    AtMore(arrivals, a);
    forall r
      ensures r in kept.relays <==> exists i :: At(all, i, a.address) && all[i].relay == r
    {
      if r == a.relay {
        assert At(all, |arrivals|, a.address) && all[|arrivals|].relay == r;
      } else if r in current.relays {
        var i :| At(arrivals, i, a.address) && arrivals[i].relay == r;
        assert At(all, i, a.address) && all[i].relay == r;
      }
    }
  }

  lemma AtMore(arrivals: seq<Advert>, a: Advert)
    ensures forall i :: At(arrivals + [a], i, a.address) <==> At(arrivals, i, a.address) || i == |arrivals|
    ensures forall i :: At(arrivals, i, a.address) ==> (arrivals + [a])[i] == arrivals[i]
    ensures (arrivals + [a])[|arrivals|] == a
  {}

  lemma IncomingMore(arrivals: seq<Advert>, a: Advert, current: Advert, kept: Advert)
    requires Summarizes(arrivals, a.address, current) && kept.incoming == (current.incoming || a.incoming)
    ensures kept.incoming <==> exists i :: At(arrivals + [a], i, a.address) && (arrivals + [a])[i].incoming
  {
    hide Replaces;
    var all := arrivals + [a];
    AtMore(arrivals, a);
    if a.incoming {
      assert At(all, |arrivals|, a.address) && all[|arrivals|].incoming;
    } else if current.incoming {
      var i :| At(arrivals, i, a.address) && arrivals[i].incoming;
      assert At(all, i, a.address) && all[i].incoming;
    }
  }

  /** Main result: whatever arrives, in whatever order, an address is listed exactly if something
      arrived there, and its entry is the newest event, the lowest id among equals, with all the
      relays it was seen on, marked incoming if any arrival was. */
  lemma {:induction false} MergeSummarizes(arrivals: seq<Advert>, address: string)
    requires forall i :: 0 <= i < |arrivals| ==> Parsed(arrivals[i])
    ensures address in Merge(arrivals) <==> exists i :: At(arrivals, i, address)
    ensures address in Merge(arrivals) ==> Summarizes(arrivals, address, Merge(arrivals)[address])
  {
    hide Step, Summarizes;
    if arrivals != [] {
      var init, a := arrivals[..|arrivals| - 1], arrivals[|arrivals| - 1];
      assert arrivals == init + [a];
      MergeSummarizes(init, address);
      Locate(init, a, address);
      StepAt(Merge(init), a, address);
      if a.address != address {
        if address in Merge(init) {
          StepElsewhere(init, a, address, Merge(init)[address]);
        }
      } else if address in Merge(init) {
        StepAgain(init, a, Merge(init)[address]);
      } else {
        StepFirst(init, a);
      }
    }
  }

  lemma Locate(init: seq<Advert>, a: Advert, address: string)
    ensures (exists i :: At(init + [a], i, address)) <==> a.address == address || exists i :: At(init, i, address)
  {
    var all := init + [a];
    assert At(all, |init|, address) <==> a.address == address;
    if i :| At(all, i, address) {
      assert i < |init| ==> At(init, i, address);
    }
    if i :| At(init, i, address) {
      assert At(all, i, address);
    }
  }

  lemma StepAt(board: map<string, Advert>, a: Advert, address: string)
    ensures address in Step(board, a) <==> address in board || address == a.address
    ensures address != a.address && address in board ==> Step(board, a)[address] == board[address]
    ensures a.address !in board ==> Step(board, a)[a.address] == a
    ensures a.address in board ==> Step(board, a)[a.address] == Winning(a, board[a.address])
  {
    hide Replaces;
  }

  // ---------- Order and repetition ----------

  /** An id names one event. */
  predicate Consistent(arrivals: seq<Advert>) {
    forall i, j :: 0 <= i < |arrivals| && 0 <= j < |arrivals| && arrivals[i].id == arrivals[j].id ==>
      arrivals[i].createdAt == arrivals[j].createdAt && arrivals[i].content == arrivals[j].content
  }

  /** The parts of an entry that do not say which delivery it came from. */
  function Shown(a: Advert): (string, int, string, Content, set<string>, bool) {
    (a.id, a.createdAt, a.address, a.content, a.relays, a.incoming)
  }

  lemma SameSummary(arrivals: seq<Advert>, others: seq<Advert>, address: string, k: Advert, l: Advert)
    requires Summarizes(arrivals, address, k) && Summarizes(others, address, l)
    requires forall a :: a in arrivals <==> a in others
    requires Consistent(arrivals)
    ensures Shown(k) == Shown(l)
  {
    hide Replaces, Less, Summarizes, At, Consistent;
    var a := Winner(arrivals, others, address, k, l);
    var b := Winner(others, arrivals, address, l, k);
    SameRankSameId(a, b, k, l);
    SameContent(arrivals, a, b);
    SameExtras(arrivals, others, address, k, l);
    SameExtras(others, arrivals, address, l, k);
    assert k.relays == l.relays;
    assert k.content == l.content && k.id == l.id && k.createdAt == l.createdAt && k.incoming == l.incoming;
    assert k.address == address == l.address by {
      SameAddress(arrivals, address, k);
      SameAddress(others, address, l);
    }
  }

  lemma SameAddress(arrivals: seq<Advert>, address: string, k: Advert)
    requires Summarizes(arrivals, address, k)
    ensures k.address == address
  {
    hide Replaces;
  }

  lemma SameContent(arrivals: seq<Advert>, a: Advert, b: Advert)
    requires Consistent(arrivals) && a in arrivals && b in arrivals && a.id == b.id
    ensures a.content == b.content
  {}

  /** The arrival an entry stands for is among the other arrivals too, and loses to their entry. */
  lemma Winner(arrivals: seq<Advert>, others: seq<Advert>, address: string, k: Advert, l: Advert) returns (a: Advert)
    requires Summarizes(arrivals, address, k) && Summarizes(others, address, l)
    requires forall a :: a in arrivals ==> a in others
    ensures a in arrivals && a in others && !Replaces(a, l)
    ensures a.id == k.id && a.createdAt == k.createdAt && a.content == k.content
  {
    hide Replaces, Precedes;
    NoneReplaces(others, address, l);
    Carried(arrivals, others, address);
    var i :| At(arrivals, i, address) && arrivals[i].id == k.id && arrivals[i].createdAt == k.createdAt
             && arrivals[i].content == k.content;
    a := arrivals[i];
    var j :| At(others, j, address) && others[j] == a;
  }

  lemma SameExtras(arrivals: seq<Advert>, others: seq<Advert>, address: string, k: Advert, l: Advert)
    requires Summarizes(arrivals, address, k) && Summarizes(others, address, l)
    requires forall a :: a in arrivals ==> a in others
    ensures forall r :: r in k.relays ==> r in l.relays
    ensures k.incoming ==> l.incoming
  {
    hide Replaces;
    Carried(arrivals, others, address);
    forall r | r in k.relays
      ensures r in l.relays
    {
      var i :| At(arrivals, i, address) && arrivals[i].relay == r;
      var j :| At(others, j, address) && others[j] == arrivals[i];
    }
    if k.incoming {
      var i :| At(arrivals, i, address) && arrivals[i].incoming;
      var j :| At(others, j, address) && others[j] == arrivals[i];
    }
  }

  lemma SameRankSameId(a: Advert, b: Advert, k: Advert, l: Advert)
    requires a.id == k.id && a.createdAt == k.createdAt && b.id == l.id && b.createdAt == l.createdAt
    requires !Replaces(a, l) && !Replaces(b, k)
    ensures k.id == l.id && k.createdAt == l.createdAt
  {
    LessTotal(k.id, l.id);
  }

  lemma Carried(arrivals: seq<Advert>, others: seq<Advert>, address: string)
    requires forall a :: a in arrivals ==> a in others
    ensures forall i :: At(arrivals, i, address) ==> exists j :: At(others, j, address) && others[j] == arrivals[i]
  {
    forall i | At(arrivals, i, address)
      ensures exists j :: At(others, j, address) && others[j] == arrivals[i]
    {
      assert arrivals[i] in others;
      var j :| 0 <= j < |others| && others[j] == arrivals[i];
      assert At(others, j, address);
    }
  }

  /** Main result: merging does not depend on the order or the repetition of arrivals. */
  lemma OrderAndRepetitionDoNotMatter(arrivals: seq<Advert>, others: seq<Advert>, address: string)
    requires forall i :: 0 <= i < |arrivals| ==> Parsed(arrivals[i])
    requires forall a :: a in arrivals <==> a in others
    requires Consistent(arrivals)
    ensures address in Merge(arrivals) <==> address in Merge(others)
    ensures address in Merge(arrivals) ==> Shown(Merge(arrivals)[address]) == Shown(Merge(others)[address])
  {
    hide Merge, Summarizes, Consistent, Shown;
    forall i | 0 <= i < |others|
      ensures Parsed(others[i])
    {
      assert others[i] in arrivals;
    }
    MergeSummarizes(arrivals, address);
    MergeSummarizes(others, address);
    Carried(arrivals, others, address);
    Carried(others, arrivals, address);
    if address in Merge(arrivals) {
      SameSummary(arrivals, others, address, Merge(arrivals)[address], Merge(others)[address]);
    }
  }

  /** The one field left out of `Shown`: the same event from two relays keeps the relay that
      delivered it first. */
  lemma RelayIsTheFirst(a: Advert, relay: string)
    ensures var b := a.(relay := relay, relays := {relay});
            a.address in Merge([a, b]) && Merge([a, b])[a.address].relay == a.relay
  {
    var b := a.(relay := relay, relays := {relay});
    LessTotal(a.id, a.id);
    assert [a, b][..1] == [a] && [a][..0] == [];
    assert Merge([a]) == Step(map[], a);
    assert Merge([a, b]) == Step(Merge([a]), b);
  }

  // ---------- The board of the page ----------

  /** One parsed advert, an object that merging changes in place. */
  class Entry {
    const id: string
    const createdAt: int
    const address: string
    const content: Content
    const relay: string
    var relays: set<string>
    var incoming: bool

    constructor (a: Advert)
      ensures Value() == a
    {
      id, createdAt, address, content, relay := a.id, a.createdAt, a.address, a.content, a.relay;
      relays, incoming := a.relays, a.incoming;
    }

    function Value(): Advert
      reads this
    {
      Advert(id, createdAt, address, content, relay, relays, incoming)
    }
  }

  class Board {
    var byAddress: map<string, Entry>

    constructor ()
      ensures Valid() && byAddress == map[] && View() == map[]
    {
      byAddress := map[];
    }

    ghost predicate Valid()
      reads this
    {
      forall k :: k in byAddress ==> byAddress[k].address == k
    }

    ghost function View(): map<string, Advert>
      reads this, byAddress.Values
    {
      map k | k in byAddress :: byAddress[k].Value()
    }

    /** `upsertAdvert`, on an entry just parsed. */
    method Upsert(advert: Entry)
      requires Valid() && forall k :: k in byAddress ==> byAddress[k] != advert
      modifies this, advert, byAddress.Values
      ensures Valid() && View() == Step(old(View()), old(advert.Value()))
      ensures forall k :: k in byAddress ==> byAddress[k] == advert || (k in old(byAddress) && byAddress[k] == old(byAddress)[k])
    {
      hide Replaces, Winning;
      if advert.address !in byAddress {
        byAddress := byAddress[advert.address := advert];
        return;
      }
      var current := byAddress[advert.address];
      assert current in byAddress.Values;
      var replaced := Meet(advert, current);
      if replaced {
        byAddress := byAddress[advert.address := advert];
      }
    }
  }

  /** A new entry meets the one at its address: one of them takes over what both have seen. */
  method Meet(advert: Entry, current: Entry) returns (replaced: bool)
    requires advert != current
    modifies advert, current
    ensures (if replaced then advert else current).Value() == Winning(old(advert.Value()), old(current.Value()))
  {
    hide Replaces;
    current.relays := current.relays + {advert.relay};
    SameReplaces(advert.Value(), old(advert.Value()), current.Value(), old(current.Value()));
    if Replaces(advert.Value(), current.Value()) {
      advert.relays := current.relays;
      advert.incoming := advert.incoming || current.incoming;
      return true;
    }
    if advert.incoming {
      current.incoming := true;
    }
    return false;
  }

  lemma SameReplaces(a: Advert, a': Advert, b: Advert, b': Advert)
    requires a.id == a'.id && a.createdAt == a'.createdAt && b.id == b'.id && b.createdAt == b'.createdAt
    ensures Replaces(a, b) == Replaces(a', b')
  {}

  /** A whole run of arrivals fills the board with their merge. */
  method Collect(arrivals: seq<Advert>) returns (board: Board)
    ensures fresh(board) && board.Valid() && board.View() == Merge(arrivals)
  {
    hide Step;
    board := new Board();
    for i := 0 to |arrivals|
      invariant fresh(board) && board.Valid() && forall k :: k in board.byAddress ==> fresh(board.byAddress[k])
      invariant board.View() == Merge(arrivals[..i])
    {
      var entry := new Entry(arrivals[i]);
      board.Upsert(entry);
      assert arrivals[..i + 1][..i] == arrivals[..i];
    }
    assert arrivals[..|arrivals|] == arrivals;
  }
}
