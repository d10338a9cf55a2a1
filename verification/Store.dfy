/** The authentication cache: one row per pubkey, with expiry in whole seconds. */
module Store {
  import opened Wrappers

  /** Nanoseconds since the epoch. */
  type Instant = int

  const SECOND: int := 1_000_000_000

  /** Whole seconds, rounded down also before the epoch. */
  function Unix(t: Instant): int {
    t / SECOND
  }

  datatype Row = Row(username: string, verifiedAt: int, expiresAt: int)

  type Table = map<string, Row>

  datatype Entry = Entry(pubkey: string, username: string, expiresAt: int)

  function Lookup(rows: Table, pubkey: string, now: Instant): Option<Entry> {
    if pubkey in rows && rows[pubkey].expiresAt > Unix(now)
    then Some(Entry(pubkey, rows[pubkey].username, rows[pubkey].expiresAt))
    else None
  }

  function Upsert(rows: Table, pubkey: string, username: string, verifiedAt: Instant, expiresAt: Instant): Table {
    rows[pubkey := Row(username, Unix(verifiedAt), Unix(expiresAt))]
  }

  /** Truncating both instants never prolongs a row, and shortens it by less than a second. */
  lemma TruncatedExpiry(expires: Instant, now: Instant)
    ensures Unix(expires) > Unix(now) ==> now < expires
    ensures now + SECOND <= expires ==> Unix(expires) > Unix(now)
  {
    assert expires == Unix(expires) * SECOND + expires % SECOND;
    assert now == Unix(now) * SECOND + now % SECOND;
  }

  /** A stored row answers its own pubkey for its whole lifetime but the last second, never
      afterwards, and leaves every other pubkey alone. */
  lemma StoredLookup(rows: Table, pubkey: string, username: string, start: Instant, expires: Instant, asked: string, now: Instant)
    ensures asked != pubkey ==> Lookup(Upsert(rows, pubkey, username, start, expires), asked, now) == Lookup(rows, asked, now)
    ensures expires <= now ==> Lookup(Upsert(rows, pubkey, username, start, expires), pubkey, now).None?
    ensures now + SECOND <= expires ==>
              Lookup(Upsert(rows, pubkey, username, start, expires), pubkey, now) == Some(Entry(pubkey, username, Unix(expires)))
  {
    TruncatedExpiry(expires, now);
  }

  class Cache {
    var rows: Table

    constructor ()
      ensures rows == map[]
    {
      rows := map[];
    }

    method GetValid(pubkey: string, now: Instant) returns (entry: Option<Entry>)
      ensures entry == Lookup(rows, pubkey, now)
    {
      if pubkey !in rows || rows[pubkey].expiresAt <= Unix(now) {
        return None;
      }
      return Some(Entry(pubkey, rows[pubkey].username, rows[pubkey].expiresAt));
    }

    method Put(pubkey: string, username: string, verifiedAt: Instant, expiresAt: Instant)
      modifies this
      ensures rows == Upsert(old(rows), pubkey, username, verifiedAt, expiresAt)
    {
      rows := rows[pubkey := Row(username, Unix(verifiedAt), Unix(expiresAt))];
    }

    /** The aggregate query, as a scan: every pubkey is counted once, as valid exactly when
        `GetValid` would find it; the bounds are attained, or zero on an empty table. */
    method Summary(now: Instant) returns (total: nat, valid: nat, expired: nat, oldest: int, newest: int)
      ensures total == |rows| == valid + expired
      ensures valid == |Hits(rows, rows.Keys, now)|
      ensures Spans(rows, rows.Keys, oldest, newest)
    {
      hide Spans, Hits;
      total, valid, expired, oldest, newest := 0, 0, 0, 0, 0;
      var todo := rows.Keys;
      ghost var seen: set<string> := {};
      EmptyScan(rows, now);
      while todo != {}
        invariant seen !! todo && seen + todo == rows.Keys
        invariant total == |seen| == valid + expired
        invariant valid == |Hits(rows, seen, now)|
        invariant Spans(rows, seen, oldest, newest)
        decreases todo
      {
        var k :| k in todo;
        ScanOne(rows, seen, k, now, oldest, newest);
        var at := rows[k].verifiedAt;
        if rows[k].expiresAt > Unix(now) {
          valid := valid + 1;
        } else {
          expired := expired + 1;
        }
        oldest := if total == 0 || at < oldest then at else oldest;
        newest := if total == 0 || at > newest then at else newest;
        total := total + 1;
        todo := todo - {k};
        seen := seen + {k};
      }
      assert seen == rows.Keys;
    }
  }

  ghost function Hits(rows: Table, ks: set<string>, now: Instant): set<string> {
    set k | k in ks && Lookup(rows, k, now).Some?
  }

  /** `oldest` and `newest` bound the verification times of `ks` and are attained. */
  ghost predicate Spans(rows: Table, ks: set<string>, oldest: int, newest: int) {
    && ks <= rows.Keys
    && (ks == {} ==> oldest == newest == 0)
    && (forall k :: k in ks ==> oldest <= rows[k].verifiedAt <= newest)
    && (ks != {} ==> exists k :: k in ks && rows[k].verifiedAt == oldest)
    && (ks != {} ==> exists k :: k in ks && rows[k].verifiedAt == newest)
  }

  lemma EmptyScan(rows: Table, now: Instant)
    ensures Hits(rows, {}, now) == {} && Spans(rows, {}, 0, 0)
  {}

  lemma ScanOne(rows: Table, seen: set<string>, k: string, now: Instant, oldest: int, newest: int)
    requires k in rows && k !in seen && Spans(rows, seen, oldest, newest)
    ensures |Hits(rows, seen + {k}, now)| == |Hits(rows, seen, now)| + if rows[k].expiresAt > Unix(now) then 1 else 0
    ensures var at := rows[k].verifiedAt;
            Spans(rows, seen + {k}, if |seen| == 0 || at < oldest then at else oldest,
                                    if |seen| == 0 || at > newest then at else newest)
  {
    if rows[k].expiresAt > Unix(now) {
      assert Hits(rows, seen + {k}, now) == Hits(rows, seen, now) + {k};
    } else {
      assert Hits(rows, seen + {k}, now) == Hits(rows, seen, now);
    }
    var at := rows[k].verifiedAt;
    assert k in seen + {k};
    if |seen| != 0 {
      var i :| i in seen && rows[i].verifiedAt == oldest;
      var j :| j in seen && rows[j].verifiedAt == newest;
      assert i in seen + {k} && j in seen + {k};
    }
  }
}
