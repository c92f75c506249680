/** Idempotency of partner events: the durable record of event ids, and the
    pipeline that consults it before an event may raise an alarm. */
module EventLedger {
  import opened Base

  const MAX_SEEN_PER_LINK: nat := 4096
  const DEFAULT_SEEN_FOR: Duration := HOUR

  // ---- The record of event ids -------------------------------------------------

  /** One row of the table: an event id and when it was first taken. */
  datatype Row = Row(eventID: string, seenAt: Time)

  /** A link's rows, oldest first, and in the order they came among equals. */
  type Rows = seq<Row>

  type Ledger = map<string, Rows>

  function RowsOf(seen: Ledger, link: string): Rows {
    if link in seen then seen[link] else []
  }

  function Keep(rows: Rows, p: Row -> bool): Rows {
    if rows == [] then [] else (if p(rows[0]) then [rows[0]] else []) + Keep(rows[1..], p)
  }

  function Unexpired(rows: Rows, now: Time, ttl: Duration): Rows {
    if ttl > 0 then Keep(rows, (r: Row) => r.seenAt >= now - ttl) else rows
  }

  function Without(rows: Rows, id: string): Rows {
    Keep(rows, (r: Row) => r.eventID != id)
  }

  function Insert(rows: Rows, r: Row): Rows {
    if rows == [] || rows[|rows| - 1].seenAt <= r.seenAt then rows + [r]
    else Insert(rows[..|rows| - 1], r) + [rows[|rows| - 1]]
  }

  /** Only the newest are kept. */
  function Trim(rows: Rows): Rows {
    if |rows| > MAX_SEEN_PER_LINK then rows[|rows| - MAX_SEEN_PER_LINK..] else rows
  }

  predicate Has(rows: Rows, id: string) {
    exists i :: 0 <= i < |rows| && rows[i].eventID == id
  }

  /** Expiry touches every link's rows; the rest touches one link's. */
  function Expire(seen: Ledger, now: Time, ttl: Duration): Ledger {
    map l | l in seen :: Unexpired(seen[l], now, ttl)
  }

  function Taken(seen: Ledger, link: string, id: string, now: Time, ttl: Duration): (Ledger, bool) {
    var live := Expire(seen, now, ttl);
    var rows := RowsOf(live, link);
    if Has(rows, id) then (live, true) else (live[link := Trim(Insert(rows, Row(id, now)))], false)
  }

  function Forgotten(seen: Ledger, link: string, id: string): Ledger {
    if link in seen then seen[link := Without(seen[link], id)] else seen
  }

  // ---- The pipeline ----------------------------------------------------------------

  /** Refusals that come before the record of event ids is looked at. */
  datatype Early = Unparsed | Invalid | NoCommercialPermission

  datatype Refusal = AtOnce(why: Early) | StoreFault | IngestFailed

  datatype Outcome = Refused(why: Refusal) | Duplicate | Ingested

  /** One authenticated event request, and what everything it meets answers:
      validation, the permission verdict after the event's own word, the store,
      the engine, and the store again. */
  datatype Try = Try(
    link: string, id: string, now: Time,
    refusal: Option<Early>, storeUp: bool, ingests: bool, forgets: bool)
  {
    function Handle(seen: Ledger, ttl: Duration): (Ledger, Outcome) {
      if refusal.Some? then (seen, Refused(AtOnce(refusal.value)))
      else if !storeUp then (seen, Refused(StoreFault))
      else
        var (next, dup) := Taken(seen, link, id, now, ttl);
        if dup then (next, Duplicate)
        else if ingests then (next, Ingested)
        else (if forgets then Forgotten(next, link, id) else next, Refused(IngestFailed))
    }

    /** Whether the attempt got as far as taking a row. */
    predicate Records(seen: Ledger, ttl: Duration) {
      refusal.None? && storeUp && !Taken(seen, link, id, now, ttl).1
    }
  }

  function After(seen: Ledger, ttl: Duration, t: Try): Ledger {
    t.Handle(seen, ttl).0
  }

  /** What the j-th request of the run is told. */
  function OutcomeAt(seen: Ledger, ttl: Duration, run: seq<Try>, j: nat): Outcome
    requires j < |run|
    decreases j
  {
    if j == 0 then run[0].Handle(seen, ttl).1 else OutcomeAt(After(seen, ttl, run[0]), ttl, run[1..], j - 1)
  }

  /** How many rows of the link the first j requests took. */
  function RecordedBy(seen: Ledger, ttl: Duration, run: seq<Try>, link: string, j: nat): nat
    requires j <= |run|
    decreases j
  {
    if j == 0 then 0
    else (if run[0].link == link && run[0].Records(seen, ttl) then 1 else 0)
         + RecordedBy(After(seen, ttl, run[0]), ttl, run[1..], link, j - 1)
  }

  predicate Ascending(run: seq<Try>) {
    forall i, j :: 0 <= i < j < |run| ==> run[i].now <= run[j].now
  }

  // ---- Lists ------------------------------------------------------------------------

  lemma KeepFirst(r: Row, rest: Rows, p: Row -> bool)
    ensures Keep([r] + rest, p) == (if p(r) then [r] else []) + Keep(rest, p)
  {
    assert ([r] + rest)[1..] == rest;
  }

  lemma {:induction false} KeepJoins(a: Rows, b: Rows, p: Row -> bool)
    ensures Keep(a + b, p) == Keep(a, p) + Keep(b, p)
    decreases |a|
  {
    if a == [] {
      assert a + b == b;
    } else {
      var first, rest := a[0], a[1..];
      KeepJoins(rest, b, p);
      KeepFirst(first, rest + b, p);
      KeepFirst(first, rest, p);
      assert a == [first] + rest && a + b == [first] + (rest + b);
    }
  }

  lemma {:induction false} KeptRows(rows: Rows, p: Row -> bool)
    ensures |Keep(rows, p)| <= |rows|
    ensures forall r :: r in Keep(rows, p) <==> r in rows && p(r)
  {
    if rows != [] {
      KeptRows(rows[1..], p);
      assert rows == [rows[0]] + rows[1..];
    }
  }

  /** The row is in the list with at most n rows after it. */
  ghost predicate Held(rows: Rows, r: Row, n: nat) {
    exists i :: 0 <= i < |rows| && rows[i] == r && |rows| - 1 - i <= n
  }

  lemma HeldIsHad(rows: Rows, r: Row, n: nat)
    requires Held(rows, r, n)
    ensures Has(rows, r.eventID)
  {
  }

  lemma KeepHolds(rows: Rows, r: Row, n: nat, p: Row -> bool)
    requires Held(rows, r, n) && p(r)
    ensures Held(Keep(rows, p), r, n)
  {
    var i :| 0 <= i < |rows| && rows[i] == r && |rows| - 1 - i <= n;
    var a, b := rows[..i], rows[i + 1..];
    assert rows == a + ([r] + b);
    KeepJoins(a, [r] + b, p);
    KeepJoins([r], b, p);
    assert Keep([r], p) == [r];
    KeptRows(b, p);
    assert Keep(rows, p)[|Keep(a, p)|] == r;
  }

  ghost predicate AllBy(rows: Rows, now: Time) {
    forall i :: 0 <= i < |rows| ==> rows[i].seenAt <= now
  }

  lemma KeepAllBy(rows: Rows, now: Time, p: Row -> bool)
    requires AllBy(rows, now)
    ensures AllBy(Keep(rows, p), now)
  {
    KeptRows(rows, p);
    forall i | 0 <= i < |Keep(rows, p)|
      ensures Keep(rows, p)[i].seenAt <= now
    {
      assert Keep(rows, p)[i] in rows;
    }
  }

  // ---- Once -------------------------------------------------------------------------

  ghost predicate LedgerBy(seen: Ledger, now: Time) {
    forall l :: l in seen ==> AllBy(seen[l], now)
  }

  /** Everything after the first check, on one link's rows. */
  lemma ExpiryHolds(rows: Rows, r: Row, n: nat, now: Time, ttl: Duration)
    requires Held(rows, r, n) && now - r.seenAt <= ttl && AllBy(rows, now)
    ensures Held(Unexpired(rows, now, ttl), r, n) && AllBy(Unexpired(rows, now, ttl), now)
  {
    if ttl > 0 {
      KeepHolds(rows, r, n, (x: Row) => x.seenAt >= now - ttl);
      KeepAllBy(rows, now, (x: Row) => x.seenAt >= now - ttl);
    }
  }

  lemma ExpiryIsBy(rows: Rows, now: Time, ttl: Duration)
    requires AllBy(rows, now)
    ensures AllBy(Unexpired(rows, now, ttl), now)
  {
    if ttl > 0 {
      KeepAllBy(rows, now, (x: Row) => x.seenAt >= now - ttl);
    }
  }

  lemma StaysBy(seen: Ledger, ttl: Duration, t: Try)
    requires LedgerBy(seen, t.now)
    ensures LedgerBy(After(seen, ttl, t), t.now)
  {
    var live := Expire(seen, t.now, ttl);
    forall l | l in live
      ensures AllBy(live[l], t.now)
    {
      ExpiryIsBy(seen[l], t.now, ttl);
    }
    var rows := RowsOf(live, t.link);
    assert AllBy(rows, t.now);
    var inserted := Trim(Insert(rows, Row(t.id, t.now)));
    assert AllBy(inserted, t.now);
    KeepAllBy(inserted, t.now, (r: Row) => r.eventID != t.id);
  }

  /** One request later the row is still there, at most one row further back,
      unless that would push it past the cap. */
  lemma RowOutlivesARequest(seen: Ledger, ttl: Duration, t: Try, link: string, r: Row, n: nat)
    requires LedgerBy(seen, t.now) && t.now - r.seenAt <= ttl
    requires Held(RowsOf(seen, link), r, n)
    ensures t.link == link && t.id == r.eventID ==>
              t.Handle(seen, ttl).1 != Ingested && !t.Records(seen, ttl)
    ensures var more := n + if t.link == link && t.Records(seen, ttl) then 1 else 0;
            more < MAX_SEEN_PER_LINK ==> Held(RowsOf(After(seen, ttl, t), link), r, more)
  {
    var live := RowsOf(Expire(seen, t.now, ttl), link);
    ExpiryHolds(RowsOf(seen, link), r, n, t.now, ttl);
    assert live == Unexpired(RowsOf(seen, link), t.now, ttl);
    HeldIsHad(live, r, n);
    if t.link == link && t.Records(seen, ttl) && n + 1 < MAX_SEEN_PER_LINK {
      TakenRowHolds(live, r, n, t);
    }
  }

  lemma TakenRowHolds(live: Rows, r: Row, n: nat, t: Try)
    requires Held(live, r, n) && AllBy(live, t.now) && n + 1 < MAX_SEEN_PER_LINK && !Has(live, t.id)
    ensures var taken := Trim(Insert(live, Row(t.id, t.now)));
            Held(taken, r, n + 1) && Held(Without(taken, t.id), r, n + 1)
  {
    InsertionHolds(live, r, n, Row(t.id, t.now));
    HeldIsHad(live, r, n);
    KeepHolds(Trim(Insert(live, Row(t.id, t.now))), r, n + 1, (x: Row) => x.eventID != t.id);
  }

  lemma InsertionHolds(rows: Rows, r: Row, n: nat, later: Row)
    requires Held(rows, r, n) && AllBy(rows, later.seenAt) && n + 1 < MAX_SEEN_PER_LINK
    ensures Held(Trim(Insert(rows, later)), r, n + 1)
  {
    var i :| 0 <= i < |rows| && rows[i] == r && |rows| - 1 - i <= n;
    var all := rows + [later];
    assert Insert(rows, later) == all;
    if |all| > MAX_SEEN_PER_LINK {
      var cut := |all| - MAX_SEEN_PER_LINK;
      assert Trim(all)[i - cut] == r;
    } else {
      assert all[i] == r;
    }
  }

  lemma {:induction false} AgainOnlyPastTheCap(seen: Ledger, ttl: Duration, run: seq<Try>, j: nat,
                                               link: string, r: Row, n: nat)
    requires j < |run| && Ascending(run) && LedgerBy(seen, run[0].now)
    requires Held(RowsOf(seen, link), r, n)
    requires OutcomeAt(seen, ttl, run, j) == Ingested && run[j].link == link && run[j].id == r.eventID
    requires run[j].now - r.seenAt <= ttl
    ensures n + RecordedBy(seen, ttl, run, link, j) >= MAX_SEEN_PER_LINK
    decreases j
  {
    RowOutlivesARequest(seen, ttl, run[0], link, r, n);
    if j > 0 {
      var next := After(seen, ttl, run[0]);
      var more := n + if run[0].link == link && run[0].Records(seen, ttl) then 1 else 0;
      if more < MAX_SEEN_PER_LINK {
        StaysBy(seen, ttl, run[0]);
        LaterToo(next, run[0].now, run[1].now);
        AgainOnlyPastTheCap(next, ttl, run[1..], j - 1, link, r, more);
      }
    }
  }

  lemma LaterToo(seen: Ledger, now: Time, later: Time)
    requires LedgerBy(seen, now) && now <= later
    ensures LedgerBy(seen, later)
  {
    forall l | l in seen
      ensures AllBy(seen[l], later)
    {
      assert AllBy(seen[l], now);
    }
  }

  lemma IngestionTakesARow(seen: Ledger, ttl: Duration, t: Try)
    requires LedgerBy(seen, t.now) && t.Handle(seen, ttl).1 == Ingested
    ensures Held(RowsOf(After(seen, ttl, t), t.link), Row(t.id, t.now), 0)
  {
    var rows := RowsOf(Expire(seen, t.now, ttl), t.link);
    if t.link in seen {
      ExpiryIsBy(seen[t.link], t.now, ttl);
    }
    var all := rows + [Row(t.id, t.now)];
    assert Insert(rows, Row(t.id, t.now)) == all;
    assert Trim(all)[|Trim(all)| - 1] == Row(t.id, t.now);
  }

  /** The link's record of this id, not yet expired. */
  ghost predicate OnRecord(seen: Ledger, ttl: Duration, link: string, id: string, now: Time) {
    link in seen && exists i :: 0 <= i < |seen[link]| && seen[link][i].eventID == id
                                && (ttl > 0 ==> now - seen[link][i].seenAt <= ttl)
  }

  lemma LiveIsOnRecord(seen: Ledger, ttl: Duration, link: string, id: string, now: Time)
    ensures Has(RowsOf(Expire(seen, now, ttl), link), id) <==> OnRecord(seen, ttl, link, id, now)
  {
    if link in seen {
      var live := Unexpired(seen[link], now, ttl);
      KeptRows(seen[link], (r: Row) => r.seenAt >= now - ttl);
      if Has(live, id) {
        var i :| 0 <= i < |live| && live[i].eventID == id;
        assert live[i] in seen[link];
      }
      if OnRecord(seen, ttl, link, id, now) {
        var i :| 0 <= i < |seen[link]| && seen[link][i].eventID == id
                 && (ttl > 0 ==> now - seen[link][i].seenAt <= ttl);
        assert seen[link][i] in seen[link] && seen[link][i] in live;
      }
    }
  }

  /** Exactly what an event is answered: refused at once for what it is, for a store
      that is down or an engine that would not take it; a duplicate exactly while this
      link's record of its id stands, and ingested exactly when it does not, be it new
      or expired. */
  lemma AnsweredExactlyWhen(seen: Ledger, ttl: Duration, t: Try)
    ensures var out := t.Handle(seen, ttl).1;
            var known := OnRecord(seen, ttl, t.link, t.id, t.now);
            && (t.refusal.Some? ==> out == Refused(AtOnce(t.refusal.value)))
            && (out == Refused(StoreFault) <==> t.refusal.None? && !t.storeUp)
            && (out == Duplicate <==> t.refusal.None? && t.storeUp && known)
            && (out == Ingested <==> t.refusal.None? && t.storeUp && !known && t.ingests)
            && (out == Refused(IngestFailed) <==> t.refusal.None? && t.storeUp && !known && !t.ingests)
  {
    LiveIsOnRecord(seen, ttl, t.link, t.id, t.now);
  }

  /** So an id whose records have all expired is ingested again. */
  lemma AnExpiredIdIsIngestedAgain(seen: Ledger, ttl: Duration, t: Try)
    requires t.refusal.None? && t.storeUp && t.ingests && ttl > 0
    requires forall i :: 0 <= i < |RowsOf(seen, t.link)| && RowsOf(seen, t.link)[i].eventID == t.id ==>
               t.now - RowsOf(seen, t.link)[i].seenAt > ttl
    ensures t.Handle(seen, ttl).1 == Ingested
  {
    AnsweredExactlyWhen(seen, ttl, t);
    assert t.link in seen ==> RowsOf(seen, t.link) == seen[t.link];
  }

  /** An alarm is raised once. If the same link's event id is taken into the
      engine twice, then either the second came more than the record's lifetime
      after the first, or in between the link had taken rows enough to fill its
      whole allowance. No retry extends that lifetime. */
  lemma {:induction false} IngestedAtMostOnce(seen: Ledger, ttl: Duration, run: seq<Try>, i: nat, j: nat)
    requires i < j < |run| && Ascending(run) && LedgerBy(seen, run[0].now)
    requires run[i].link == run[j].link && run[i].id == run[j].id
    requires OutcomeAt(seen, ttl, run, i) == Ingested && OutcomeAt(seen, ttl, run, j) == Ingested
    ensures run[j].now - run[i].now > ttl
            || RecordedBy(seen, ttl, run, run[i].link, j) - RecordedBy(seen, ttl, run, run[i].link, i + 1)
               >= MAX_SEEN_PER_LINK
    decreases i
  {
    var next := After(seen, ttl, run[0]);
    StaysBy(seen, ttl, run[0]);
    LaterToo(next, run[0].now, run[1].now);
    if i == 0 {
      IngestionTakesARow(seen, ttl, run[0]);
      if run[j].now - run[0].now <= ttl {
        AgainOnlyPastTheCap(next, ttl, run[1..], j - 1, run[0].link, Row(run[0].id, run[0].now), 0);
      }
    } else {
      IngestedAtMostOnce(next, ttl, run[1..], i - 1, j - 1);
    }
  }

  // ---- Every reply is earned ----------------------------------------------------------

  /** Every row stands for an ingested event. */
  ghost predicate Earned(seen: Ledger, done: set<(string, string)>) {
    forall l, id :: l in seen && Has(seen[l], id) ==> (l, id) in done
  }

  function Done(seen: Ledger, ttl: Duration, t: Try): set<(string, string)> {
    if t.Handle(seen, ttl).1 == Ingested then {(t.link, t.id)} else {}
  }

  lemma KeepHas(rows: Rows, p: Row -> bool, id: string)
    requires Has(Keep(rows, p), id)
    ensures Has(rows, id) && exists r :: r in rows && r.eventID == id && p(r)
  {
    KeptRows(rows, p);
    var i :| 0 <= i < |Keep(rows, p)| && Keep(rows, p)[i].eventID == id;
    assert Keep(rows, p)[i] in rows && p(Keep(rows, p)[i]);
    var k :| 0 <= k < |rows| && rows[k] == Keep(rows, p)[i];
  }

  lemma {:induction false} InsertHas(rows: Rows, r: Row, id: string)
    requires Has(Insert(rows, r), id)
    ensures Has(rows, id) || id == r.eventID
  {
    var all := Insert(rows, r);
    var i :| 0 <= i < |all| && all[i].eventID == id;
    if rows == [] || rows[|rows| - 1].seenAt <= r.seenAt {
      if i < |rows| {
        assert rows[i] == all[i];
      }
    } else {
      var less := rows[..|rows| - 1];
      if i < |all| - 1 {
        assert Insert(less, r)[i] == all[i];
        InsertHas(less, r, id);
        if Has(less, id) {
          var k :| 0 <= k < |less| && less[k].eventID == id;
          assert rows[k] == less[k];
        }
      } else {
        assert rows[|rows| - 1] == all[i];
      }
    }
  }

  lemma TrimHas(rows: Rows, id: string)
    requires Has(Trim(rows), id)
    ensures Has(rows, id)
  {
    var i :| 0 <= i < |Trim(rows)| && Trim(rows)[i].eventID == id;
    if |rows| > MAX_SEEN_PER_LINK {
      assert rows[|rows| - MAX_SEEN_PER_LINK + i] == Trim(rows)[i];
    }
  }

  lemma ExpiredStaysEarned(seen: Ledger, done: set<(string, string)>, now: Time, ttl: Duration)
    requires Earned(seen, done)
    ensures Earned(Expire(seen, now, ttl), done)
  {
    var live := Expire(seen, now, ttl);
    forall l, id | l in live && Has(live[l], id)
      ensures (l, id) in done
    {
      if ttl > 0 {
        KeepHas(seen[l], (r: Row) => r.seenAt >= now - ttl, id);
      }
      assert Has(seen[l], id);
    }
  }

  lemma StaysEarned(seen: Ledger, ttl: Duration, t: Try, done: set<(string, string)>)
    requires Earned(seen, done) && t.forgets
    ensures Earned(After(seen, ttl, t), done + Done(seen, ttl, t))
    ensures t.Handle(seen, ttl).1 == Duplicate ==> (t.link, t.id) in done
  {
    if t.refusal.None? && t.storeUp {
      var live := Expire(seen, t.now, ttl);
      ExpiredStaysEarned(seen, done, t.now, ttl);
      var rows := RowsOf(live, t.link);
      var next := After(seen, ttl, t);
      var taken := Trim(Insert(rows, Row(t.id, t.now)));
      forall l, id | l in next && Has(next[l], id)
        ensures (l, id) in done + Done(seen, ttl, t)
      {
        if l == t.link && !Has(rows, t.id) {
          if !t.ingests {
            KeepHas(taken, (r: Row) => r.eventID != t.id, id);
          }
          TrimHas(Insert(rows, Row(t.id, t.now)), id);
          InsertHas(rows, Row(t.id, t.now), id);
        }
      }
    }
  }

  lemma {:induction false} DuplicatesWereDone(seen: Ledger, ttl: Duration, run: seq<Try>, j: nat,
                                              done: set<(string, string)>)
    requires j < |run| && Earned(seen, done) && (forall t :: t in run ==> t.forgets)
    requires OutcomeAt(seen, ttl, run, j) == Duplicate
    ensures || (run[j].link, run[j].id) in done
            || exists i :: 0 <= i < j && OutcomeAt(seen, ttl, run, i) == Ingested
                           && run[i].link == run[j].link && run[i].id == run[j].id
    decreases j
  {
    assert run[0] in run;
    StaysEarned(seen, ttl, run[0], done);
    if j > 0 {
      var next := After(seen, ttl, run[0]);
      DuplicatesWereDone(next, ttl, run[1..], j - 1, done + Done(seen, ttl, run[0]));
      if i :| 0 <= i < j - 1 && OutcomeAt(next, ttl, run[1..], i) == Ingested
              && run[1..][i].link == run[j].link && run[1..][i].id == run[j].id {
        assert OutcomeAt(seen, ttl, run, i + 1) == Ingested;
      } else if (run[j].link, run[j].id) !in done {
        assert OutcomeAt(seen, ttl, run, 0) == Ingested;
      }
    }
  }

  /** No alarm is lost by both ends agreeing it was already handled: from an
      empty record, and as long as releasing a record works, an event is
      answered as a duplicate only after that very event was ingested. */
  lemma DuplicatesFollowAnIngest(ttl: Duration, run: seq<Try>, j: nat)
    requires j < |run| && (forall t :: t in run ==> t.forgets)
    requires OutcomeAt(map[], ttl, run, j) == Duplicate
    ensures exists i :: 0 <= i < j && OutcomeAt(map[], ttl, run, i) == Ingested
                        && run[i].link == run[j].link && run[i].id == run[j].id
  {
    DuplicatesWereDone(map[], ttl, run, j, {});
  }

  /** A refusal leaves no record of the event, so its retry can land: tried
      again with nothing in the way, it is ingested, unless the id had been
      taken before the refusal. */
  lemma RefusalLeavesNoRecord(seen: Ledger, ttl: Duration, t: Try, retry: Try)
    requires t.Handle(seen, ttl).1.Refused? && t.forgets
    requires retry.link == t.link && retry.id == t.id
    requires retry.refusal.None? && retry.storeUp && retry.ingests
    requires !Has(RowsOf(seen, t.link), t.id)
    ensures retry.Handle(After(seen, ttl, t), ttl).1 == Ingested
  {
    var next := After(seen, ttl, t);
    if Has(RowsOf(next, t.link), t.id) {
      var taken := Trim(Insert(RowsOf(Expire(seen, t.now, ttl), t.link), Row(t.id, t.now)));
      KeepHas(taken, (r: Row) => r.eventID != t.id, t.id);
    }
    if ttl > 0 && Has(RowsOf(Expire(next, retry.now, ttl), t.link), t.id) {
      KeepHas(next[t.link], (r: Row) => r.seenAt >= retry.now - ttl, t.id);
    }
  }

  /** Without it the promise fails: an ingest that failed and whose record
      could not be released is answered as a duplicate of nothing. */
  lemma AnUnreleasedRecordLosesTheEvent(t: Try)
    requires t.refusal.None? && t.storeUp
    ensures var failed := t.(ingests := false, forgets := false);
            && OutcomeAt(map[], DEFAULT_SEEN_FOR, [failed, t], 0) == Refused(IngestFailed)
            && OutcomeAt(map[], DEFAULT_SEEN_FOR, [failed, t], 1) == Duplicate
  {
    var failed := t.(ingests := false, forgets := false);
    var row := Row(t.id, t.now);
    var next := After(map[], DEFAULT_SEEN_FOR, failed);
    assert Insert([], row) == [row];
    assert next == map[t.link := [row]];
    assert Keep([row], (r: Row) => r.seenAt >= t.now - DEFAULT_SEEN_FOR) == [row];
    assert RowsOf(Expire(next, t.now, DEFAULT_SEEN_FOR), t.link)[0].eventID == t.id;
    assert [failed, t][1..] == [t];
  }

  /** One link can neither spend nor suppress another's events: what a request
      on one link leaves of the others' rows is what expiry would. */
  lemma LinksAreSeparate(seen: Ledger, ttl: Duration, t: Try, other: string)
    requires other != t.link
    ensures var rows := RowsOf(After(seen, ttl, t), other);
            rows == RowsOf(seen, other) || rows == Unexpired(RowsOf(seen, other), t.now, ttl)
  {
  }

  ghost predicate Bounded(seen: Ledger) {
    forall l :: l in seen ==> |seen[l]| <= MAX_SEEN_PER_LINK
  }

  /** No link can grow the table past its allowance. */
  lemma LedgerStaysBounded(seen: Ledger, ttl: Duration, t: Try)
    requires Bounded(seen)
    ensures Bounded(After(seen, ttl, t))
  {
    var live := Expire(seen, t.now, ttl);
    forall l | l in live
      ensures |live[l]| <= MAX_SEEN_PER_LINK
    {
      KeptRows(seen[l], (r: Row) => r.seenAt >= t.now - ttl);
    }
    KeptRows(Trim(Insert(RowsOf(live, t.link), Row(t.id, t.now))), (r: Row) => r.eventID != t.id);
  }

  // ---- The cap is where the promise ends ------------------------------------------------

  function Again(link: string, id: string, now: Time): Try {
    Try(link, id, now, None, true, true, true)
  }

  function Stamped(ids: seq<string>, now: Time): (rows: Rows)
    ensures |rows| == |ids| && forall i :: 0 <= i < |ids| ==> rows[i] == Row(ids[i], now)
  {
    seq(|ids|, i requires 0 <= i < |ids| => Row(ids[i], now))
  }

  lemma {:induction false} FreshRowsStay(rows: Rows, now: Time, ttl: Duration)
    requires forall i :: 0 <= i < |rows| ==> rows[i].seenAt == now
    ensures Unexpired(rows, now, ttl) == rows
  {
    if rows != [] && ttl > 0 {
      FreshRowsStay(rows[1..], now, ttl);
      assert rows == [rows[0]] + rows[1..];
    }
  }

  lemma OneMoreId(link: string, ids: seq<string>, k: nat, now: Time, ttl: Duration)
    requires k < |ids| && Distinct(ids)
    requires k <= MAX_SEEN_PER_LINK
    ensures var t := Again(link, ids[k], now);
            && t.Handle(map[link := Stamped(ids[..k], now)], ttl).1 == Ingested
            && After(map[link := Stamped(ids[..k], now)], ttl, t) == map[link := Trim(Stamped(ids[..k + 1], now))]
  {
    var rows := Stamped(ids[..k], now);
    FreshRowsStay(rows, now, ttl);
    assert Expire(map[link := rows], now, ttl) == map[link := rows];
    assert Insert(rows, Row(ids[k], now)) == Stamped(ids[..k + 1], now);
  }

  /** Every id once, and then the first of them again. */
  function Overfill(link: string, ids: seq<string>, now: Time): (run: seq<Try>)
    requires ids != []
    ensures |run| == |ids| + 1 && run[|ids|] == Again(link, ids[0], now)
    ensures forall i :: 0 <= i < |ids| ==> run[i] == Again(link, ids[i], now)
  {
    seq(|ids| + 1, i requires 0 <= i <= |ids| => Again(link, if i < |ids| then ids[i] else ids[0], now))
  }

  lemma FirstIsForgotten(link: string, ids: seq<string>, now: Time, ttl: Duration)
    requires Distinct(ids) && |ids| == MAX_SEEN_PER_LINK + 1
    ensures Again(link, ids[0], now).Handle(map[link := Trim(Stamped(ids, now))], ttl).1 == Ingested
  {
    var rows := Trim(Stamped(ids, now));
    FreshRowsStay(rows, now, ttl);
    assert Expire(map[link := rows], now, ttl) == map[link := rows];
    assert forall i :: 0 <= i < |rows| ==> rows[i].eventID == ids[i + 1];
  }

  /** The run has taken the first k ids and has the rest before it. */
  ghost predicate Filling(link: string, ids: seq<string>, now: Time, k: nat, seen: Ledger, rest: seq<Try>)
    requires ids != []
  {
    && k <= |ids|
    && seen == map[link := Trim(Stamped(ids[..k], now))]
    && rest == Overfill(link, ids, now)[k..]
  }

  lemma FillOne(link: string, ids: seq<string>, now: Time, ttl: Duration, k: nat, seen: Ledger, rest: seq<Try>)
    requires Distinct(ids) && k < |ids| == MAX_SEEN_PER_LINK + 1 && Filling(link, ids, now, k, seen, rest)
    ensures |rest| > 1 && Filling(link, ids, now, k + 1, After(seen, ttl, rest[0]), rest[1..])
  {
    OneMoreId(link, ids, k, now, ttl);
    assert rest[0] == Again(link, ids[k], now);
    assert rest[1..] == Overfill(link, ids, now)[k + 1..];
  }

  lemma {:induction false} FillingForgets(link: string, ids: seq<string>, now: Time, ttl: Duration, k: nat,
                                          seen: Ledger, rest: seq<Try>)
    requires Distinct(ids) && |ids| == MAX_SEEN_PER_LINK + 1 && Filling(link, ids, now, k, seen, rest)
    ensures rest != [] && OutcomeAt(seen, ttl, rest, |rest| - 1) == Ingested
    decreases |ids| - k
  {
    if k == |ids| {
      assert ids[..k] == ids;
      FirstIsForgotten(link, ids, now, ttl);
      assert rest == [Again(link, ids[0], now)];
    } else {
      FillOne(link, ids, now, ttl, k, seen, rest);
      FillingForgets(link, ids, now, ttl, k + 1, After(seen, ttl, rest[0]), rest[1..]);
    }
  }

  /** Exactly at the cap: once a link has taken its whole allowance of other
      ids, the first one is ingested again, even at the same instant. */
  lemma CapForgetsTheFirst(link: string, ids: seq<string>, now: Time, ttl: Duration, seen: Ledger)
    requires Distinct(ids) && |ids| == MAX_SEEN_PER_LINK + 1
    requires seen == map[link := []]
    ensures var run := Overfill(link, ids, now);
            && OutcomeAt(seen, ttl, run, 0) == Ingested && run[0].id == ids[0]
            && OutcomeAt(seen, ttl, run, |run| - 1) == Ingested && run[|run| - 1].id == ids[0]
  {
    var run := Overfill(link, ids, now);
    assert ids[..0] == [] && Stamped([], now) == [] && run[0..] == run;
    OneMoreId(link, ids, 0, now, ttl);
    FillingForgets(link, ids, now, ttl, 0, seen, run);
  }

  // ---- The durable table ----------------------------------------------------------------

  class SeenStore {
    var rows: Ledger

    constructor ()
      ensures rows == map[]
    {
      rows := map[];
    }

    /** A store that cannot be reached rolls back and says so. */
    method SeenEvent(link: string, id: string, now: Time, ttl: Duration, up: bool) returns (seen: Option<bool>)
      modifies this
      ensures !up ==> seen == None && rows == old(rows)
      ensures up ==> var (next, dup) := Taken(old(rows), link, id, now, ttl);
                     seen == Some(dup) && rows == next
    {
      if !up {
        return None;
      }
      rows := Expire(rows, now, ttl);
      var mine := RowsOf(rows, link);
      for i := 0 to |mine|
        invariant forall k :: 0 <= k < i ==> mine[k].eventID != id
        invariant rows == Expire(old(rows), now, ttl)
      {
        if mine[i].eventID == id {
          return Some(true);
        }
      }
      rows := rows[link := Trim(Insert(mine, Row(id, now)))];
      return Some(false);
    }

    method ForgetEvent(link: string, id: string, up: bool)
      modifies this
      ensures rows == if up then Forgotten(old(rows), link, id) else old(rows)
    {
      if up && link in rows {
        rows := rows[link := Without(rows[link], id)];
      }
    }
  }
}
