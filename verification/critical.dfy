/** When the scheduler closes or holds a critical incident: exactly when a pass
    that scanned it below critical catches it rising. */
module Criticals {
  import opened Base
  import opened Incidents
  import opened Policies
  import opened Stores
  import opened CasLoops
  import opened Scheduling
  import opened AlarmEngine
  import opened Races
  import opened Honesty
  import opened Reaching

  /** The site after the first i steps of the run. */
  ghost function At(s: Site, ls: seq<Label>, i: nat): Site
    requires i <= |ls|
  {
    Exec(s, ls[..i])
  }

  lemma AtNext(s: Site, ls: seq<Label>, i: nat)
    requires i < |ls|
    ensures At(s, ls, i + 1) == Next(At(s, ls, i), ls[i])
  {
    OneMoreStep(s, ls[..i], ls[i]);
    assert ls[..i + 1] == ls[..i] + [ls[i]];
  }

  predicate CriticalRow(s: Site, id: string) {
    id in s.rows && s.rows[id].severity == Critical
  }

  ghost predicate RisesAt(s: Site, ls: seq<Label>, r: nat, id: string)
    requires r < |ls|
  {
    !CriticalRow(At(s, ls, r), id) && CriticalRow(At(s, ls, r + 1), id)
  }

  /** The row becomes critical at some step from a on and before b. */
  ghost predicate RisesBetween(s: Site, ls: seq<Label>, a: nat, b: nat, id: string)
    requires a <= b <= |ls|
  {
    exists r: nat :: a <= r < b && RisesAt(s, ls, r, id)
  }

  lemma {:induction false} Rises(s: Site, ls: seq<Label>, a: nat, b: nat, id: string)
    requires a <= b <= |ls| && !CriticalRow(At(s, ls, a), id) && CriticalRow(At(s, ls, b), id)
    ensures RisesBetween(s, ls, a, b, id)
    decreases b
  {
    if CriticalRow(At(s, ls, b - 1), id) {
      Rises(s, ls, a, b - 1, id);
    } else {
      assert RisesAt(s, ls, b - 1, id);
    }
  }

  // ---- Where copies and intents come from --------------------------------------

  /** The row was stored just so at some earlier moment of the run. */
  ghost predicate Stored(s: Site, ls: seq<Label>, i: nat, r: Record)
    requires i <= |ls|
  {
    exists j: nat :: j < i && r in At(s, ls, j).rows.Values
  }

  /** The scan a scheduler's worker goes back to. */
  function ScanOf(w: Worker): Option<Record> {
    match w
    case Scanned(inc, _) => Some(inc)
    case Delivering(inc, _, _) => Some(inc)
    case EngineRead(_, _) => None
    case _ =>
      match w.intent
      case RecordAlert(scanned, _, _) => Some(scanned)
      case GiveUpOn(scanned, _, _) => Some(scanned)
      case _ => None
  }

  lemma MoveKeepsScan(s: Site, log: seq<Event>, k: nat, w: Worker)
    requires Moves(s, log, k, w) && ScanOf(w).Some?
    ensures || ScanOf(w).value in s.rows.Values
            || (k in s.workers && ScanOf(s.workers[k]) == ScanOf(w))
  {
  }

  lemma {:induction false} ScansWereStored(s: Site, ls: seq<Label>, i: nat, k: nat)
    requires s.workers == map[] && i <= |ls|
    requires k in At(s, ls, i).workers && ScanOf(At(s, ls, i).workers[k]).Some?
    ensures Stored(s, ls, i, ScanOf(At(s, ls, i).workers[k]).value)
    decreases i
  {
    if i > 0 {
      AtNext(s, ls, i - 1);
      var u, t := At(s, ls, i - 1), At(s, ls, i);
      StepIsOfAKind(u, ls[i - 1]);
      if Still(u, t) {
        assert Moves(u, t.log, k, t.workers[k]);
        MoveKeepsScan(u, t.log, k, t.workers[k]);
      }
      if k in u.workers && ScanOf(u.workers[k]) == ScanOf(t.workers[k]) {
        ScansWereStored(s, ls, i - 1, k);
      }
    }
  }

  /** The copy that worker k holds is what its own read found. */
  ghost predicate ReadAt(s: Site, ls: seq<Label>, j: nat, k: nat, id: string, intent: Intent, attempt: nat,
                         copy: Record)
    requires j < |ls|
  {
    var u := At(s, ls, j);
    && ls[j] == Read(k) && k in u.workers && u.workers[k] == Trying(id, intent, attempt)
    && id in u.rows && u.rows[id] == copy
  }

  lemma {:induction false} CopiesWereRead(s: Site, ls: seq<Label>, i: nat, k: nat) returns (j: nat)
    requires s.workers == map[] && i <= |ls|
    requires k in At(s, ls, i).workers && (At(s, ls, i).workers[k].Got? || At(s, ls, i).workers[k].Ready?)
    ensures var w := At(s, ls, i).workers[k];
            j < i && ReadAt(s, ls, j, k, w.id, w.intent, w.attempt, w.copy)
    decreases i
  {
    AtNext(s, ls, i - 1);
    var u, t := At(s, ls, i - 1), At(s, ls, i);
    if k in u.workers && u.workers[k] == t.workers[k] {
      j := CopiesWereRead(s, ls, i - 1, k);
    } else {
      NewCopyIsARead(u, ls[i - 1], k);
      if t.workers[k].Got? {
        j := i - 1;
      } else {
        j := CopiesWereRead(s, ls, i - 1, k);
      }
    }
  }

  // ---- Closing --------------------------------------------------------------------

  /** The scheduler's give-up lands on this row now. */
  ghost predicate GivesUp(s: Site, l: Label, id: string) {
    && l.Swap? && l.k in s.workers && s.workers[l.k].Ready? && s.workers[l.k].intent.GiveUpOn?
    && s.workers[l.k].id == id && Won(s, Next(s, l), l.k)
  }

  /** It closes a critical row: one that is critical before, or is once it is
      closed. */
  ghost predicate ClosesCritical(s: Site, l: Label, id: string) {
    GivesUp(s, l, id) && (CriticalRow(s, id) || CriticalRow(Next(s, l), id))
  }

  /** A ready give-up lands exactly if the row is still under the token that was
      read. */
  lemma GiveUpLandsExactlyWhen(s: Site, k: nat)
    requires Honest(s) && k in s.workers && s.workers[k].Ready? && s.workers[k].intent.GiveUpOn?
    ensures var w := s.workers[k];
            && (GivesUp(s, Swap(k), w.id) <==> w.id in s.rows && s.rows[w.id].updatedAt == w.copy.updatedAt)
            && (GivesUp(s, Swap(k), w.id) ==>
                  && w.id in Next(s, Swap(k)).rows
                  && Next(s, Swap(k)).rows[w.id].closedAt.Some?
                  && Next(s, Swap(k)).rows[w.id].severity == w.copy.severity)
  {
    var w := s.workers[k];
    assert WorkerHonest(s.log, w);
    ApplyKeepsIdentity(w.change, w.copy);
    var row := Apply(w.change, w.copy);
    assert row.Terminal() && row == w.copy.Close(w.intent.now, GiveUpReason(w.intent.policy));
    if w.id in s.rows && s.rows[w.id].updatedAt == w.copy.updatedAt {
      assert !Clashes(s.rows, row);
      assert Next(s, Swap(k)) == Swapped(s, k, w);
    }
  }

  /** A pass scanned this row below critical, read it again at step j, found that
      its own ladder gives up on it, and swaps at step m under the token it
      read; and the row was critical at one of the two. */
  ghost predicate CaughtRising(s: Site, ls: seq<Label>, j: nat, m: nat, k: nat, id: string)
    requires j < m < |ls|
  {
    var u, v := At(s, ls, j), At(s, ls, m);
    && ls[m] == Swap(k) && k in v.workers && v.workers[k].Ready? && v.workers[k].id == id
    && v.workers[k].intent.GiveUpOn?
    && var w := v.workers[k];
       && ReadAt(s, ls, j, k, id, w.intent, w.attempt, w.copy)
       && w.intent.scanned.severity != Critical
       && ShouldGiveUp(w.intent.policy, w.copy, w.intent.now)
       && id in v.rows && v.rows[id].updatedAt == u.rows[id].updatedAt
       && (CriticalRow(u, id) || CriticalRow(v, id))
  }

  lemma ClosingIsCaught(s: Site, ls: seq<Label>, m: nat, id: string) returns (j: nat)
    requires Honest(s) && s.workers == map[] && m < |ls| && ClosesCritical(At(s, ls, m), ls[m], id)
    ensures j < m && CaughtRising(s, ls, j, m, ls[m].k, id)
  {
    var v, k := At(s, ls, m), ls[m].k;
    EveryRunIsHonest(s, ls[..m]);
    assert WorkerHonest(v.log, v.workers[k]);
    GiveUpLandsExactlyWhen(v, k);
    j := CopiesWereRead(s, ls, m, k);
    assert CriticalRow(Next(v, ls[m]), id) ==> v.workers[k].copy.severity == Critical;
  }

  lemma CaughtIsClosing(s: Site, ls: seq<Label>, j: nat, m: nat, k: nat, id: string)
    requires Honest(s) && j < m < |ls| && CaughtRising(s, ls, j, m, k, id)
    ensures ClosesCritical(At(s, ls, m), ls[m], id)
  {
    EveryRunIsHonest(s, ls[..m]);
    GiveUpLandsExactlyWhen(At(s, ls, m), k);
  }

  /** Exactly when the scheduler closes a critical row, over every run from a
      started site: when a pass that had scanned it below critical reads it
      critical and its own ladder still gives up on it, or it becomes critical
      between that read and the swap without its token moving. */
  lemma ACriticalRowIsClosedExactlyWhen(s: Site, ls: seq<Label>, id: string)
    requires Honest(s) && s.workers == map[]
    ensures (exists m: nat :: m < |ls| && ClosesCritical(At(s, ls, m), ls[m], id)) <==>
            (exists j: nat, m: nat, k: nat :: j < m < |ls| && CaughtRising(s, ls, j, m, k, id))
  {
    if m: nat :| m < |ls| && ClosesCritical(At(s, ls, m), ls[m], id) {
      var j := ClosingIsCaught(s, ls, m, id);
    }
    if j: nat, m: nat, k: nat :| j < m < |ls| && CaughtRising(s, ls, j, m, k, id) {
      CaughtIsClosing(s, ls, j, m, k, id);
    }
  }

  /** ... so its severity rose to critical after the scan that doomed it. */
  lemma AClosedCriticalRowRose(s: Site, ls: seq<Label>, m: nat, id: string)
    requires Honest(s) && s.workers == map[] && m < |ls| && ClosesCritical(At(s, ls, m), ls[m], id)
    ensures exists i: nat :: i < m && id in At(s, ls, i).rows
              && At(s, ls, i).rows[id] == At(s, ls, m).workers[ls[m].k].intent.scanned
              && RisesBetween(s, ls, i, m, id)
  {
    var k := ls[m].k;
    var j := ClosingIsCaught(s, ls, m, id);
    var i := TheScanWasStored(s, ls, j, m, k, id);
    if CriticalRow(At(s, ls, m), id) {
      Rises(s, ls, i, m, id);
    } else {
      Rises(s, ls, i, j, id);
      RoseSooner(s, ls, i, j, m, id);
    }
  }

  lemma RoseSooner(s: Site, ls: seq<Label>, a: nat, b: nat, c: nat, id: string)
    requires a <= b <= c <= |ls| && RisesBetween(s, ls, a, b, id)
    ensures RisesBetween(s, ls, a, c, id)
  {
    var r: nat :| a <= r < b && RisesAt(s, ls, r, id);
  }

  lemma TheScanWasStored(s: Site, ls: seq<Label>, j: nat, m: nat, k: nat, id: string) returns (i: nat)
    requires Honest(s) && s.workers == map[] && j < m < |ls| && CaughtRising(s, ls, j, m, k, id)
    ensures i < j && id in At(s, ls, i).rows && !CriticalRow(At(s, ls, i), id)
    ensures At(s, ls, i).rows[id] == At(s, ls, m).workers[k].intent.scanned
  {
    var scanned := At(s, ls, m).workers[k].intent.scanned;
    EveryRunIsHonest(s, ls[..j]);
    assert WorkerHonest(At(s, ls, j).log, At(s, ls, j).workers[k]);
    ScansWereStored(s, ls, j, k);
    i :| i < j && scanned in At(s, ls, i).rows.Values;
    FiledUnderItsId(s, ls, i, scanned);
  }

  lemma FiledUnderItsId(s: Site, ls: seq<Label>, i: nat, r: Record)
    requires Honest(s) && i <= |ls| && r in At(s, ls, i).rows.Values
    ensures r.id in At(s, ls, i).rows && At(s, ls, i).rows[r.id] == r
  {
    EveryRunIsHonest(s, ls[..i]);
    var key :| key in At(s, ls, i).rows && At(s, ls, i).rows[key] == r;
  }

  // ---- Holding ---------------------------------------------------------------------

  /** A pass holds this incident now. */
  ghost predicate Holds(s: Site, l: Label, id: string) {
    && l.Process? && l.k in s.workers && s.workers[l.k].Scanned? && s.workers[l.k].inc.id == id
    && PlanFor(s.ladders, s.quiet, s.momentary, s.workers[l.k].inc, s.workers[l.k].now).Hold?
  }

  /** Worker k scans this row at step i, in a pass that began at `now`. */
  ghost predicate ScansAt(s: Site, ls: seq<Label>, i: nat, k: nat, id: string, now: Time)
    requires i < |ls|
  {
    var u := At(s, ls, i);
    && ls[i] == Scan(k, id, now) && k !in u.workers && now <= u.clock
    && id in u.rows && !u.rows[id].Terminal()
  }

  /** Between the two steps it does not come to what it scanned, nor is it cut off
      by a restart. */
  predicate Waits(ls: seq<Label>, i: nat, m: nat, k: nat)
    requires i < m <= |ls|
  {
    forall j :: i < j < m ==> ls[j] != Process(k) && ls[j] != Restart
  }

  lemma OtherStepsLeaveTheScan(s: Site, l: Label, k: nat)
    requires k in s.workers && s.workers[k].Scanned? && l != Process(k) && l != Restart
    ensures k in Next(s, l).workers && Next(s, l).workers[k] == s.workers[k]
  {
    if Own(l) && l.k in s.workers && l.k != k {
      OwnStepTouchesOne(s, l, k);
    }
  }

  lemma {:induction false} WaitingKeepsTheScan(s: Site, ls: seq<Label>, i: nat, m: nat, k: nat, id: string, now: Time)
    requires i < m <= |ls| && ScansAt(s, ls, i, k, id, now) && Waits(ls, i, m, k)
    ensures var v := At(s, ls, m);
            k in v.workers && v.workers[k] == Scanned(At(s, ls, i).rows[id], now)
    decreases m
  {
    AtNext(s, ls, m - 1);
    if i < m - 1 {
      WaitingKeepsTheScan(s, ls, i, m - 1, k, id, now);
      OtherStepsLeaveTheScan(At(s, ls, m - 1), ls[m - 1], k);
    }
  }

  lemma {:induction false} ScansComeFrom(s: Site, ls: seq<Label>, m: nat, k: nat) returns (i: nat)
    requires Honest(s) && s.workers == map[] && m <= |ls|
    requires k in At(s, ls, m).workers && At(s, ls, m).workers[k].Scanned?
    ensures i < m && Waits(ls, i, m, k)
    ensures var w := At(s, ls, m).workers[k];
            ScansAt(s, ls, i, k, w.inc.id, w.now) && At(s, ls, i).rows[w.inc.id] == w.inc
    decreases m
  {
    NobodyAtFirst(s, ls);
    AtNext(s, ls, m - 1);
    EveryRunIsHonest(s, ls[..m - 1]);
    var u, l := At(s, ls, m - 1), ls[m - 1];
    if k in u.workers && u.workers[k] == At(s, ls, m).workers[k] {
      i := ScansComeFrom(s, ls, m - 1, k);
      ProcessEndsTheScan(u, k);
    } else {
      i := m - 1;
      NewScanIsAScan(u, l, k);
    }
  }

  lemma NobodyAtFirst(s: Site, ls: seq<Label>)
    requires s.workers == map[]
    ensures At(s, ls, 0).workers == map[]
  {
  }

  lemma ProcessEndsTheScan(s: Site, k: nat)
    requires k in s.workers && s.workers[k].Scanned?
    ensures k in Next(s, Process(k)).workers ==> Next(s, Process(k)).workers[k] != s.workers[k]
    ensures k !in Next(s, Restart).workers
  {
  }

  lemma OthersScanNothing(s: Site, l: Label, k: nat)
    requires !Own(l) && !l.Scan? && k !in s.workers && k in Next(s, l).workers
    ensures !Next(s, l).workers[k].Scanned?
  {
  }

  lemma OwnStepsScanNothing(s: Site, l: Label, k: nat)
    requires Own(l) && l.k == k && k in s.workers && k in Worked(s, l, s.workers[k]).workers
    ensures Worked(s, l, s.workers[k]).workers[k].Scanned? ==>
              Worked(s, l, s.workers[k]).workers[k] == s.workers[k]
  {
  }

  lemma NewScanIsAScan(s: Site, l: Label, k: nat)
    requires Keyed(s.rows) && k in Next(s, l).workers && Next(s, l).workers[k].Scanned?
    requires k !in s.workers || s.workers[k] != Next(s, l).workers[k]
    ensures var w := Next(s, l).workers[k];
            && l == Scan(k, w.inc.id, w.now) && k !in s.workers && w.now <= s.clock
            && w.inc.id in s.rows && s.rows[w.inc.id] == w.inc && !w.inc.Terminal()
  {
    TakenOnBy(s, l, k);
    if Own(l) {
      OwnStepsScanNothing(s, l, k);
    } else if !l.Scan? {
      OthersScanNothing(s, l, k);
    }
  }

  /** The row becomes critical at some step from a on and is critical from then
      to b. */
  ghost predicate RisesToStay(s: Site, ls: seq<Label>, a: nat, b: nat, id: string)
    requires a <= b <= |ls|
  {
    exists r: nat :: a <= r < b && !CriticalRow(At(s, ls, r), id)
                     && (forall q: nat :: r < q <= b ==> CriticalRow(At(s, ls, q), id))
  }

  lemma {:induction false} RoseToStay(s: Site, ls: seq<Label>, a: nat, b: nat, id: string) returns (r: nat)
    requires a <= b <= |ls| && !CriticalRow(At(s, ls, a), id) && CriticalRow(At(s, ls, b), id)
    ensures a <= r < b && !CriticalRow(At(s, ls, r), id)
    ensures forall q: nat :: r < q <= b ==> CriticalRow(At(s, ls, q), id)
    decreases b
  {
    if CriticalRow(At(s, ls, b - 1), id) {
      r := RoseToStay(s, ls, a, b - 1, id);
    } else {
      r := b - 1;
    }
  }

  /** What makes a pass hold what it scanned, when it comes to it: a ladder for the
      severity it scanned, not given up on, something due or owed at the time the
      pass began, and a quiet window that the ladder respects and that time is in. */
  predicate InTheWindow(v: Site, inc: Record, now: Time) {
    && inc.severity in v.ladders
    && var p := v.ladders[inc.severity];
       && !ShouldGiveUp(p, inc, now) && DueOrOwed(p, v.momentary, inc, now).Fire?
       && p.respectQuietHours && v.quiet.Contains(now)
  }

  /** Worker k scans this row below critical at step i and comes to it at step m,
      to find its time in the window; and in between the row has risen. */
  ghost predicate CaughtInTheWindow(s: Site, ls: seq<Label>, i: nat, m: nat, k: nat, id: string, now: Time)
    requires i < m < |ls|
  {
    && ScansAt(s, ls, i, k, id, now) && Waits(ls, i, m, k) && ls[m] == Process(k)
    && At(s, ls, i).rows[id].severity != Critical
    && InTheWindow(At(s, ls, m), At(s, ls, i).rows[id], now)
    && RisesToStay(s, ls, i, m, id)
  }

  lemma HoldingIsCaught(s: Site, ls: seq<Label>, m: nat, id: string) returns (i: nat)
    requires Honest(s) && s.workers == map[] && m < |ls|
    requires Holds(At(s, ls, m), ls[m], id) && CriticalRow(At(s, ls, m), id)
    ensures i < m && CaughtInTheWindow(s, ls, i, m, ls[m].k, id, At(s, ls, m).workers[ls[m].k].now)
  {
    var v := At(s, ls, m);
    EveryRunIsHonest(s, ls[..m]);
    i := ScansComeFrom(s, ls, m, ls[m].k);
    var r := RoseToStay(s, ls, i, m, id);
    assert RisesToStay(s, ls, i, m, id);
  }

  lemma CaughtIsHolding(s: Site, ls: seq<Label>, i: nat, m: nat, k: nat, id: string, now: Time)
    requires Honest(s) && i < m < |ls| && CaughtInTheWindow(s, ls, i, m, k, id, now)
    ensures Holds(At(s, ls, m), ls[m], id) && CriticalRow(At(s, ls, m), id)
  {
    EveryRunIsHonest(s, ls[..i]);
    WaitingKeepsTheScan(s, ls, i, m, k, id, now);
  }

  /** Exactly when a pass holds a row that is critical: when it scanned the row
      below critical, comes to it while what it scanned is due inside the quiet
      window of that severity's ladder, and the row has risen to critical in
      between. What was scanned critical is never held. */
  lemma ACriticalRowIsHeldExactlyWhen(s: Site, ls: seq<Label>, m: nat, id: string)
    requires Honest(s) && s.workers == map[] && m < |ls|
    ensures Holds(At(s, ls, m), ls[m], id) ==> At(s, ls, m).workers[ls[m].k].inc.severity != Critical
    ensures Holds(At(s, ls, m), ls[m], id) && CriticalRow(At(s, ls, m), id) <==>
              exists i: nat, k: nat, now: Time :: i < m && CaughtInTheWindow(s, ls, i, m, k, id, now)
  {
    EveryRunIsHonest(s, ls[..m]);
    if Holds(At(s, ls, m), ls[m], id) && CriticalRow(At(s, ls, m), id) {
      var i := HoldingIsCaught(s, ls, m, id);
    }
    if i: nat, k: nat, now: Time :| i < m && CaughtInTheWindow(s, ls, i, m, k, id, now) {
      CaughtIsHolding(s, ls, i, m, k, id, now);
    }
  }
}
