/** When every recorded alert reads a row that fits what was scanned for it: one
    pass in flight per incident, as the scheduler's single goroutine makes them,
    alerts that move the token on, and plain writes that missed none. */
module OnePass {
  import opened Base
  import opened Incidents
  import opened Policies
  import opened Stores
  import opened CasLoops
  import opened Scheduling
  import opened AlarmEngine
  import opened Races
  import opened AlertBound

  /** The version of the incident that a pass in flight was scanned as. */
  function ScannedAs(w: Worker): Option<Record> {
    match w
    case Scanned(inc, _) => Some(inc)
    case Delivering(inc, _, _) => Some(inc)
    case EngineRead(_, _) => None
    case _ => if w.intent.RecordAlert? then Some(w.intent.scanned) else None
  }

  predicate PassOn(w: Worker, id: string) {
    ScannedAs(w).Some? && ScannedAs(w).value.id == id
  }

  ghost predicate OneInFlight(s: Site, id: string) {
    forall j, k :: j in s.workers && k in s.workers && PassOn(s.workers[j], id) && PassOn(s.workers[k], id) ==> j == k
  }

  /** A scan of the incident begins only when no pass on it is in flight. */
  predicate ScansAlone(s: Site, l: Label, id: string) {
    l.Scan? && l.id == id ==> forall k :: k in s.workers ==> !PassOn(s.workers[k], id)
  }

  /** The later row's last alert is no earlier, and a clear is still there. */
  predicate NoEarlier(row: Record, later: Record) {
    && (row.lastAlertAt.Some? ==> later.lastAlertAt.Some? && row.lastAlertAt.value <= later.lastAlertAt.value)
    && (row.resolvedAt.Some? ==> later.resolvedAt.Some?)
  }

  /** The step puts no earlier alert back, nor a row that was removed, and loses no
      clear. */
  ghost predicate PutsNothingBack(s: Site, l: Label, id: string) {
    id in Next(s, l).rows ==> id in s.rows && NoEarlier(s.rows[id], Next(s, l).rows[id])
  }

  /** What was scanned is what the row still says. */
  predicate StillSays(scanned: Record, row: Record) {
    scanned.lastAlertAt == row.lastAlertAt && (scanned.resolvedAt.Some? ==> row.resolvedAt.Some?)
  }

  predicate WorkerInStep(w: Worker, id: string, row: Record) {
    && (PassOn(w, id) ==> StillSays(ScannedAs(w).value, row))
    && (CopyOf(w).Some? && CopyOf(w).value.id == id ==> NoEarlier(CopyOf(w).value, row))
  }

  ghost predicate InStep(s: Site, id: string) {
    id in s.rows ==> forall k :: k in s.workers ==> WorkerInStep(s.workers[k], id, s.rows[id])
  }

  /** A pass keeps being the pass it was. */
  lemma MovesKeepPass(s: Site, log: seq<Event>, k: nat, w: Worker, id: string)
    requires k in s.workers && Moves(s, log, k, w) && PassOn(w, id)
    ensures PassOn(s.workers[k], id) && ScannedAs(w) == ScannedAs(s.workers[k])
  {
  }

  lemma MoveInStep(s: Site, t: Site, k: nat, id: string)
    requires Keyed(s.rows) && InStep(s, id) && Still(s, t) && k in t.workers && id in s.rows
    ensures WorkerInStep(t.workers[k], id, s.rows[id])
  {
    var w := t.workers[k];
    assert Moves(s, t.log, k, w);
    if k in s.workers {
      assert WorkerInStep(s.workers[k], id, s.rows[id]);
      if PassOn(w, id) {
        MovesKeepPass(s, t.log, k, w, id);
      }
    }
  }

  /** A row written from a copy says of its alerts what the copy says, unless it
      records one. */
  lemma WritesNoAlert(m: Mutation, copy: Record)
    requires !m.Alert?
    ensures Apply(m, copy).lastAlertAt == copy.lastAlertAt
  {
  }

  lemma OneRowWritten(s: Site, k: nat, id: string, copy: Record, row: Record, j: nat)
    requires InStep(s, id) && id in s.rows && k in s.workers && j in s.workers && j != k
    requires CopyOf(s.workers[k]) == Some(copy) && copy.id == id && NoEarlier(s.rows[id], row)
    requires row.lastAlertAt == copy.lastAlertAt || !PassOn(s.workers[j], id)
    ensures WorkerInStep(s.workers[j], id, row)
  {
    assert WorkerInStep(s.workers[j], id, s.rows[id]);
    assert WorkerInStep(s.workers[k], id, s.rows[id]);
  }

  lemma SwapStaysInStep(s: Site, t: Site, k: nat, p: Policy, id: string, openedAt: Time)
    requires WellFormed(p.stages) && InBudget(s, p, id, openedAt) && InStep(s, id) && OneInFlight(s, id)
    requires Won(s, t, k) && (id in s.rows ==> NoEarlier(s.rows[id], t.rows[id]))
    ensures InStep(t, id)
  {
    var w := s.workers[k];
    assert WorkerPays(s, p, id, openedAt, w);
    ApplyKeepsIdentity(w.change, w.copy);
    if id in s.rows {
      forall j | j in t.workers
        ensures WorkerInStep(t.workers[j], id, t.rows[id])
      {
        if w.id == id {
          if w.intent.RecordAlert? {
            assert PassOn(w, id);
          } else {
            WritesNoAlert(w.change, w.copy);
          }
          OneRowWritten(s, k, id, w.copy, t.rows[id], j);
        } else {
          assert WorkerInStep(s.workers[j], id, s.rows[id]);
        }
      }
    }
  }

  lemma PutStaysInStep(s: Site, t: Site, k: nat, e: EngineWrite, p: Policy, id: string, openedAt: Time)
    requires p.stages != [] && InBudget(s, p, id, openedAt) && InStep(s, id) && id in s.rows
    requires EnginePut(s, t, k, e) && NoEarlier(s.rows[id], t.rows[id])
    ensures InStep(t, id)
  {
    var w := s.workers[k];
    assert WorkerPays(s, p, id, openedAt, w);
    EngineRowStamps(e, w.copy);
    forall j | j in t.workers
      ensures WorkerInStep(t.workers[j], id, t.rows[id])
    {
      if w.id == id {
        OneRowWritten(s, k, id, w.copy, t.rows[id], j);
      } else {
        assert WorkerInStep(s.workers[j], id, s.rows[id]);
      }
    }
  }

  lemma StaysOneInFlight(s: Site, l: Label, id: string)
    requires OneInFlight(s, id) && ScansAlone(s, l, id) && Keyed(s.rows)
    ensures OneInFlight(Next(s, l), id)
  {
    var t := Next(s, l);
    StepIsOfAKind(s, l);
    forall k | k in t.workers && PassOn(t.workers[k], id)
      ensures (k in s.workers && PassOn(s.workers[k], id)) || (l.Scan? && l.k == k && l.id == id)
    {
      if Still(s, t) {
        assert Moves(s, t.log, k, t.workers[k]);
        if k in s.workers {
          MovesKeepPass(s, t.log, k, t.workers[k], id);
        } else {
          TakenOnBy(s, l, k);
        }
      }
    }
  }

  lemma StaysInStep(s: Site, l: Label, p: Policy, id: string, openedAt: Time)
    requires WellFormed(p.stages) && InBudget(s, p, id, openedAt) && InStep(s, id) && OneInFlight(s, id)
    requires PutsNothingBack(s, l, id)
    ensures InStep(Next(s, l), id)
  {
    var t := Next(s, l);
    StepIsOfAKind(s, l);
    if id in t.rows {
      if Still(s, t) {
        forall k | k in t.workers
          ensures WorkerInStep(t.workers[k], id, t.rows[id])
        {
          MoveInStep(s, t, k, id);
        }
      } else if l.Swap? {
        SwapStaysInStep(s, t, l.k, p, id, openedAt);
      } else if l.EnginePuts? {
        PutStaysInStep(s, t, l.k, l.e, p, id, openedAt);
      }
    }
  }

  // ---- The guards under which no earlier alert comes back ---------------------------------

  /** An alert recorded on the incident moves its token on. */
  predicate AlertIsAhead(s: Site, l: Label, id: string) {
    l.Swap? && l.k in s.workers && s.workers[l.k].Ready? && s.workers[l.k].id == id
    && s.workers[l.k].intent.RecordAlert? && id in s.rows && s.rows[id].updatedAt == s.workers[l.k].copy.updatedAt
    ==> s.workers[l.k].intent.now > s.workers[l.k].copy.updatedAt
  }

  /** A plain write of the incident goes out from a copy that has the row's last
      alert and its clear, and a clear that it adds moves the token on. */
  predicate PutMissesNothing(s: Site, l: Label, id: string) {
    l.EnginePuts? && PutLands(s, l.k, l.e) && s.workers[l.k].copy.id == id && id in s.rows ==>
      var c, row := s.workers[l.k].copy, s.rows[id];
      && c.lastAlertAt == row.lastAlertAt && (row.resolvedAt.Some? ==> c.resolvedAt.Some?)
      && (l.e.ResolvePut? && row.resolvedAt.None? ==> l.e.at > row.updatedAt)
  }

  ghost predicate OnePassRun(s: Site, ls: seq<Label>, p: Policy, id: string)
    decreases ls
  {
    ls != [] ==>
      && OnSchedule(s, ls[0], p, id) && ScansAlone(s, ls[0], id) && Guarded(s, ls[0])
      && AlertIsAhead(s, ls[0], id) && PutMissesNothing(s, ls[0], id)
      && OnePassRun(Next(s, ls[0]), ls[1..], p, id)
  }

  /** The same of what every step does to the row, whatever its guards. */
  ghost predicate LosslessRun(s: Site, ls: seq<Label>, p: Policy, id: string)
    decreases ls
  {
    ls != [] ==>
      && OnSchedule(s, ls[0], p, id) && ScansAlone(s, ls[0], id) && PutsNothingBack(s, ls[0], id)
      && LosslessRun(Next(s, ls[0]), ls[1..], p, id)
  }

  /** A copy under the row's own token says of alerts and clears what the row
      says. */
  predicate Agrees(copy: Record, row: Record) {
    copy.updatedAt == row.updatedAt ==>
      copy.lastAlertAt == row.lastAlertAt && (copy.resolvedAt.Some? <==> row.resolvedAt.Some?)
  }

  predicate WorkerAgrees(w: Worker, row: Record) {
    CopyOf(w).Some? && CopyOf(w).value.id == row.id ==> Agrees(CopyOf(w).value, row)
  }

  ghost predicate AllAgree(s: Site, id: string) {
    id in s.rows ==> forall k :: k in s.workers ==> WorkerAgrees(s.workers[k], s.rows[id])
  }

  /** The written row differs from the stored one only under a later token. */
  predicate AheadOrTheSame(row: Record, next: Record) {
    || row.updatedAt < next.updatedAt
    || (row.updatedAt == next.updatedAt && row.lastAlertAt == next.lastAlertAt
        && (row.resolvedAt.Some? <==> next.resolvedAt.Some?))
  }

  lemma OthersStillAgree(s: Site, t: Site, id: string)
    requires Sane(s) && AllAgree(s, id) && id in s.rows && id in t.rows && t.rows[id].id == id
    requires AheadOrTheSame(s.rows[id], t.rows[id])
    requires forall k :: k in t.workers ==> k in s.workers && t.workers[k] == s.workers[k]
    ensures AllAgree(t, id)
  {
    forall k | k in t.workers
      ensures WorkerAgrees(t.workers[k], t.rows[id])
    {
      assert WorkerSane(s, s.workers[k]) && WorkerAgrees(s.workers[k], s.rows[id]);
    }
  }

  lemma AlertIsLater(s: Site, k: nat, p: Policy, id: string, openedAt: Time)
    requires WellFormed(p.stages) && InBudget(s, p, id, openedAt) && k in s.workers && s.workers[k].Ready?
    requires s.workers[k].id == id && s.workers[k].intent.RecordAlert?
    ensures var w := s.workers[k];
            w.copy.lastAlertAt.Some? ==> w.copy.lastAlertAt.value <= w.intent.now
  {
    var w := s.workers[k];
    assert WorkerPays(s, p, id, openedAt, w);
    if DueNow(p, w.intent.scanned, w.intent.now).Fire? && w.intent.scanned.lastAlertAt.Some? {
      BudgetAtDue(p, w.intent.scanned, w.intent.now);
    }
  }

  lemma SwapPutsNothingBack(s: Site, t: Site, k: nat, p: Policy, id: string, openedAt: Time)
    requires WellFormed(p.stages) && InBudget(s, p, id, openedAt) && Sane(s) && AllAgree(s, id)
    requires Won(s, t, k) && s.workers[k].id == id && AlertIsAhead(s, Swap(k), id)
    ensures id in s.rows && NoEarlier(s.rows[id], t.rows[id]) && AheadOrTheSame(s.rows[id], t.rows[id])
  {
    var w := s.workers[k];
    WonRow(s, t, k);
    assert WorkerSane(s, w) && WorkerAgrees(w, s.rows[id]);
    if w.intent.RecordAlert? {
      AlertIsLater(s, k, p, id, openedAt);
    } else {
      WritesNoAlert(w.change, w.copy);
      WritesNoClear(w.intent, w.change, w.copy);
    }
  }

  /** No guarded writer clears a row or takes a clear off it. */
  lemma WritesNoClear(intent: Intent, m: Mutation, copy: Record)
    requires m == Change(intent, m.at)
    ensures Apply(m, copy).resolvedAt == copy.resolvedAt
  {
  }

  lemma PutPutsNothingBack(s: Site, t: Site, k: nat, e: EngineWrite, id: string)
    requires Sane(s) && InStep(s, id) && EnginePut(s, t, k, e) && s.workers[k].copy.id == id
    requires Guarded(s, EnginePuts(k, e)) && PutMissesNothing(s, EnginePuts(k, e), id)
    ensures id in s.rows && NoEarlier(s.rows[id], t.rows[id]) && AheadOrTheSame(s.rows[id], t.rows[id])
  {
    assert WorkerInStep(s.workers[k], id, s.rows[id]);
    Races.PutRow(s, t, k, e);
  }

  lemma StillAgree(s: Site, t: Site, id: string)
    requires Sane(s) && AllAgree(s, id) && Still(s, t)
    ensures AllAgree(t, id)
  {
    if id in s.rows {
      forall k | k in t.workers
        ensures WorkerAgrees(t.workers[k], t.rows[id])
      {
        assert Moves(s, t.log, k, t.workers[k]);
        if k in s.workers {
          assert WorkerAgrees(s.workers[k], s.rows[id]);
        }
      }
    }
  }

  /** The guards do what they are for. */
  lemma GuardsPutNothingBack(s: Site, l: Label, p: Policy, id: string, openedAt: Time)
    requires WellFormed(p.stages) && InBudget(s, p, id, openedAt) && Sane(s) && AllAgree(s, id) && InStep(s, id)
    requires Guarded(s, l) && AlertIsAhead(s, l, id) && PutMissesNothing(s, l, id)
    ensures PutsNothingBack(s, l, id) && AllAgree(Next(s, l), id)
  {
    var t := Next(s, l);
    StepIsOfAKind(s, l);
    if Still(s, t) {
      StillAgree(s, t, id);
    } else if l.Swap? {
      assert WorkerSane(s, s.workers[l.k]);
      WonRow(s, t, l.k);
      if s.workers[l.k].id == id {
        SwapPutsNothingBack(s, t, l.k, p, id, openedAt);
        OthersStillAgree(s, t, id);
      }
    } else if l.EnginePuts? {
      Races.PutRow(s, t, l.k, l.e);
      if s.workers[l.k].copy.id == id {
        PutPutsNothingBack(s, t, l.k, l.e, id);
        OthersStillAgree(s, t, id);
      }
    }
  }

  lemma InStepReadsFit(s: Site, l: Label, id: string)
    requires InStep(s, id) && (forall k :: k in s.workers ==> Owning(s.workers[k]))
    ensures ReadsFitting(s, l, id)
  {
    if l.Read? && l.k in s.workers && AboutToRecord(s.workers[l.k], id) && id in s.rows {
      assert Owning(s.workers[l.k]) && WorkerInStep(s.workers[l.k], id, s.rows[id]);
    }
  }

  /** A pass records its alert on the incident that it scanned. */
  predicate Owning(w: Worker) {
    w.Trying? && w.intent.RecordAlert? ==> w.intent.scanned.id == w.id
  }

  /** What the proofs carry along such a run. */
  ghost predicate Tracked(s: Site, p: Policy, id: string, openedAt: Time)
    requires p.stages != []
  {
    InBudget(s, p, id, openedAt) && InStep(s, id) && OneInFlight(s, id)
  }

  lemma StaysTracked(s: Site, l: Label, p: Policy, id: string, openedAt: Time)
    requires WellFormed(p.stages) && Tracked(s, p, id, openedAt)
    requires OnSchedule(s, l, p, id) && ScansAlone(s, l, id) && PutsNothingBack(s, l, id)
    ensures ReadsFitting(s, l, id) && Tracked(Next(s, l), p, id, openedAt)
  {
    forall k | k in s.workers
      ensures Owning(s.workers[k])
    {
      assert WorkerPays(s, p, id, openedAt, s.workers[k]);
    }
    InStepReadsFit(s, l, id);
    StepStaysInBudget(s, l, p, id, openedAt);
    StaysInStep(s, l, p, id, openedAt);
    StaysOneInFlight(s, l, id);
  }

  lemma {:induction false} LosslessRunsFit(s: Site, ls: seq<Label>, p: Policy, id: string, openedAt: Time)
    requires WellFormed(p.stages) && Tracked(s, p, id, openedAt) && LosslessRun(s, ls, p, id)
    ensures FittingRun(s, ls, p, id)
    decreases ls
  {
    if ls != [] {
      StaysTracked(s, ls[0], p, id, openedAt);
      LosslessRunsFit(Next(s, ls[0]), ls[1..], p, id, openedAt);
    }
  }

  lemma {:induction false} GuardedRunsAreLossless(s: Site, ls: seq<Label>, p: Policy, id: string, openedAt: Time)
    requires WellFormed(p.stages) && Tracked(s, p, id, openedAt)
    requires Sane(s) && AllAgree(s, id) && OnePassRun(s, ls, p, id)
    ensures LosslessRun(s, ls, p, id)
    decreases ls
  {
    if ls != [] {
      GuardsPutNothingBack(s, ls[0], p, id, openedAt);
      StaysTracked(s, ls[0], p, id, openedAt);
      StepKeepsSane(s, ls[0]);
      GuardedRunsAreLossless(Next(s, ls[0]), ls[1..], p, id, openedAt);
    }
  }

  /** With one pass in flight at a time on the incident, through restarts in the
      middle of one, contention and lost swaps, the stored row records no more
      alerts than its ladder allows, as long as no write puts back an earlier
      alert, a removed row or a cleared condition. */
  lemma LosslessRunsAreBounded(s: Site, ls: seq<Label>, p: Policy, sev: Severity, id: string)
    requires Valid(p, sev) && Keyed(s.rows) && s.workers == map[]
    requires id in s.used && id in s.rows && Fresh(s.rows[id], s.clock)
    requires LosslessRun(s, ls, p, id)
    ensures var end := Exec(s, ls);
            id in end.rows ==> end.rows[id].alertCount <= Allowance(p, s.rows[id].openedAt, end.clock)
  {
    OpenedSiteIsInBudget(s, p, id);
    LosslessRunsFit(s, ls, p, id, s.rows[id].openedAt);
    AlertsAreBounded(s, ls, p, sev, id, s.rows[id].openedAt);
  }

  /** ... and so it is as long as each alert moves the token on, and each plain
      write goes out from a copy with the row's last alert and clear, to a row that
      is still there and whose token it does not set back. */
  lemma OnePassAtATimeIsBounded(s: Site, ls: seq<Label>, p: Policy, sev: Severity, id: string)
    requires Valid(p, sev) && RowsSane(s) && s.workers == map[]
    requires id in s.rows && Fresh(s.rows[id], s.clock)
    requires OnePassRun(s, ls, p, id)
    ensures var end := Exec(s, ls);
            id in end.rows ==> end.rows[id].alertCount <= Allowance(p, s.rows[id].openedAt, end.clock)
  {
    OpenedSiteIsInBudget(s, p, id);
    GuardedRunsAreLossless(s, ls, p, id, s.rows[id].openedAt);
    LosslessRunsAreBounded(s, ls, p, sev, id);
  }
}
