/** How often one incident can ever be recorded as alerted, over every run of the
    engine: any number of passes, restarts in the middle of one, contention,
    lost swaps and stale plain writes. */
module AlertBound {
  import opened Base
  import opened Arith
  import opened Incidents
  import opened Policies
  import opened Stores
  import opened CasLoops
  import opened Deliveries
  import opened Scheduling
  import opened AlarmEngine
  import opened Races
  import opened Reaching

  // ---- The budget ---------------------------------------------------------------

  /** Whole repeat intervals between the last rung and t. */
  function Repeats(p: Policy, openedAt: Time, t: Time): nat
    requires p.stages != []
  {
    var since := t - openedAt - p.stages[|p.stages| - 1].after;
    if p.repeatEvery <= 0 || since < 0 then 0
    else
      DivAtLeast(since, p.repeatEvery, 0);
      since / p.repeatEvery
  }

  function Rungs(p: Policy, openedAt: Time, t: Time): nat {
    RungAfter(p.stages, openedAt, t, 0)
  }

  lemma RepeatsGrow(p: Policy, openedAt: Time, t: Time, u: Time)
    requires p.stages != [] && t <= u
    ensures Repeats(p, openedAt, t) <= Repeats(p, openedAt, u)
  {
    var o := openedAt + p.stages[|p.stages| - 1].after;
    if p.repeatEvery > 0 && t >= o {
      DivMonotone(t - o, u - o, p.repeatEvery);
    }
  }

  lemma RungsGrow(p: Policy, openedAt: Time, t: Time, u: Time)
    requires WellFormed(p.stages) && t <= u
    ensures Rungs(p, openedAt, t) <= Rungs(p, openedAt, u)
    ensures Rungs(p, openedAt, t) < |p.stages| && openedAt + p.stages[Rungs(p, openedAt, t)].after <= u ==>
              Rungs(p, openedAt, t) < Rungs(p, openedAt, u)
  {
    var k := Rungs(p, openedAt, t);
    if k < |p.stages| && openedAt + p.stages[k].after <= u {
      forall j | 0 <= j <= k
        ensures openedAt + p.stages[j].after <= u
      {
        assert p.stages[j].after <= p.stages[k].after;
      }
    }
  }

  /** The budget of alerts by time t: one a rung, one a repeat. */
  function Budget(p: Policy, openedAt: Time, t: Time): nat
    requires p.stages != []
  {
    Rungs(p, openedAt, t) + Repeats(p, openedAt, t)
  }

  lemma BudgetAtDue(p: Policy, r: Record, now: Time)
    requires WellFormed(p.stages)
    requires r.lastAlertAt.Some? && DueNow(p, r, now).Fire?
    ensures now > r.lastAlertAt.value
    ensures Budget(p, r.openedAt, r.lastAlertAt.value) < Budget(p, r.openedAt, now)
  {
    var last := r.lastAlertAt.value;
    RungsGrow(p, r.openedAt, last, now);
    RepeatsGrow(p, r.openedAt, last, now);
    if Rungs(p, r.openedAt, last) == |p.stages| {
      var o := r.openedAt + p.stages[|p.stages| - 1].after;
      DivStep(last - o, now - o, p.repeatEvery);
    }
  }

  /** Every recorded alert was paid for out of the budget at the last one; or it
      is the one owed delivery, made after the condition had cleared. */
  predicate WithinBudget(p: Policy, r: Record, T: Time)
    requires p.stages != []
  {
    && (r.firstAlertAt.Some? <==> r.alertCount > 0)
    && (r.lastAlertAt.Some? <==> r.alertCount > 0)
    && (r.alertCount > 0 ==>
          && r.lastAlertAt.value <= T
          && (r.alertCount <= Budget(p, r.openedAt, r.lastAlertAt.value)
              || (r.resolvedAt.Some? && r.alertCount == 1)))
  }

  lemma ChangeAlertsNobody(p: Policy, m: Mutation, r: Record, T: Time)
    requires p.stages != [] && !m.Alert? && WithinBudget(p, r, T)
    ensures WithinBudget(p, Apply(m, r), T)
  {
  }

  lemma EngineAlertsNobody(p: Policy, e: EngineWrite, r: Record, T: Time)
    requires p.stages != [] && WithinBudget(p, r, T)
    ensures WithinBudget(p, EngineRow(e, r), T)
  {
  }

  /** Only the rungs and the repeat interval matter for what is due. */
  lemma DueBySchedule(p: Policy, q: Policy, momentary: set<string>, r: Record, now: Time)
    requires p.stages == q.stages && p.repeatEvery == q.repeatEvery
    ensures DueOrOwed(p, momentary, r, now) == DueOrOwed(q, momentary, r, now)
  {
  }

  /** The row an alert is recorded on has not been alerted later than the one that
      was scanned for it, nor lost the clear that one had. */
  predicate Fits(scanned: Record, row: Record) {
    && (row.lastAlertAt.Some? ==> scanned.lastAlertAt.Some? && row.lastAlertAt.value <= scanned.lastAlertAt.value)
    && (scanned.resolvedAt.Some? ==> row.resolvedAt.Some?)
  }

  lemma FirstAlertPays(p: Policy, openedAt: Time, now: Time)
    requires WellFormed(p.stages) && openedAt + p.stages[0].after <= now
    ensures Budget(p, openedAt, now) >= 1
  {
    RungsGrow(p, openedAt, now, now);
  }

  lemma AlertIsPaidFor(p: Policy, momentary: set<string>, scanned: Record, copy: Record, now: Time, st: int, T: Time)
    requires WellFormed(p.stages) && WithinBudget(p, scanned, T) && WithinBudget(p, copy, T) && now <= T
    requires scanned.openedAt == copy.openedAt && Fits(scanned, copy)
    requires DueOrOwed(p, momentary, scanned, now).Fire?
    ensures WithinBudget(p, copy.RecordAlert(now, st), T)
  {
    if DueNow(p, scanned, now).Fire? {
      if scanned.lastAlertAt.Some? {
        BudgetAtDue(p, scanned, now);
        if copy.lastAlertAt.Some? {
          RungsGrow(p, copy.openedAt, copy.lastAlertAt.value, scanned.lastAlertAt.value);
          RepeatsGrow(p, copy.openedAt, copy.lastAlertAt.value, scanned.lastAlertAt.value);
        }
      } else {
        FirstAlertPays(p, copy.openedAt, now);
      }
    }
  }

  // ---- Over every run -------------------------------------------------------------

  /** A version of the incident: its own row or a copy of it. */
  predicate Version(p: Policy, id: string, openedAt: Time, r: Record, T: Time)
    requires p.stages != []
  {
    r.id == id ==> r.openedAt == openedAt && WithinBudget(p, r, T)
  }

  /** A pass found this version due. */
  predicate FoundDue(p: Policy, momentary: set<string>, id: string, scanned: Record, now: Time, T: Time)
    requires p.stages != []
  {
    scanned.id == id ==> now <= T && DueOrOwed(p, momentary, scanned, now).Fire?
  }

  predicate IntentPays(s: Site, p: Policy, id: string, openedAt: Time, target: string, intent: Intent)
    requires p.stages != []
  {
    intent.RecordAlert? ==>
      && intent.scanned.id == target && Version(p, id, openedAt, intent.scanned, s.clock)
      && FoundDue(p, s.momentary, id, intent.scanned, intent.now, s.clock)
  }

  predicate WorkerPays(s: Site, p: Policy, id: string, openedAt: Time, w: Worker)
    requires p.stages != []
  {
    match w
    case Scanned(inc, now) => now <= s.clock && Version(p, id, openedAt, inc, s.clock)
    case Delivering(inc, now, _) =>
      Version(p, id, openedAt, inc, s.clock) && FoundDue(p, s.momentary, id, inc, now, s.clock)
    case Trying(target, intent, _) => IntentPays(s, p, id, openedAt, target, intent)
    case Got(target, intent, _, copy) =>
      && copy.id == target && Version(p, id, openedAt, copy, s.clock)
      && IntentPays(s, p, id, openedAt, target, intent)
      && (intent.RecordAlert? && target == id ==> Fits(intent.scanned, copy))
    case Ready(target, intent, _, copy, change) =>
      && copy.id == target && Version(p, id, openedAt, copy, s.clock)
      && IntentPays(s, p, id, openedAt, target, intent)
      && (intent.RecordAlert? && target == id ==> Fits(intent.scanned, copy))
      && !Declines(intent, copy) && change == Change(intent, change.at)
    case EngineRead(target, copy) => copy.id == target && Version(p, id, openedAt, copy, s.clock)
  }

  /** Every version of the incident, stored or in somebody's hands, is within
      the budget. */
  ghost predicate InBudget(s: Site, p: Policy, id: string, openedAt: Time)
    requires p.stages != []
  {
    && id in s.used && Keyed(s.rows)
    && (id in s.rows ==> Version(p, id, openedAt, s.rows[id], s.clock))
    && forall k :: k in s.workers ==> WorkerPays(s, p, id, openedAt, s.workers[k])
  }

  /** The ladder a pass applies to the incident keeps the rungs and the interval
      of p, whatever its severity has risen to. */
  predicate OnSchedule(s: Site, l: Label, p: Policy, id: string) {
    l.Process? && l.k in s.workers && s.workers[l.k].Scanned? && s.workers[l.k].inc.id == id ==>
      var sev := s.workers[l.k].inc.severity;
      sev in s.ladders ==> s.ladders[sev].stages == p.stages && s.ladders[sev].repeatEvery == p.repeatEvery
  }

  predicate AboutToRecord(w: Worker, id: string) {
    w.Trying? && w.intent.RecordAlert? && w.id == id
  }

  /** An alert about to be recorded reads a row that fits what was scanned. */
  predicate ReadsFitting(s: Site, l: Label, id: string) {
    l.Read? && l.k in s.workers && AboutToRecord(s.workers[l.k], id) && id in s.rows ==>
      Fits(s.workers[l.k].intent.scanned, s.rows[id])
  }

  ghost predicate FittingRun(s: Site, ls: seq<Label>, p: Policy, id: string)
    decreases ls
  {
    ls != [] ==>
      && OnSchedule(s, ls[0], p, id) && ReadsFitting(s, ls[0], id)
      && FittingRun(Next(s, ls[0]), ls[1..], p, id)
  }

  lemma LaterIsFine(s: Site, t: Site, p: Policy, id: string, openedAt: Time, w: Worker)
    requires p.stages != [] && WorkerPays(s, p, id, openedAt, w)
    requires s.clock <= t.clock && s.momentary == t.momentary
    ensures WorkerPays(t, p, id, openedAt, w)
  {
  }

  lemma ProcessPays(s: Site, k: nat, p: Policy, id: string, openedAt: Time)
    requires WellFormed(p.stages) && InBudget(s, p, id, openedAt) && OnSchedule(s, Process(k), p, id)
    requires k in s.workers && s.workers[k].Scanned?
    requires var t := Processed(s, k, s.workers[k].inc, s.workers[k].now);
             k in t.workers && t.workers[k].Delivering?
    ensures var t := Processed(s, k, s.workers[k].inc, s.workers[k].now);
            WorkerPays(s, p, id, openedAt, t.workers[k])
  {
    var w := s.workers[k];
    assert WorkerPays(s, p, id, openedAt, w);
    if w.inc.id == id {
      DueBySchedule(s.ladders[w.inc.severity], p, s.momentary, w.inc, w.now);
    }
  }

  lemma OtherMovesPay(s: Site, log: seq<Event>, p: Policy, id: string, openedAt: Time, k: nat, w: Worker)
    requires WellFormed(p.stages) && InBudget(s, p, id, openedAt) && Moves(s, log, k, w)
    requires k in s.workers && w != s.workers[k] ==> !w.Delivering? && !w.Got?
    ensures WorkerPays(s, p, id, openedAt, w)
  {
    if k in s.workers {
      assert WorkerPays(s, p, id, openedAt, s.workers[k]);
    }
  }

  lemma MovePays(s: Site, l: Label, p: Policy, id: string, openedAt: Time, k: nat)
    requires WellFormed(p.stages) && InBudget(s, p, id, openedAt)
    requires OnSchedule(s, l, p, id) && ReadsFitting(s, l, id)
    requires Still(s, Next(s, l)) && k in Next(s, l).workers
    ensures WorkerPays(s, p, id, openedAt, Next(s, l).workers[k])
  {
    var t := Next(s, l);
    var w := t.workers[k];
    assert Moves(s, t.log, k, w);
    if k in s.workers && w != s.workers[k] && w.Delivering? {
      NewDeliveryIsAPlan(s, l, k);
      ProcessPays(s, k, p, id, openedAt);
    } else if k in s.workers && w != s.workers[k] && w.Got? {
      NewCopyIsARead(s, l, k);
      assert WorkerPays(s, p, id, openedAt, s.workers[k]);
    } else {
      OtherMovesPay(s, t.log, p, id, openedAt, k, w);
    }
  }

  lemma SwapPays(s: Site, t: Site, p: Policy, id: string, openedAt: Time, k: nat)
    requires WellFormed(p.stages) && InBudget(s, p, id, openedAt) && Won(s, t, k)
    ensures Version(p, id, openedAt, Apply(s.workers[k].change, s.workers[k].copy), s.clock)
    ensures Apply(s.workers[k].change, s.workers[k].copy).id == s.workers[k].id
  {
    var w := s.workers[k];
    assert WorkerPays(s, p, id, openedAt, w);
    ApplyKeeps(w.change, w.copy);
    if w.id == id {
      if w.intent.RecordAlert? {
        AlertIsPaidFor(p, s.momentary, w.intent.scanned, w.copy, w.intent.now, w.intent.stage, s.clock);
      } else {
        ChangeAlertsNobody(p, w.change, w.copy, s.clock);
      }
    }
  }

  lemma PutPays(s: Site, p: Policy, id: string, openedAt: Time, k: nat, e: EngineWrite)
    requires WellFormed(p.stages) && InBudget(s, p, id, openedAt) && PutLands(s, k, e)
    ensures Version(p, id, openedAt, EngineRow(e, s.workers[k].copy), s.clock)
  {
    assert WorkerPays(s, p, id, openedAt, s.workers[k]);
    EngineRowStamps(e, s.workers[k].copy);
    if s.workers[k].copy.id == id {
      EngineAlertsNobody(p, e, s.workers[k].copy, s.clock);
    }
  }

  lemma RowStaysInBudget(s: Site, l: Label, p: Policy, id: string, openedAt: Time)
    requires WellFormed(p.stages) && InBudget(s, p, id, openedAt)
    ensures var t := Next(s, l);
            && Keyed(t.rows) && (id in t.rows ==> Version(p, id, openedAt, t.rows[id], t.clock))
            && id in t.used && s.clock <= t.clock
  {
    var t := Next(s, l);
    StepIsOfAKind(s, l);
    if Still(s, t) {
    } else if l.Swap? {
      SwapPays(s, t, p, id, openedAt, l.k);
    } else if l.EnginePuts? {
      PutPays(s, p, id, openedAt, l.k, l.e);
    }
  }

  lemma MomentaryStays(s: Site, l: Label)
    ensures Next(s, l).momentary == s.momentary
  {
  }

  lemma StepStaysInBudget(s: Site, l: Label, p: Policy, id: string, openedAt: Time)
    requires WellFormed(p.stages) && InBudget(s, p, id, openedAt)
    requires OnSchedule(s, l, p, id) && ReadsFitting(s, l, id)
    ensures InBudget(Next(s, l), p, id, openedAt)
  {
    var t := Next(s, l);
    RowStaysInBudget(s, l, p, id, openedAt);
    MomentaryStays(s, l);
    StepIsOfAKind(s, l);
    forall k | k in t.workers
      ensures WorkerPays(t, p, id, openedAt, t.workers[k])
    {
      if Still(s, t) {
        MovePays(s, l, p, id, openedAt, k);
      } else {
        assert WorkerPays(s, p, id, openedAt, s.workers[k]);
      }
      LaterIsFine(s, t, p, id, openedAt, t.workers[k]);
    }
  }

  lemma {:induction false} RunsStayInBudget(s: Site, ls: seq<Label>, p: Policy, id: string, openedAt: Time)
    requires WellFormed(p.stages) && InBudget(s, p, id, openedAt) && FittingRun(s, ls, p, id)
    ensures InBudget(Exec(s, ls), p, id, openedAt)
    decreases ls
  {
    if ls != [] {
      StepStaysInBudget(s, ls[0], p, id, openedAt);
      RunsStayInBudget(Next(s, ls[0]), ls[1..], p, id, openedAt);
    }
  }

  /** What the ladder allows by time T: one a rung, and one a whole repeat
      interval since its last rung. */
  function Allowance(p: Policy, openedAt: Time, T: Time): int
    requires p.stages != []
  {
    |p.stages| + (if p.repeatEvery <= 0 then 0
                  else Max(0, (T - openedAt - p.stages[|p.stages| - 1].after) / p.repeatEvery))
  }

  lemma BudgetIsTheAllowance(p: Policy, r: Record, T: Time)
    requires WellFormed(p.stages) && WithinBudget(p, r, T)
    ensures r.alertCount <= Allowance(p, r.openedAt, T)
  {
    if r.alertCount > 0 {
      RepeatsGrow(p, r.openedAt, r.lastAlertAt.value, T);
    }
  }

  /** By any time, the stored row records at most one alert a rung and one a
      whole repeat interval since the last rung, in every run in which each
      recorded alert reads a row that fits what was scanned for it: however the
      passes fall or overlap, wherever restarts cut them off, whichever swaps
      are lost and whatever plain writes put back. */
  lemma AlertsAreBounded(s: Site, ls: seq<Label>, p: Policy, sev: Severity, id: string, openedAt: Time)
    requires Valid(p, sev) && InBudget(s, p, id, openedAt) && FittingRun(s, ls, p, id)
    ensures var end := Exec(s, ls);
            id in end.rows ==> end.rows[id].alertCount <= Allowance(p, openedAt, end.clock)
  {
    RunsStayInBudget(s, ls, p, id, openedAt);
    var end := Exec(s, ls);
    if id in end.rows {
      BudgetIsTheAllowance(p, end.rows[id], end.clock);
    }
  }

  /** A site on which the incident has just been opened meets what the theorem
      asks for. */
  lemma OpenedSiteIsInBudget(s: Site, p: Policy, id: string)
    requires p.stages != [] && Keyed(s.rows) && s.workers == map[]
    requires id in s.used && id in s.rows && Fresh(s.rows[id], s.clock)
    ensures InBudget(s, p, id, s.rows[id].openedAt)
  {
  }
}
