/** The bound on recorded alerts is the best possible: passes that come exactly
    when alerts are due, each of them heard, spend all of it. */
module PromptPasses {
  import opened Base
  import opened Arith
  import opened Incidents
  import opened Policies
  import opened Quiet
  import opened Queues
  import opened Stores
  import opened CasLoops
  import opened Deliveries
  import opened Scheduling
  import opened AlarmEngine
  import opened AlertBound
  import opened Reaching

  // ---- One whole pass of the engine -----------------------------------------------

  const HEARD: seq<ChannelResult> := [Answer(Sent)]

  /** The only row is this one, and no pass is in flight. */
  predicate OnlyRow(s: Site, r: Record) {
    0 !in s.workers && s.rows == map[r.id := r]
  }

  function ToldOf(s: Site, r: Record, stage: nat): Site {
    With(s, 0, Trying(r.id, RecordAlert(r, s.clock, stage), 0))
    .(log := s.log + [Told(r.id, s.clock, stage, HEARD)])
  }

  lemma APassDelivers(from: Site, s: Site, r: Record, stage: nat, channels: seq<string>, swapsOnly: bool)
    requires CanReach(from, s, swapsOnly) && OnlyRow(s, r) && !r.Terminal()
    requires PlanFor(s.ladders, s.quiet, s.momentary, r, s.clock) == Deliver(stage, channels)
    ensures CanReach(from, With(s, 0, Delivering(r, s.clock, stage)), swapsOnly)
  {
    OnByScan(from, s, 0, r.id, s.clock, swapsOnly);
    var scanned := With(s, 0, Scanned(r, s.clock));
    OnByProcess(from, scanned, 0, swapsOnly);
    assert Processed(scanned, 0, r, s.clock) == With(s, 0, Delivering(r, s.clock, stage));
  }

  lemma APassTells(from: Site, s: Site, r: Record, stage: nat, channels: seq<string>, swapsOnly: bool)
    requires CanReach(from, s, swapsOnly) && OnlyRow(s, r) && !r.Terminal()
    requires PlanFor(s.ladders, s.quiet, s.momentary, r, s.clock) == Deliver(stage, channels)
    ensures CanReach(from, ToldOf(s, r, stage), swapsOnly)
  {
    APassDelivers(from, s, r, stage, channels, swapsOnly);
    var delivering := With(s, 0, Delivering(r, s.clock, stage));
    assert Accepted(HEARD[0]);
    OnByReturn(from, delivering, 0, HEARD, "", swapsOnly);
    assert Returned(delivering, 0, delivering.workers[0], HEARD, "").workers == ToldOf(s, r, stage).workers;
  }

  function RecordedOn(s: Site, r: Record, stage: nat): Site {
    s.(rows := map[r.id := r.RecordAlert(s.clock, stage)],
       log := s.log + [Told(r.id, s.clock, stage, HEARD)] + [Alerted(r.id, s.clock, stage)])
  }

  function Deciding(s: Site, scanned: Record, now: Time, stage: nat, row: Record): Site {
    With(s, 0, Ready(row.id, RecordAlert(scanned, now, stage), 0, row, Alert(now, stage)))
  }

  lemma ThenDecides(from: Site, s: Site, scanned: Record, now: Time, stage: nat, row: Record, swapsOnly: bool)
    requires CanReach(from, s, swapsOnly)
    requires 0 in s.workers && s.workers[0] == Trying(row.id, RecordAlert(scanned, now, stage), 0)
    requires s.rows == map[row.id := row] && !row.Terminal()
    ensures CanReach(from, Deciding(s, scanned, now, stage, row), swapsOnly)
  {
    OnByRead(from, s, 0, swapsOnly);
    var got := With(s, 0, Got(row.id, RecordAlert(scanned, now, stage), 0, row));
    OnByDecide(from, got, 0, swapsOnly);
    assert got.workers[0 := Deciding(s, scanned, now, stage, row).workers[0]]
           == Deciding(s, scanned, now, stage, row).workers;
  }

  /** The alert is recorded on whatever row the pass then reads. */
  lemma ThenRecords(from: Site, s: Site, scanned: Record, now: Time, stage: nat, row: Record, swapsOnly: bool)
    requires CanReach(from, s, swapsOnly)
    requires 0 in s.workers && s.workers[0] == Trying(row.id, RecordAlert(scanned, now, stage), 0)
    requires s.rows == map[row.id := row] && !row.Terminal()
    ensures var t := Without(s, 0).(rows := map[row.id := row.RecordAlert(now, stage)],
                                    log := s.log + [Alerted(row.id, now, stage)]);
            CanReach(from, t, swapsOnly)
  {
    ThenDecides(from, s, scanned, now, stage, row, swapsOnly);
    var ready := Deciding(s, scanned, now, stage, row);
    OnBySwap(from, ready, 0, swapsOnly);
    assert ready.rows[row.id := row.RecordAlert(now, stage)] == map[row.id := row.RecordAlert(now, stage)];
    assert ready.workers - {0} == s.workers - {0};
  }

  lemma APassRecords(from: Site, s: Site, r: Record, stage: nat, channels: seq<string>, swapsOnly: bool)
    requires CanReach(from, s, swapsOnly) && OnlyRow(s, r) && !r.Terminal()
    requires PlanFor(s.ladders, s.quiet, s.momentary, r, s.clock) == Deliver(stage, channels)
    ensures CanReach(from, RecordedOn(s, r, stage), swapsOnly)
  {
    APassTells(from, s, r, stage, channels, swapsOnly);
    ThenRecords(from, ToldOf(s, r, stage), r, s.clock, stage, r, swapsOnly);
    assert ToldOf(s, r, stage).workers - {0} == s.workers;
  }

  // ---- Alerts exactly when they are due ------------------------------------------------

  /** When the alert with this number is due if every earlier one was prompt. */
  function DueTime(p: Policy, openedAt: Time, i: nat): Time
    requires p.stages != []
  {
    var n := |p.stages|;
    if i < n then openedAt + p.stages[i].after
    else openedAt + p.stages[n - 1].after + (i - n + 1) * p.repeatEvery
  }

  /** The row that n prompt passes leave. */
  predicate PromptlyAlerted(p: Policy, r: Record, n: nat, end: Record)
    requires p.stages != []
  {
    && end.id == r.id && end.severity == r.severity && end.openedAt == r.openedAt
    && end.ackedAt.None? && end.resolvedAt.None? && end.closedAt.None?
    && end.alertCount == n
    && end.lastAlertAt == if n == 0 then None else Some(DueTime(p, r.openedAt, n - 1))
  }

  lemma RungsAre(p: Policy, openedAt: Time, t: Time, k: nat)
    requires WellFormed(p.stages) && 0 < k <= |p.stages|
    requires openedAt + p.stages[k - 1].after <= t
    requires k < |p.stages| ==> openedAt + p.stages[k].after > t
    ensures Rungs(p, openedAt, t) == k
  {
    forall j | 0 <= j < k
      ensures openedAt + p.stages[j].after <= t
    {
      assert p.stages[j].after <= p.stages[k - 1].after;
    }
  }

  lemma DueTimesAscend(p: Policy, openedAt: Time, n: nat)
    requires WellFormed(p.stages) && 0 < n && (p.repeatEvery > 0 || n < |p.stages|)
    ensures Rungs(p, openedAt, DueTime(p, openedAt, n - 1)) == if n < |p.stages| then n else |p.stages|
    ensures n >= |p.stages| ==> DueTime(p, openedAt, n) == DueTime(p, openedAt, n - 1) + p.repeatEvery
    ensures DueTime(p, openedAt, n - 1) < DueTime(p, openedAt, n)
  {
    var all := |p.stages|;
    if n < all {
      RungsAre(p, openedAt, DueTime(p, openedAt, n - 1), n);
    } else {
      assert (n - all) * p.repeatEvery >= 0;
      assert (n - all + 1) * p.repeatEvery == (n - all) * p.repeatEvery + p.repeatEvery;
      RungsAre(p, openedAt, DueTime(p, openedAt, n - 1), all);
    }
  }

  lemma NextIsDue(p: Policy, r: Record, n: nat, end: Record)
    requires WellFormed(p.stages) && (p.repeatEvery > 0 || n < |p.stages|)
    requires PromptlyAlerted(p, r, n, end)
    ensures DueNow(p, end, DueTime(p, r.openedAt, n)).Fire?
  {
    if n > 0 {
      DueTimesAscend(p, r.openedAt, n);
    }
  }

  /** The site with only this incident, under this ladder, which neither holds nor
      gives up. */
  predicate Plain(s: Site, p: Policy, r: Record) {
    && OnlyRow(s, r) && r.severity in s.ladders && s.ladders[r.severity] == p
    && p.giveUpAfter <= 0 && !p.respectQuietHours
  }

  /** Some run of swaps alone has alerted n times by the time that was due. */
  ghost predicate AlertedBy(s: Site, p: Policy, r: Record, n: nat)
    requires p.stages != []
  {
    exists t :: CanReach(s, t, true) && AfterPrompt(s, p, r, n, t)
  }

  predicate AfterPrompt(s: Site, p: Policy, r: Record, n: nat, t: Site)
    requires p.stages != []
  {
    && r.id in t.rows && OnlyRow(t, t.rows[r.id]) && PromptlyAlerted(p, r, n, t.rows[r.id])
    && t.clock == (if n == 0 then s.clock else DueTime(p, r.openedAt, n - 1))
    && t.ladders == s.ladders && t.quiet == s.quiet && t.momentary == s.momentary
  }

  lemma OnePromptPass(s: Site, p: Policy, r: Record, n: nat, t: Site)
    requires WellFormed(p.stages) && Plain(s, p, r) && s.clock <= DueTime(p, r.openedAt, 0)
    requires p.repeatEvery > 0 || n < |p.stages|
    requires CanReach(s, t, true) && AfterPrompt(s, p, r, n, t)
    ensures AlertedBy(s, p, r, n + 1)
  {
    var row, due := t.rows[r.id], DueTime(p, r.openedAt, n);
    if n > 0 {
      DueTimesAscend(p, r.openedAt, n);
    }
    OnByClock(s, t, due, true);
    NextIsDue(p, r, n, row);
    var at := t.(clock := due);
    var d := DueNow(p, row, due);
    assert PlanFor(at.ladders, at.quiet, at.momentary, row, due) == Deliver(d.stage, d.channels);
    APassRecords(s, at, row, d.stage, d.channels, true);
    assert AfterPrompt(s, p, r, n + 1, RecordedOn(at, row, d.stage));
  }

  lemma {:induction false} PromptPassesAlert(s: Site, p: Policy, r: Record, n: nat)
    requires WellFormed(p.stages) && Plain(s, p, r) && s.clock <= DueTime(p, r.openedAt, 0)
    requires PromptlyAlerted(p, r, 0, r) && (p.repeatEvery > 0 || n <= |p.stages|)
    ensures AlertedBy(s, p, r, n)
  {
    if n == 0 {
      Here(s, true);
      assert AfterPrompt(s, p, r, 0, s);
    } else {
      PromptPassesAlert(s, p, r, n - 1);
      var t :| CanReach(s, t, true) && AfterPrompt(s, p, r, n - 1, t);
      OnePromptPass(s, p, r, n - 1, t);
    }
  }

  lemma AllowanceAtDue(p: Policy, openedAt: Time, m: nat)
    requires p.stages != [] && p.repeatEvery > 0
    ensures Allowance(p, openedAt, DueTime(p, openedAt, |p.stages| + m - 1)) == |p.stages| + m
  {
    DivByDefinition(m * p.repeatEvery, p.repeatEvery, m);
  }

  /** Some run of passes records exactly as many alerts as the bound allows at that
      instant, for every number of repeats. */
  lemma AlertBoundIsReached(s: Site, p: Policy, r: Record, m: nat)
    requires Valid(p, r.severity) && Plain(s, p, r) && p.repeatEvery > 0
    requires PromptlyAlerted(p, r, 0, r) && s.clock <= DueTime(p, r.openedAt, 0)
    ensures exists t :: CanReach(s, t, true) && r.id in t.rows
              && t.rows[r.id].alertCount == |p.stages| + m == Allowance(p, r.openedAt, t.clock)
  {
    PromptPassesAlert(s, p, r, |p.stages| + m);
    var t :| CanReach(s, t, true) && AfterPrompt(s, p, r, |p.stages| + m, t);
    AllowanceAtDue(p, r.openedAt, m);
  }
}
