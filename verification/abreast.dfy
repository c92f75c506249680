/** Two things wrong at once: a pass over one incident goes through whatever else is
    live, as long as it is not about the same condition. */
module Abreast {
  import opened Base
  import opened Incidents
  import opened Policies
  import opened Queues
  import opened Stores
  import opened CasLoops
  import opened Deliveries
  import opened Scheduling
  import opened AlarmEngine
  import opened Reaching
  import opened PromptPasses

  /** The row is stored and live, no other live row has its key, its plan is to
      deliver, and worker k is free to do it. */
  predicate MayAlert(s: Site, k: nat, id: string, stage: nat) {
    && k !in s.workers && id in s.rows && s.rows[id].id == id && !s.rows[id].Terminal()
    && NobodyElseLive(s.rows, s.rows[id])
    && var plan := PlanFor(s.ladders, s.quiet, s.momentary, s.rows[id], s.clock);
       plan.Deliver? && plan.stage == stage
  }

  /** Somebody was told about it, and that is recorded. */
  function Recorded(s: Site, id: string, stage: nat): Site
    requires id in s.rows
  {
    s.(rows := s.rows[id := s.rows[id].RecordAlert(s.clock, stage)],
       log := s.log + [Told(id, s.clock, stage, HEARD)] + [Alerted(id, s.clock, stage)])
  }

  function Hearing(s: Site, k: nat, id: string, stage: nat): Site
    requires id in s.rows
  {
    With(s, k, Trying(id, RecordAlert(s.rows[id], s.clock, stage), 0))
    .(log := s.log + [Told(id, s.clock, stage, HEARD)])
  }

  function Deciding(s: Site, k: nat, id: string, stage: nat): Site
    requires id in s.rows
  {
    With(Hearing(s, k, id, stage), k,
         Ready(id, RecordAlert(s.rows[id], s.clock, stage), 0, s.rows[id], Alert(s.clock, stage)))
  }

  lemma ItIsTold(from: Site, s: Site, k: nat, id: string, stage: nat)
    requires CanReach(from, s, true) && MayAlert(s, k, id, stage)
    ensures CanReach(from, Hearing(s, k, id, stage), true)
  {
    var r := s.rows[id];
    OnByScan(from, s, k, id, s.clock, true);
    var scanned := With(s, k, Scanned(r, s.clock));
    OnByProcess(from, scanned, k, true);
    var delivering := With(s, k, Delivering(r, s.clock, stage));
    assert Processed(scanned, k, r, s.clock).workers == delivering.workers;
    assert Processed(scanned, k, r, s.clock) == delivering;
    assert Accepted(HEARD[0]);
    OnByReturn(from, delivering, k, HEARD, "", true);
    assert Returned(delivering, k, delivering.workers[k], HEARD, "").workers == Hearing(s, k, id, stage).workers;
  }

  lemma ItIsDecided(from: Site, s: Site, k: nat, id: string, stage: nat)
    requires CanReach(from, s, true) && MayAlert(s, k, id, stage)
    ensures CanReach(from, Deciding(s, k, id, stage), true)
  {
    ItIsTold(from, s, k, id, stage);
    var t := Hearing(s, k, id, stage);
    OnByRead(from, t, k, true);
    var got := With(t, k, Got(id, RecordAlert(s.rows[id], s.clock, stage), 0, s.rows[id]));
    OnByDecide(from, got, k, true);
    assert With(got, k, Deciding(s, k, id, stage).workers[k]).workers == Deciding(s, k, id, stage).workers;
  }

  /** From any such site a pass over the row, which nothing comes in between, tells
      somebody and records it, and leaves every other row as it was. */
  lemma AnUndisturbedPassRecords(from: Site, s: Site, k: nat, id: string, stage: nat)
    requires CanReach(from, s, true) && MayAlert(s, k, id, stage)
    ensures CanReach(from, Recorded(s, id, stage), true)
  {
    ItIsDecided(from, s, k, id, stage);
    var t := Deciding(s, k, id, stage);
    OnBySwap(from, t, k, true);
    assert t.workers - {k} == s.workers;
  }

  /** Two live incidents of different keys, both due: each of them is told of and
      recorded, and neither refuses the other. */
  lemma BothAreRecorded(s: Site, k: nat, a: string, b: string, i: nat, j: nat)
    requires a != b && MayAlert(s, k, a, i) && MayAlert(s, k, b, j)
    ensures exists t :: CanReach(s, t, true) && t.rows.Keys == s.rows.Keys
              && t.rows[a] == s.rows[a].RecordAlert(s.clock, i) && t.rows[b] == s.rows[b].RecordAlert(s.clock, j)
              && (forall id :: id in s.rows && id != a && id != b ==> t.rows[id] == s.rows[id])
              && t.rows[a].alertCount == s.rows[a].alertCount + 1 && t.rows[b].alertCount == s.rows[b].alertCount + 1
  {
    Here(s, true);
    AnUndisturbedPassRecords(s, s, k, a, i);
    var t := Recorded(s, a, i);
    StaysDue(s, k, a, b, i, j);
    AnUndisturbedPassRecords(s, t, k, b, j);
    var u := Recorded(t, b, j);
    assert u.rows.Keys == s.rows.Keys;
  }

  lemma StaysDue(s: Site, k: nat, a: string, b: string, i: nat, j: nat)
    requires a != b && MayAlert(s, k, a, i) && MayAlert(s, k, b, j)
    ensures MayAlert(Recorded(s, a, i), k, b, j)
  {
    var t := Recorded(s, a, i);
    forall id | id in t.rows && id != b && t.rows[id].dedupKey == t.rows[b].dedupKey
      ensures t.rows[id].Terminal()
    {
      assert s.rows[id].dedupKey == s.rows[b].dedupKey;
    }
  }
}
