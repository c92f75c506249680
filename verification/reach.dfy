/** Runs of the engine, put together one step at a time. */
module Reaching {
  import opened Base
  import opened Incidents
  import opened Stores
  import opened CasLoops
  import opened Deliveries
  import opened Scheduling
  import opened AlarmEngine
  import opened Races

  lemma {:induction false} OneMoreStep(s: Site, ls: seq<Label>, l: Label)
    ensures Exec(s, ls + [l]) == Next(Exec(s, ls), l)
    decreases ls
  {
    if ls == [] {
      assert [] + [l] == [l];
      assert Exec(Next(s, l), []) == Next(s, l);
    } else {
      OneMoreStep(Next(s, ls[0]), ls[1..], l);
      assert (ls + [l])[1..] == ls[1..] + [l];
    }
  }

  lemma {:induction false} ExecJoins(s: Site, a: seq<Label>, b: seq<Label>)
    ensures Exec(s, a + b) == Exec(Exec(s, a), b)
    decreases a
  {
    if a == [] {
      assert [] + b == b;
    } else {
      ExecJoins(Next(s, a[0]), a[1..], b);
      assert (a + b)[1..] == a[1..] + b;
    }
  }

  /** No plain engine write among them. */
  predicate SwapsOnly(ls: seq<Label>) {
    forall i :: 0 <= i < |ls| ==> !ls[i].EnginePuts?
  }

  /** Some run leads from s to t. */
  ghost predicate CanReach(s: Site, t: Site, swapsOnly: bool) {
    exists ls :: Exec(s, ls) == t && (swapsOnly ==> SwapsOnly(ls))
  }

  lemma Here(s: Site, swapsOnly: bool)
    ensures CanReach(s, s, swapsOnly)
  {
    assert Exec(s, []) == s;
  }

  lemma Onward(s: Site, t: Site, l: Label, swapsOnly: bool)
    requires CanReach(s, t, swapsOnly) && (swapsOnly ==> !l.EnginePuts?)
    ensures CanReach(s, Next(t, l), swapsOnly)
  {
    var ls :| Exec(s, ls) == t && (swapsOnly ==> SwapsOnly(ls));
    OneMoreStep(s, ls, l);
    assert Exec(s, ls + [l]) == Next(t, l);
  }

  // ---- Single steps, each extending a run -------------------------------------

  lemma OnByClock(from: Site, s: Site, t: Time, swapsOnly: bool)
    requires CanReach(from, s, swapsOnly) && s.clock <= t
    ensures CanReach(from, s.(clock := t), swapsOnly)
  {
    Onward(from, s, ClockTo(t), swapsOnly);
  }

  lemma OnByRequest(from: Site, s: Site, k: nat, id: string, intent: Intent, swapsOnly: bool)
    requires CanReach(from, s, swapsOnly) && k !in s.workers && FromOutside(intent, s.clock)
    ensures CanReach(from, With(s, k, Trying(id, intent, 0)), swapsOnly)
  {
    Onward(from, s, Request(k, id, intent), swapsOnly);
  }

  lemma OnByRead(from: Site, s: Site, k: nat, swapsOnly: bool)
    requires CanReach(from, s, swapsOnly) && k in s.workers && s.workers[k].Trying?
    requires s.workers[k].id in s.rows
    ensures var w := s.workers[k];
            CanReach(from, With(s, k, Got(w.id, w.intent, w.attempt, s.rows[w.id])), swapsOnly)
  {
    Onward(from, s, Read(k), swapsOnly);
  }

  lemma OnByDecide(from: Site, s: Site, k: nat, swapsOnly: bool)
    requires CanReach(from, s, swapsOnly) && k in s.workers && s.workers[k].Got?
    requires !Declines(s.workers[k].intent, s.workers[k].copy)
    ensures var w := s.workers[k];
            CanReach(from, With(s, k, Ready(w.id, w.intent, w.attempt, w.copy, Change(w.intent, s.clock))),
                     swapsOnly)
  {
    Onward(from, s, Decide(k), swapsOnly);
  }

  /** No other live row has this one's key. */
  predicate NobodyElseLive(rows: Table, r: Record) {
    forall id :: id in rows && id != r.id && rows[id].dedupKey == r.dedupKey ==> rows[id].Terminal()
  }

  lemma OnBySwap(from: Site, s: Site, k: nat, swapsOnly: bool)
    requires CanReach(from, s, swapsOnly) && k in s.workers && s.workers[k].Ready?
    requires var w := s.workers[k];
             && w.copy.id in s.rows && s.rows[w.copy.id].updatedAt == w.copy.updatedAt
             && NobodyElseLive(s.rows, w.copy)
    ensures var w := s.workers[k];
            CanReach(from, Without(s, k).(rows := s.rows[w.copy.id := Apply(w.change, w.copy)],
                                          log := s.log + Recorded(w.intent, w.id, w.copy, w.change)),
                     swapsOnly)
  {
    var w := s.workers[k];
    ApplyKeepsIdentity(w.change, w.copy);
    RefusedExactlyWhen(s.rows, Apply(w.change, w.copy));
    Onward(from, s, Swap(k), swapsOnly);
  }

  lemma OnByEngineRead(from: Site, s: Site, k: nat, id: string)
    requires CanReach(from, s, false) && k !in s.workers && id in s.rows && !s.rows[id].Terminal()
    ensures CanReach(from, With(s, k, EngineRead(id, s.rows[id])), false)
  {
    Onward(from, s, EngineReads(k, id), false);
  }

  lemma OnByEnginePut(from: Site, s: Site, k: nat, e: EngineWrite)
    requires CanReach(from, s, false) && k in s.workers && s.workers[k].EngineRead? && e.at <= s.clock
    requires Writes(e, s.workers[k].copy)
    requires s.rows.Keys == {s.workers[k].copy.id}
    ensures var copy := s.workers[k].copy;
            CanReach(from, Without(s, k).(rows := s.rows[copy.id := EngineRow(e, copy)]), false)
  {
    EngineRowStamps(e, s.workers[k].copy);
    assert !Clashes(s.rows, EngineRow(e, s.workers[k].copy));
    Onward(from, s, EnginePuts(k, e), false);
  }

  lemma BothLegs(s: Site, t: Site, u: Site, swapsOnly: bool)
    requires CanReach(s, t, swapsOnly) && CanReach(t, u, swapsOnly)
    ensures CanReach(s, u, swapsOnly)
  {
    var a :| Exec(s, a) == t && (swapsOnly ==> SwapsOnly(a));
    var b :| Exec(t, b) == u && (swapsOnly ==> SwapsOnly(b));
    ExecJoins(s, a, b);
    assert Exec(s, a + b) == u;
  }

  lemma OnByScan(from: Site, s: Site, k: nat, id: string, now: Time, swapsOnly: bool)
    requires CanReach(from, s, swapsOnly) && k !in s.workers && id in s.rows
    requires !s.rows[id].Terminal() && now <= s.clock
    ensures CanReach(from, With(s, k, Scanned(s.rows[id], now)), swapsOnly)
  {
    Onward(from, s, Scan(k, id, now), swapsOnly);
  }

  lemma OnByProcess(from: Site, s: Site, k: nat, swapsOnly: bool)
    requires CanReach(from, s, swapsOnly) && k in s.workers && s.workers[k].Scanned?
    ensures CanReach(from, Processed(s, k, s.workers[k].inc, s.workers[k].now), swapsOnly)
  {
    Onward(from, s, Process(k), swapsOnly);
  }

  lemma OnByReturn(from: Site, s: Site, k: nat, results: seq<ChannelResult>, failure: string, swapsOnly: bool)
    requires CanReach(from, s, swapsOnly) && k in s.workers && s.workers[k].Delivering?
    ensures CanReach(from, Returned(s, k, s.workers[k], results, failure), swapsOnly)
  {
    Onward(from, s, DeliveryReturns(k, results, failure), swapsOnly);
  }

  lemma OnByRestart(from: Site, s: Site, swapsOnly: bool)
    requires CanReach(from, s, swapsOnly)
    ensures CanReach(from, s.(workers := map[]), swapsOnly)
  {
    Onward(from, s, Restart, swapsOnly);
  }
}
