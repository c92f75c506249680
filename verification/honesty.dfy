/** What the engine may claim: an alert only after somebody was told, giving up
    only on an incident somebody was told about, and neither a close nor a hold of
    what it scanned as critical.

    These hold of every run, plain engine writes and all. */
module Honesty {
  import opened Base
  import opened Incidents
  import opened Policies
  import opened Stores
  import opened CasLoops
  import opened Deliveries
  import opened Scheduling
  import opened AlarmEngine
  import opened Races

  /** The fan-out of the pass that began at now answered that a channel accepted;
      the scheduler's contract ties that answer to a configured queue which has
      just sent exactly this alert. */
  ghost predicate ToldAt(log: seq<Event>, id: string, now: Time) {
    exists stage :: ToldIn(log, id, now, stage)
  }

  lemma ToldStaysTold(log: seq<Event>, longer: seq<Event>, id: string, now: Time, stage: int)
    requires ToldIn(log, id, now, stage) && log <= longer
    ensures ToldIn(longer, id, now, stage)
  {
    var i :| 0 <= i < |log| && log[i].Told? && log[i].id == id && log[i].now == now
             && log[i].stage == stage && SomebodyTold(log[i].results);
    assert longer[i] == log[i];
  }

  /** The alert stamps of a row are all of them earned. */
  ghost predicate RowHonest(log: seq<Event>, r: Record) {
    && (r.firstAlertAt.Some? ==> ToldAt(log, r.id, r.firstAlertAt.value))
    && (r.lastAlertAt.Some? ==> ToldAt(log, r.id, r.lastAlertAt.value))
  }

  /** An intent the scheduler may hold. */
  ghost predicate IntentHonest(log: seq<Event>, id: string, intent: Intent) {
    match intent
    case RecordAlert(scanned, now, stage) => scanned.id == id && ToldIn(log, id, now, stage)
    case GiveUpOn(scanned, now, p) =>
      scanned.id == id && Valid(p, scanned.severity) && ShouldGiveUp(p, scanned, now)
    case _ => true
  }

  ghost predicate WorkerHonest(log: seq<Event>, w: Worker) {
    match w
    case Scanned(_, _) => true
    case Delivering(_, _, _) => true
    case Trying(id, intent, _) => IntentHonest(log, id, intent)
    case Got(id, intent, _, copy) => IntentHonest(log, id, intent) && copy.id == id && RowHonest(log, copy)
    case Ready(id, intent, _, copy, change) =>
      && IntentHonest(log, id, intent) && copy.id == id && RowHonest(log, copy)
      && !Declines(intent, copy) && change == Change(intent, change.at)
    case EngineRead(id, copy) => copy.id == id && RowHonest(log, copy)
  }

  /** What the log may say at position i. */
  ghost predicate EventHonest(log: seq<Event>, i: nat)
    requires i < |log|
  {
    match log[i]
    case Told(_, _, _, results) => true
    case Alerted(id, now, stage) => ToldIn(log[..i], id, now, stage)
    case Acked(_, _, _) => true
    case WebAcked(_, _, _) => true
    case GaveUp(scanned, copy, now, p) =>
      && Valid(p, scanned.severity) && scanned.severity != Critical
      && copy.id == scanned.id
      && 0 < p.giveUpAfter < now - copy.openedAt
      && copy.ackedAt.None? && copy.closedAt.None? && copy.firstAlertAt.Some?
      && ToldAt(log[..i], copy.id, copy.firstAlertAt.value)
    case Held(scanned, _, p) => Valid(p, scanned.severity) && scanned.severity != Critical
  }

  ghost predicate Honest(s: Site) {
    && AllValid(s.ladders) && Keyed(s.rows)
    && (forall id :: id in s.rows ==> RowHonest(s.log, s.rows[id]))
    && (forall k :: k in s.workers ==> WorkerHonest(s.log, s.workers[k]))
    && (forall i :: 0 <= i < |s.log| ==> EventHonest(s.log, i))
  }

  lemma RowStaysHonest(log: seq<Event>, longer: seq<Event>, r: Record)
    requires RowHonest(log, r) && log <= longer
    ensures RowHonest(longer, r)
  {
    if r.firstAlertAt.Some? {
      var stage :| ToldIn(log, r.id, r.firstAlertAt.value, stage);
      ToldStaysTold(log, longer, r.id, r.firstAlertAt.value, stage);
    }
    if r.lastAlertAt.Some? {
      var stage :| ToldIn(log, r.id, r.lastAlertAt.value, stage);
      ToldStaysTold(log, longer, r.id, r.lastAlertAt.value, stage);
    }
  }

  lemma WorkerStaysHonest(log: seq<Event>, longer: seq<Event>, w: Worker)
    requires WorkerHonest(log, w) && log <= longer
    ensures WorkerHonest(longer, w)
  {
    if CopyOf(w).Some? {
      RowStaysHonest(log, longer, CopyOf(w).value);
    }
    if (w.Trying? || w.Got? || w.Ready?) && w.intent.RecordAlert? {
      ToldStaysTold(log, longer, w.id, w.intent.now, w.intent.stage);
    }
  }

  lemma EventsStayHonest(log: seq<Event>, more: seq<Event>)
    requires forall i :: 0 <= i < |log| ==> EventHonest(log, i)
    requires forall i :: |log| <= i < |log + more| ==> EventHonest(log + more, i)
    ensures forall i :: 0 <= i < |log + more| ==> EventHonest(log + more, i)
  {
    forall i | 0 <= i < |log|
      ensures EventHonest(log + more, i)
    {
      assert EventHonest(log, i);
      assert (log + more)[..i] == log[..i] && (log + more)[i] == log[i];
    }
  }

  lemma MoveKeepsHonest(s: Site, t: Site, k: nat)
    requires Honest(s) && Still(s, t) && k in t.workers
    ensures WorkerHonest(t.log, t.workers[k])
  {
    var w := t.workers[k];
    assert Moves(s, t.log, k, w);
    if k in s.workers {
      WorkerStaysHonest(s.log, t.log, s.workers[k]);
    }
    if CopyOf(w).Some? && CopyOf(w).value.id in s.rows {
      RowStaysHonest(s.log, t.log, s.rows[CopyOf(w).value.id]);
    }
  }

  lemma StillKeepsHonest(s: Site, t: Site)
    requires Honest(s) && Still(s, t) && AllValid(t.ladders)
    ensures Honest(t)
  {
    var more := t.log[|s.log|..];
    assert t.log == s.log + more;
    forall id | id in t.rows
      ensures RowHonest(t.log, t.rows[id])
    {
      RowStaysHonest(s.log, t.log, s.rows[id]);
    }
    forall k | k in t.workers
      ensures WorkerHonest(t.log, t.workers[k])
    {
      MoveKeepsHonest(s, t, k);
    }
    EventsStayHonest(s.log, more);
  }

  /** A row was written, by a worker that is now done. */
  lemma WriteKeepsHonest(s: Site, t: Site, k: nat, row: Record, more: seq<Event>)
    requires Honest(s) && RowHonest(s.log, row)
    requires t == s.(rows := s.rows[row.id := row], workers := s.workers - {k}, log := s.log + more)
    requires forall i :: |s.log| <= i < |t.log| ==> EventHonest(t.log, i)
    ensures Honest(t)
  {
    forall id | id in t.rows
      ensures RowHonest(t.log, t.rows[id])
    {
      RowStaysHonest(s.log, t.log, t.rows[id]);
    }
    forall j | j in t.workers
      ensures WorkerHonest(t.log, t.workers[j])
    {
      WorkerStaysHonest(s.log, t.log, s.workers[j]);
    }
    EventsStayHonest(s.log, more);
  }

  /** A change only ever stamps an alert that was told. */
  lemma ChangeIsHonest(log: seq<Event>, w: Worker)
    requires w.Ready? && WorkerHonest(log, w)
    ensures RowHonest(log, Apply(w.change, w.copy))
  {
    ApplyKeepsIdentity(w.change, w.copy);
    if w.intent.RecordAlert? {
      assert ToldAt(log, w.id, w.intent.now);
    }
  }

  lemma RecordIsHonest(log: seq<Event>, w: Worker)
    requires w.Ready? && WorkerHonest(log, w)
    ensures var more := Recorded(w.intent, w.id, w.copy, w.change);
            forall i :: |log| <= i < |log + more| ==> EventHonest(log + more, i)
  {
    var more := Recorded(w.intent, w.id, w.copy, w.change);
    assert (log + more)[..|log|] == log;
  }

  lemma StepKeepsHonest(s: Site, l: Label)
    requires Honest(s)
    ensures Honest(Next(s, l))
  {
    var t := Next(s, l);
    StepIsOfAKind(s, l);
    LaddersStayValid(s, l);
    if Still(s, t) {
      StillKeepsHonest(s, t);
    } else if l.Swap? {
      var w := s.workers[l.k];
      assert WorkerHonest(s.log, w);
      ChangeIsHonest(s.log, w);
      RecordIsHonest(s.log, w);
      WriteKeepsHonest(s, t, l.k, Apply(w.change, w.copy), Recorded(w.intent, w.id, w.copy, w.change));
    } else if l.EnginePuts? {
      assert WorkerHonest(s.log, s.workers[l.k]);
      assert s.log + [] == s.log;
      WriteKeepsHonest(s, t, l.k, EngineRow(l.e, s.workers[l.k].copy), []);
    }
  }

  /** In every run, under any sequence of accepted ladders and quiet windows:
      a row's alert stamps name passes whose fan-out told somebody; an alert is
      logged only after one did; and the scheduler closes an incident only under a
      valid ladder, past its horizon and unacknowledged in the copy it closed,
      after somebody had been told about it. What a pass scanned as critical it
      neither closes nor holds; what becomes of an incident that rises to critical
      after the scan is told exactly in the module Criticals. */
  lemma {:induction false} EveryRunIsHonest(s: Site, ls: seq<Label>)
    requires Honest(s)
    ensures Honest(Exec(s, ls))
    decreases ls
  {
    if ls != [] {
      StepKeepsHonest(s, ls[0]);
      EveryRunIsHonest(Next(s, ls[0]), ls[1..]);
    }
  }

  /** A site that has just started, with rows nobody was told about yet, meets
      what the theorem asks for. */
  lemma StartedSiteIsHonest(s: Site)
    requires AllValid(s.ladders) && Keyed(s.rows) && s.workers == map[] && s.log == []
    requires forall id :: id in s.rows ==> s.rows[id].firstAlertAt.None? && s.rows[id].lastAlertAt.None?
    ensures Honest(s)
  {
  }
}
