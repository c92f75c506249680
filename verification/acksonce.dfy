/** One acknowledgement per incident, however many taps and clicks race for it. */
module AcksOnce {
  import opened Base
  import opened Incidents
  import opened CasLoops
  import opened AlarmEngine
  import opened Races

  /** The event put an answer on the row: the endpoint's hook for a tap, or the
      page's entry for a row that nobody had answered. */
  predicate Stamps(e: Event, id: string) {
    (e.Acked? && e.id == id) || (e.WebAcked? && e.id == id && !e.again)
  }

  /** The answers recorded for one incident, oldest first. */
  function StampsOf(log: seq<Event>, id: string): seq<Event> {
    if log == [] then []
    else
      var e := log[|log| - 1];
      StampsOf(log[..|log| - 1], id) + if Stamps(e, id) then [e] else []
  }

  lemma OneMoreEvent(log: seq<Event>, e: Event, id: string)
    ensures StampsOf(log + [e], id) == StampsOf(log, id) + if Stamps(e, id) then [e] else []
  {
    assert (log + [e])[..|log|] == log;
  }

  lemma {:induction false} QuietEventsAckNothing(log: seq<Event>, more: seq<Event>, id: string)
    requires forall i :: 0 <= i < |more| ==> !Stamps(more[i], id)
    ensures StampsOf(log + more, id) == StampsOf(log, id)
    decreases |more|
  {
    if more == [] {
      assert log + more == log;
    } else {
      var before, e := more[..|more| - 1], more[|more| - 1];
      QuietEventsAckNothing(log, before, id);
      OneMoreEvent(log + before, e, id);
      assert log + before + [e] == log + more;
    }
  }

  predicate AckedAs(r: Record, e: Event)
    requires e.Acked? || e.WebAcked?
  {
    r.ackedAt == Some(e.at) && r.ackVia == if e.Acked? then e.via else "web"
  }

  /** What a copy of the row may say about its acknowledgement. */
  predicate CopyAgrees(s: Site, id: string, w: Worker) {
    match CopyOf(w)
    case None => true
    case Some(c) =>
      var stamps := StampsOf(s.log, id);
      c.id == id ==>
        && (stamps == [] ==> c.ackedAt.None?)
        && (|stamps| == 1 && Stamps(stamps[0], id) && id in s.rows && c.updatedAt == s.rows[id].updatedAt ==>
              AckedAs(c, stamps[0]))
  }

  /** The row is acknowledged exactly as the one recorded answer says, or not at
      all when there is none. */
  ghost predicate AckKnown(s: Site, id: string) {
    var stamps := StampsOf(s.log, id);
    && |stamps| <= 1 && (stamps != [] ==> Stamps(stamps[0], id))
    && (id in s.rows ==>
          && (stamps == [] ==> s.rows[id].ackedAt.None?)
          && (stamps != [] ==> AckedAs(s.rows[id], stamps[0])))
    && (id !in s.used ==> stamps == [])
    && forall k :: k in s.workers ==> CopyAgrees(s, id, s.workers[k])
  }

  /** The worker means to answer, and its copy is not answered yet. */
  predicate WouldStamp(intent: Intent, copy: Record) {
    intent.Tap? || (intent.WebAck? && copy.ackedAt.None?)
  }

  /** An answer about to be written carries a stamp past the token it read. */
  predicate StampIsAhead(w: Worker) {
    w.Ready? && WouldStamp(w.intent, w.copy) ==> w.change.at > w.copy.updatedAt
  }

  ghost predicate StampsAreAhead(s: Site) {
    forall k :: k in s.workers ==> StampIsAhead(s.workers[k])
  }

  /** An answer never reads the clock at the very instant the row already
      carries. */
  predicate NoTie(s: Site, l: Label) {
    l.Decide? && l.k in s.workers && s.workers[l.k].Got? && WouldStamp(s.workers[l.k].intent, s.workers[l.k].copy)
    ==> s.clock != s.workers[l.k].copy.updatedAt
  }

  /** A plain write of this row was not read before the row was answered. */
  predicate AnswerKept(s: Site, l: Label, id: string) {
    l.EnginePuts? && PutLands(s, l.k, l.e) && s.workers[l.k].copy.id == id && id in s.rows
    && s.rows[id].ackedAt.Some? ==>
      var c := s.workers[l.k].copy;
      c.ackedAt == s.rows[id].ackedAt && c.ackVia == s.rows[id].ackVia
  }

  /** A run in which answers race with everything, but never on an exact tie of
      clocks and never against a plain write that missed one. */
  ghost predicate FairRun(s: Site, ls: seq<Label>, id: string)
    decreases ls
  {
    ls != [] ==>
      && Guarded(s, ls[0]) && NoTie(s, ls[0]) && AnswerKept(s, ls[0], id)
      && FairRun(Next(s, ls[0]), ls[1..], id)
  }

  /** Which changes answer a row, and how. */
  lemma OnlyAnswersAcknowledge(intent: Intent, change: Mutation, copy: Record)
    requires !Declines(intent, copy) && change == Change(intent, change.at)
    ensures if WouldStamp(intent, copy)
            then Apply(change, copy).ackedAt == Some(change.at)
                 && Apply(change, copy).ackVia == (if intent.Tap? then intent.via else "web")
                 && Apply(change, copy).updatedAt == Max(copy.updatedAt, change.at)
            else Apply(change, copy).ackedAt == copy.ackedAt && Apply(change, copy).ackVia == copy.ackVia
  {
  }

  lemma EngineLeavesTheAck(e: EngineWrite, copy: Record)
    ensures EngineRow(e, copy).ackedAt == copy.ackedAt && EngineRow(e, copy).ackVia == copy.ackVia
  {
  }

  lemma StepKeepsStampsAhead(s: Site, l: Label)
    requires Sane(s) && StampsAreAhead(s) && NoTie(s, l)
    ensures StampsAreAhead(Next(s, l))
  {
    var t := Next(s, l);
    StepIsOfAKind(s, l);
    forall k | k in t.workers
      ensures StampIsAhead(t.workers[k])
    {
      if k in s.workers && t.workers[k] == s.workers[k] {
        assert StampIsAhead(s.workers[k]);
      } else {
        assert Moves(s, t.log, k, t.workers[k]);
        if t.workers[k].Ready? {
          assert WorkerSane(s, s.workers[k]);
          NewCopyIsARead(s, l, k);
        }
      }
    }
  }

  /** A row was written by a change that is not an answer. */
  lemma OtherWriteKeepsAck(s: Site, t: Site, id: string, k: nat, next: Record)
    requires Sane(s) && AckKnown(s, id) && k in s.workers && CopyOf(s.workers[k]).Some?
    requires var c := CopyOf(s.workers[k]).value;
             && c.id == next.id && next.id in s.rows && next.ackedAt == c.ackedAt && next.ackVia == c.ackVia
             && s.rows[next.id].updatedAt <= next.updatedAt
             && (next.id == id && s.rows[id].ackedAt.Some? ==>
                   c.ackedAt == s.rows[id].ackedAt && c.ackVia == s.rows[id].ackVia)
    requires t.rows == s.rows[next.id := next] && t.workers == s.workers - {k} && t.used == s.used
    requires StampsOf(t.log, id) == StampsOf(s.log, id)
    ensures AckKnown(t, id)
  {
    assert CopyAgrees(s, id, s.workers[k]);
    forall j | j in t.workers
      ensures CopyAgrees(t, id, t.workers[j])
    {
      assert CopyAgrees(s, id, s.workers[j]) && WorkerSane(s, s.workers[j]);
    }
  }

  /** What an answer puts in the log. */
  lemma AnswerIsLogged(w: Worker)
    requires w.Ready? && (w.intent.Tap? || w.intent.WebAck?) && w.change.Ack?
    ensures |Recorded(w.intent, w.id, w.copy, w.change)| == 1
    ensures var e := Recorded(w.intent, w.id, w.copy, w.change)[0];
            && (Stamps(e, w.id) <==> WouldStamp(w.intent, w.copy))
            && (e.Acked? || e.WebAcked?) && e.id == w.id && e.at == w.change.at
            && (e.Acked? <==> w.intent.Tap?) && (e.Acked? ==> e.via == w.intent.via)
  {
  }

  /** A row nobody had answered was written ahead, answered as the event says. */
  lemma NewAnswerKeepsAck(s: Site, t: Site, id: string, k: nat, next: Record, e: Event)
    requires Sane(s) && AckKnown(s, id)
    requires next.id in s.rows && s.rows[next.id].updatedAt < next.updatedAt
    requires Stamps(e, next.id) && AckedAs(next, e)
    requires next.id == id ==> StampsOf(s.log, id) == []
    requires t.rows == s.rows[next.id := next] && t.workers == s.workers - {k} && t.used == s.used
    requires t.log == s.log + [e]
    ensures AckKnown(t, id)
  {
    OneMoreEvent(s.log, e, id);
    forall j | j in t.workers
      ensures CopyAgrees(t, id, t.workers[j])
    {
      assert CopyAgrees(s, id, s.workers[j]) && WorkerSane(s, s.workers[j]);
    }
  }

  lemma AnswerKeepsAck(s: Site, t: Site, id: string, k: nat)
    requires Sane(s) && AckKnown(s, id) && StampsAreAhead(s) && Won(s, t, k)
    requires WouldStamp(s.workers[k].intent, s.workers[k].copy)
    ensures AckKnown(t, id)
  {
    var w := s.workers[k];
    WonRow(s, t, k);
    assert WorkerSane(s, w) && StampIsAhead(w) && CopyAgrees(s, id, w);
    OnlyAnswersAcknowledge(w.intent, w.change, w.copy);
    AnswerIsLogged(w);
    var e := Recorded(w.intent, w.id, w.copy, w.change)[0];
    assert Recorded(w.intent, w.id, w.copy, w.change) == [e];
    NewAnswerKeepsAck(s, t, id, k, Apply(w.change, w.copy), e);
  }

  lemma OthersAreLogged(w: Worker, id: string)
    requires w.Ready? && !WouldStamp(w.intent, w.copy)
    ensures forall i :: 0 <= i < |Recorded(w.intent, w.id, w.copy, w.change)| ==>
              !Stamps(Recorded(w.intent, w.id, w.copy, w.change)[i], id)
  {
  }

  lemma SwapKeepsAck(s: Site, t: Site, id: string, k: nat)
    requires Sane(s) && AckKnown(s, id) && StampsAreAhead(s) && Won(s, t, k)
    ensures AckKnown(t, id)
  {
    var w := s.workers[k];
    if WouldStamp(w.intent, w.copy) {
      AnswerKeepsAck(s, t, id, k);
    } else {
      WonRow(s, t, k);
      assert WorkerSane(s, w) && CopyAgrees(s, id, w);
      OnlyAnswersAcknowledge(w.intent, w.change, w.copy);
      OthersAreLogged(w, id);
      QuietEventsAckNothing(s.log, Recorded(w.intent, w.id, w.copy, w.change), id);
      OtherWriteKeepsAck(s, t, id, k, Apply(w.change, w.copy));
    }
  }

  lemma StillKeepsAck(s: Site, t: Site, id: string)
    requires Sane(s) && AckKnown(s, id) && Still(s, t)
    ensures AckKnown(t, id)
  {
    var more := t.log[|s.log|..];
    assert t.log == s.log + more;
    QuietEventsAckNothing(s.log, more, id);
    forall k | k in t.workers
      ensures CopyAgrees(t, id, t.workers[k])
    {
      assert Moves(s, t.log, k, t.workers[k]);
      if k in s.workers {
        assert CopyAgrees(s, id, s.workers[k]);
      }
    }
  }

  lemma PutKeepsAck(s: Site, t: Site, id: string, k: nat, e: EngineWrite)
    requires Sane(s) && AckKnown(s, id) && EnginePut(s, t, k, e)
    requires Guarded(s, EnginePuts(k, e)) && AnswerKept(s, EnginePuts(k, e), id)
    ensures AckKnown(t, id)
  {
    PutRow(s, t, k, e);
    EngineLeavesTheAck(e, s.workers[k].copy);
    OtherWriteKeepsAck(s, t, id, k, EngineRow(e, s.workers[k].copy));
  }

  lemma StepKeepsAck(s: Site, l: Label, id: string)
    requires Sane(s) && Guarded(s, l) && AnswerKept(s, l, id) && AckKnown(s, id) && StampsAreAhead(s)
    ensures AckKnown(Next(s, l), id)
  {
    var t := Next(s, l);
    StepIsOfAKind(s, l);
    if Still(s, t) {
      StillKeepsAck(s, t, id);
    } else if l.Swap? {
      SwapKeepsAck(s, t, id, l.k);
    } else if l.EnginePuts? {
      PutKeepsAck(s, t, id, l.k, l.e);
    } else {
      forall k | k in t.workers
        ensures CopyAgrees(t, id, t.workers[k])
      {
        assert CopyAgrees(s, id, s.workers[k]) && WorkerSane(s, s.workers[k]);
      }
    }
  }

  /** However many taps and clicks race with each other and with everything
      else, one incident is answered once: by one call of the endpoint's hook or
      by one first entry of the page. The row is acknowledged exactly when that
      has happened, and then for good with that stamp and channel. */
  lemma {:induction false} AnswersCountOnce(s: Site, ls: seq<Label>, id: string)
    requires Sane(s) && AckKnown(s, id) && StampsAreAhead(s) && FairRun(s, ls, id)
    ensures Sane(Exec(s, ls)) && AckKnown(Exec(s, ls), id) && StampsAreAhead(Exec(s, ls))
    decreases ls
  {
    if ls != [] {
      StepKeepsSane(s, ls[0]);
      StepKeepsAck(s, ls[0], id);
      StepKeepsStampsAhead(s, ls[0]);
      AnswersCountOnce(Next(s, ls[0]), ls[1..], id);
    }
  }

  /** How often the endpoint's hook fired for one incident. */
  function HookCalls(log: seq<Event>, id: string): nat {
    if log == [] then 0
    else
      var e := log[|log| - 1];
      HookCalls(log[..|log| - 1], id) + if e.Acked? && e.id == id then 1 else 0
  }

  lemma {:induction false} HookCallsAreStamps(log: seq<Event>, id: string)
    ensures HookCalls(log, id) <= |StampsOf(log, id)|
  {
    if log != [] {
      HookCallsAreStamps(log[..|log| - 1], id);
    }
  }

  /** In particular the hook fires at most once. */
  lemma TheHookFiresOnce(s: Site, ls: seq<Label>, id: string)
    requires Sane(s) && AckKnown(s, id) && StampsAreAhead(s) && FairRun(s, ls, id)
    ensures HookCalls(Exec(s, ls).log, id) <= 1
  {
    AnswersCountOnce(s, ls, id);
    HookCallsAreStamps(Exec(s, ls).log, id);
  }

  /** Exactly when an acknowledgement is recorded twice: the page's entry is made
      for every click that lands, and it repeats one if and only if the row had
      been answered before; which is to say if and only if an answer is already
      in the log. The row itself is then left as it was. */
  lemma WebAckRepeatsExactlyWhen(s: Site, k: nat)
    requires Sane(s) && Won(s, Next(s, Swap(k)), k) && s.workers[k].intent.WebAck?
    requires AckKnown(s, s.workers[k].id)
    ensures var w := s.workers[k];
            var t := Next(s, Swap(k));
            && (t.log == s.log + [WebAcked(w.id, w.change.at, true)] <==> s.rows[w.id].ackedAt.Some?)
            && (t.log == s.log + [WebAcked(w.id, w.change.at, false)] <==> s.rows[w.id].ackedAt.None?)
            && (s.rows[w.id].ackedAt.Some? <==> StampsOf(s.log, w.id) != [])
            && (s.rows[w.id].ackedAt.Some? ==> t.rows[w.id] == w.copy)
  {
    var w := s.workers[k];
    WonRow(s, Next(s, Swap(k)), k);
    assert WorkerSane(s, w) && CopyAgrees(s, w.id, w);
    var yes, no := WebAcked(w.id, w.change.at, true), WebAcked(w.id, w.change.at, false);
    assert (s.log + [yes])[|s.log|] == yes && (s.log + [no])[|s.log|] == no;
  }

  /** A site that has just started, with rows nobody has answered yet, meets
      what the theorem asks for. */
  lemma StartedSiteQualifies(s: Site, id: string)
    requires RowsSane(s) && s.workers == map[] && s.log == []
    requires forall i :: i in s.rows ==> s.rows[i].ackedAt.None?
    ensures Sane(s) && AckKnown(s, id) && StampsAreAhead(s)
  {
  }
}
