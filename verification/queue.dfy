/** One channel's queue: bounded backlog, one send at a time, and a failure
    ladder that widens the gap between attempts without ever giving up. */
module Queues {
  import opened Base
  import opened Arith

  /** The wait after n consecutive failures. */
  const FAILURE_BACKOFF: seq<Duration> :=
    [0, 15 * SECOND, 30 * SECOND, MINUTE, 2 * MINUTE, 5 * MINUTE]

  function BackoffFor(n: int): Duration {
    if n <= 0 then 0
    else if n > |FAILURE_BACKOFF| then FAILURE_BACKOFF[|FAILURE_BACKOFF| - 1]
    else FAILURE_BACKOFF[n - 1]
  }

  /** What the caller waiting on one alert is told. */
  datatype Verdict =
    | Sent
    | SendFailed(err: string)
    | HeldBack(until: Time, fails: nat)
    | QueueFull(dropped: nat)
    | QueueClosed
    | GaveUpWaiting
    | ClosedInFlight

  /** The channel's own answer to one send: None is success. */
  type Answer = Option<string>

  datatype Ladder = Ladder(fails: nat, notBefore: Option<Time>, lastSent: Option<Time>, lastErr: string)
  {
    predicate Holding(now: Time) {
      notBefore.Some? && now < notBefore.value
    }

    /** Nothing counted and nothing held, as after a success. */
    predicate Clear() {
      fails == 0 && notBefore == None
    }

    /** A success clears everything. now is None for a passed test, which is
        not a delivery. */
    function RecordOutcome(answer: Answer, now: Option<Time>): Ladder
      requires answer.Some? ==> now.Some?
    {
      match answer
      case None => Ladder(0, None, if now.Some? then now else lastSent, "")
      case Some(err) =>
        var wait := BackoffFor(fails + 1);
        Ladder(fails + 1, if wait > 0 then Some(now.value + wait) else None, lastSent, err)
    }

    function Deliver(now: Time, answer: Answer): (Ladder, Verdict) {
      if Holding(now) then (this, HeldBack(notBefore.value, fails))
      else (RecordOutcome(answer, Some(now)),
            if answer.None? then Sent else SendFailed(answer.value))
    }
  }

  const FRESH: Ladder := Ladder(0, None, None, "")

  // ---- Runs of one channel ------------------------------------------------

  datatype Event = Job(now: Time, answer: Answer) | TestPassed

  function Step(l: Ladder, e: Event): Ladder {
    match e
    case Job(now, answer) => l.Deliver(now, answer).0
    case TestPassed => l.RecordOutcome(None, None)
  }

  function Run(l: Ladder, events: seq<Event>): Ladder {
    if events == [] then l else Step(Run(l, events[..|events| - 1]), events[|events| - 1])
  }

  /** The sends the channel was actually asked to make, and the tests it
      passed, oldest first; a job held back is neither. */
  function Asked(l: Ladder, events: seq<Event>): seq<Event> {
    if events == [] then []
    else
      var earlier := Asked(l, events[..|events| - 1]);
      var e := events[|events| - 1];
      if e.Job? && Run(l, events[..|events| - 1]).Holding(e.now) then earlier else earlier + [e]
  }

  predicate Failed(e: Event) { e.Job? && e.answer.Some? }

  function TrailingFailures(asked: seq<Event>): nat {
    if asked == [] || !Failed(asked[|asked| - 1]) then 0
    else 1 + TrailingFailures(asked[..|asked| - 1])
  }

  lemma OneMoreEvent(l: Ladder, before: seq<Event>, e: Event)
    ensures Run(l, before + [e]) == Step(Run(l, before), e)
    ensures Asked(l, before + [e])
            == if e.Job? && Run(l, before).Holding(e.now) then Asked(l, before) else Asked(l, before) + [e]
  {
    assert (before + [e])[..|before|] == before;
  }

  /** When the channel last accepted a job. */
  function LastLanded(asked: seq<Event>, before: Option<Time>): Option<Time> {
    if asked == [] then before
    else
      var e := asked[|asked| - 1];
      if e.Job? && e.answer.None? then Some(e.now) else LastLanded(asked[..|asked| - 1], before)
  }

  /** The diagnostics say what happened: the last acceptance, and the error of
      the last attempt if it failed. */
  lemma {:induction false} DiagnosticsAreTrue(l: Ladder, events: seq<Event>)
    ensures var end, asked := Run(l, events), Asked(l, events);
            && end.lastSent == LastLanded(asked, l.lastSent)
            && end.lastErr == if asked == [] then l.lastErr
                              else if Failed(asked[|asked| - 1]) then asked[|asked| - 1].answer.value else ""
  {
    if events != [] {
      var before, e := events[..|events| - 1], events[|events| - 1];
      DiagnosticsAreTrue(l, before);
      OneMoreEvent(l, before, e);
      assert before + [e] == events;
      var asked := Asked(l, before);
      assert (asked + [e])[..|asked|] == asked;
    }
  }

  /** The ladder is the plain meaning of what was asked: fails is the length of the
      trailing run of failures, and the hold ends that rung's wait after the last one. */
  predicate MeansTheRun(l: Ladder, asked: seq<Event>) {
    && l.fails == TrailingFailures(asked)
    && (l.fails == 0 ==> l.notBefore == None)
    && (l.fails > 0 ==>
          l.notBefore == if BackoffFor(l.fails) > 0
                         then Some(asked[|asked| - 1].now + BackoffFor(l.fails)) else None)
  }

  lemma OneMoreTrailing(l: Ladder, asked: seq<Event>, e: Event)
    requires MeansTheRun(l, asked)
    ensures if e.Job? && l.Holding(e.now) then Step(l, e) == l else MeansTheRun(Step(l, e), asked + [e])
  {
    assert (asked + [e])[..|asked|] == asked;
  }

  /** From a clear ladder on, at every point of every run, the ladder is the
      plain meaning of what was asked so far. */
  lemma {:induction false} LadderIsTheTrailingRun(l: Ladder, events: seq<Event>)
    requires l.Clear()
    ensures MeansTheRun(Run(l, events), Asked(l, events))
  {
    if events != [] {
      var before, e := events[..|events| - 1], events[|events| - 1];
      LadderIsTheTrailingRun(l, before);
      OneMoreEvent(l, before, e);
      assert before + [e] == events;
      OneMoreTrailing(Run(l, before), Asked(l, before), e);
    }
  }

  lemma {:induction false} TrailingIsNoLonger(asked: seq<Event>)
    ensures TrailingFailures(asked) <= |asked|
  {
    if asked != [] {
      TrailingIsNoLonger(asked[..|asked| - 1]);
    }
  }

  lemma HoldsExactlyWhen(l: Ladder, asked: seq<Event>, now: Time)
    requires MeansTheRun(l, asked)
    ensures var k := TrailingFailures(asked);
            && |asked| >= k
            && (l.Holding(now) <==> k > 1 && now < asked[|asked| - 1].now + BackoffFor(k))
  {
    TrailingIsNoLonger(asked);
    assert l.fails > 1 ==> BackoffFor(l.fails) > 0;
  }

  /** Exactly when a job reaches the channel: unless the last asking failed, and so
      did the one before it, and the wait that so many failures earn has not passed
      since. */
  lemma AskedExactlyWhen(l: Ladder, events: seq<Event>, e: Event)
    requires l.Clear() && e.Job?
    ensures var asked := Asked(l, events);
            var k := TrailingFailures(asked);
            && |asked| >= k
            && (Asked(l, events + [e]) == asked + [e]
                <==> k <= 1 || e.now >= asked[|asked| - 1].now + BackoffFor(k))
            && (Asked(l, events + [e]) == asked || Asked(l, events + [e]) == asked + [e])
  {
    var asked := Asked(l, events);
    OneMoreEvent(l, events, e);
    LadderIsTheTrailingRun(l, events);
    HoldsExactlyWhen(Run(l, events), asked, e.now);
    assert |asked + [e]| > |asked|;
  }

  /** So no send is ever made while held back: after k failures in a row the
      next send comes no earlier than rung k's wait, whatever the jobs do. */
  lemma NoSendBeforeItsTime(l: Ladder, events: seq<Event>, e: Event)
    requires l.Clear()
    requires e.Job?
    requires Asked(l, events + [e]) != Asked(l, events)
    ensures var asked := Asked(l, events);
            var k := TrailingFailures(asked);
            k > 1 ==> e.now >= asked[|asked| - 1].now + BackoffFor(k)
  {
    AskedExactlyWhen(l, events, e);
  }

  /** The waits, written out: none after one failure, then 15 seconds, 30 seconds, a
      minute, two minutes, and five minutes however many more. */
  lemma TheWaits(n: int)
    ensures BackoffFor(n) == if n <= 1 then 0 else if n == 2 then 15_000_000_000 else if n == 3 then 30_000_000_000
                             else if n == 4 then 60_000_000_000 else if n == 5 then 120_000_000_000
                             else 300_000_000_000
  {
  }

  /** What the caller of a job is told, after whatever came before it: that it was
      sent exactly if the channel was asked and took it, that it failed exactly if
      the channel was asked and said so, with what it said, and that it was held
      back exactly if the channel was not asked. */
  lemma VerdictExactlyWhen(l: Ladder, events: seq<Event>, e: Event)
    requires e.Job?
    ensures var asked := Asked(l, events + [e]) != Asked(l, events);
            var v := Run(l, events).Deliver(e.now, e.answer).1;
            && (v == Sent <==> asked && e.answer == None)
            && (forall err :: v == SendFailed(err) <==> asked && e.answer == Some(err))
            && (v.HeldBack? <==> !asked)
            && (v.HeldBack? ==> v.until > e.now)
  {
    OneMoreEvent(l, events, e);
  }

  // ---- An unbroken outage --------------------------------------------------

  /** The earliest a channel that keeps failing can be asked for the i-th time,
      counting from its first failure. */
  function EarliestOffset(i: nat): Duration {
    if i == 0 then 0 else EarliestOffset(i - 1) + BackoffFor(i)
  }

  lemma {:induction false} OffsetPastTheLadder(i: nat)
    requires i >= 5
    ensures EarliestOffset(i) == 225 * SECOND + (i - 5) * (300 * SECOND)
  {
    if i == 5 {
      assert EarliestOffset(1) == 0;
      assert EarliestOffset(2) == 15 * SECOND;
      assert EarliestOffset(3) == 45 * SECOND;
      assert EarliestOffset(4) == 105 * SECOND;
    } else {
      OffsetPastTheLadder(i - 1);
    }
  }

  ghost predicate Outage(events: seq<Event>) {
    && (forall i :: 0 <= i < |events| ==> Failed(events[i]))
    && (forall i, j :: 0 <= i < j < |events| ==> events[i].now <= events[j].now)
  }

  /** What is asked during an outage is part of it, and begins with its first
      job. */
  lemma {:induction false} AskedInOutage(l: Ladder, events: seq<Event>)
    requires l.Clear()
    requires Outage(events)
    ensures var asked := Asked(l, events);
            && Outage(asked)
            && (events != [] ==> asked != [] && asked[0] == events[0]
                                 && asked[|asked| - 1].now <= events[|events| - 1].now)
  {
    if events != [] {
      AskedInOutage(l, events[..|events| - 1]);
    }
  }

  lemma {:induction false} AllFailuresTrail(asked: seq<Event>)
    requires forall i :: 0 <= i < |asked| ==> Failed(asked[i])
    ensures TrailingFailures(asked) == |asked|
  {
    if asked != [] {
      AllFailuresTrail(asked[..|asked| - 1]);
    }
  }

  lemma {:induction false} OutageSpacing(l: Ladder, events: seq<Event>, i: nat)
    requires l.Clear()
    requires Outage(events) && i < |Asked(l, events)|
    ensures Outage(Asked(l, events))
    ensures Asked(l, events)[i].now >= events[0].now + EarliestOffset(i)
  {
    AskedInOutage(l, events);
    var before := events[..|events| - 1];
    var asked := Asked(l, before);
    AskedInOutage(l, before);
    if i < |asked| {
      OutageSpacing(l, before, i);
    } else if i > 0 {
      OutageSpacing(l, before, i - 1);
      AllFailuresTrail(asked);
      LadderIsTheTrailingRun(l, before);
    }
  }

  lemma LastOffsetFits(l: Ladder, events: seq<Event>, T: Duration)
    requires l.Clear()
    requires Outage(events) && events != []
    requires events[|events| - 1].now <= events[0].now + T
    ensures Asked(l, events) != [] && EarliestOffset(|Asked(l, events)| - 1) <= T
  {
    AskedInOutage(l, events);
    OutageSpacing(l, events, |Asked(l, events)| - 1);
  }

  lemma OffsetsCount(n: nat, T: Duration)
    requires n > 0 && T >= 225 * SECOND && EarliestOffset(n - 1) <= T
    ensures n <= 6 + (T - 225 * SECOND) / (300 * SECOND)
  {
    if n > 6 {
      OffsetPastTheLadder(n - 1);
      DivAtLeast(T - 225 * SECOND, 300 * SECOND, n - 6);
    }
  }

  /** However often an alert is retried, a channel is asked during an unbroken
      outage of T at most 6 + (T - 225s) / 300s times once T reaches 225s. */
  lemma OutageBound(l: Ladder, events: seq<Event>, T: Duration)
    requires l.Clear()
    requires Outage(events) && events != [] && T >= 225 * SECOND
    requires events[|events| - 1].now <= events[0].now + T
    ensures |Asked(l, events)| <= 6 + (T - 225 * SECOND) / (300 * SECOND)
  {
    LastOffsetFits(l, events, T);
    OffsetsCount(|Asked(l, events)|, T);
  }

  /** Jobs timed as early as the ladder allows. */
  function EagerOutage(n: nat): (events: seq<Event>)
    ensures |events| == n
    ensures forall i :: 0 <= i < n ==> events[i] == Job(EarliestOffset(i), Some("down"))
  {
    if n == 0 then [] else EagerOutage(n - 1) + [Job(EarliestOffset(n - 1), Some("down"))]
  }

  lemma OneMoreFailure(asked: seq<Event>, e: Event)
    requires Failed(e)
    ensures TrailingFailures(asked + [e]) == TrailingFailures(asked) + 1
  {
    assert (asked + [e])[..|asked|] == asked;
  }

  /** The bound is the best possible: such jobs are all attempted. */
  lemma {:induction false} BoundIsReached(l: Ladder, n: nat)
    requires l.Clear()
    ensures Asked(l, EagerOutage(n)) == EagerOutage(n)
    ensures TrailingFailures(EagerOutage(n)) == n
  {
    if n > 0 {
      var before, e := EagerOutage(n - 1), Job(EarliestOffset(n - 1), Some("down"));
      BoundIsReached(l, n - 1);
      LadderIsTheTrailingRun(l, before);
      OneMoreEvent(l, before, e);
      OneMoreFailure(before, e);
      if n > 1 {
        assert before[n - 2].now == EarliestOffset(n - 2);
      }
    }
  }

  // ---- The queue itself ----------------------------------------------------

  datatype QueuedJob = QueuedJob(alert: string, now: Time)

  /** What ends a caller's wait. */
  datatype Wake = Answered | TimedOut | Closing

  /** All there is to a queue: its backlog, its ladder and what it has landed. */
  datatype Line = Line(depth: nat, pending: seq<QueuedJob>, closed: bool, dropped: nat, ladder: Ladder,
                       landed: seq<QueuedJob>)

  /** The jobs as the channel would answer them in turn. */
  function Offered(jobs: seq<QueuedJob>, answers: nat -> Answer): (events: seq<Event>)
    ensures |events| == |jobs|
    ensures forall i :: 0 <= i < |jobs| ==> events[i] == Job(jobs[i].now, answers(i))
  {
    seq(|jobs|, i requires 0 <= i < |jobs| => Job(jobs[i].now, answers(i)))
  }

  /** The worker delivers the oldest job. */
  function Worked(q: Line, answer: Answer): (Line, Verdict)
    requires q.pending != []
  {
    var (ladder, v) := q.ladder.Deliver(q.pending[0].now, answer);
    (q.(pending := q.pending[1..], ladder := ladder,
        landed := if v == Sent then q.landed + [q.pending[0]] else q.landed), v)
  }

  /** ... and so the n oldest. */
  function WorkedOff(q: Line, answers: nat -> Answer, n: nat): (after: Line)
    requires n <= |q.pending|
    ensures after.pending == q.pending[n..]
  {
    if n == 0 then q else Worked(WorkedOff(q, answers, n - 1), answers(n - 1)).0
  }

  function Queued(q: Line, job: QueuedJob): Line {
    q.(pending := q.pending + [job])
  }

  /** One alert is queued and waited for. */
  function Sending(q: Line, job: QueuedJob, answers: nat -> Answer, wake: Wake): (Line, Verdict) {
    if q.closed then (q, QueueClosed)
    else if |q.pending| >= q.depth then (q.(dropped := q.dropped + 1), QueueFull(q.dropped + 1))
    else
      match wake
      case TimedOut => (Queued(q, job), GaveUpWaiting)
      case Closing => (Queued(q, job).(closed := true), ClosedInFlight)
      case Answered => Worked(WorkedOff(Queued(q, job), answers, |q.pending|), answers(|q.pending|))
  }

  // ---- What a queue's caller is told ---------------------------------------

  lemma {:induction false} LadderOfTheLine(q: Line, answers: nat -> Answer, n: nat)
    requires n <= |q.pending|
    ensures WorkedOff(q, answers, n).ladder == Run(q.ladder, Offered(q.pending, answers)[..n])
    ensures WorkedOff(q, answers, n).depth == q.depth && WorkedOff(q, answers, n).closed == q.closed
    ensures WorkedOff(q, answers, n).dropped == q.dropped && q.landed <= WorkedOff(q, answers, n).landed
  {
    if n > 0 {
      LadderOfTheLine(q, answers, n - 1);
      var events := Offered(q.pending, answers);
      assert events[..n] == events[..n - 1] + [events[n - 1]];
      OneMoreEvent(q.ladder, events[..n - 1], events[n - 1]);
    }
  }

  /** The channel is asked for the alert that comes after the n jobs in line. */
  predicate ComesToIt(q: Line, job: QueuedJob, answers: nat -> Answer) {
    var events := Offered(q.pending + [job], answers);
    Asked(q.ladder, events) != Asked(q.ladder, events[..|q.pending|])
  }

  lemma OneMoreOffered(jobs: seq<QueuedJob>, job: QueuedJob, answers: nat -> Answer)
    ensures var events := Offered(jobs + [job], answers);
            events == events[..|jobs|] + [Job(job.now, answers(|jobs|))]
  {
  }

  /** Exactly what the caller hears who waits for one alert. A queue that is closed
      or full says so and takes nothing; one that is not takes it, and then the
      caller hears Sent exactly if the channel, come to this alert, is asked and
      takes it, its own error exactly if it is asked and refuses, and a hold exactly
      if it is not asked; or that the wait or the queue ended first. */
  lemma HeardExactlyWhen(q: Line, job: QueuedJob, answers: nat -> Answer, wake: Wake)
    ensures var v := Sending(q, job, answers, wake).1;
            var taken := !q.closed && |q.pending| < q.depth;
            var answer := answers(|q.pending|);
            && (v == Sent <==> taken && wake == Answered && ComesToIt(q, job, answers) && answer == None)
            && (forall e :: v == SendFailed(e) <==>
                  taken && wake == Answered && ComesToIt(q, job, answers) && answer == Some(e))
            && (v.HeldBack? <==> taken && wake == Answered && !ComesToIt(q, job, answers))
            && (v == QueueClosed <==> q.closed)
            && (v.QueueFull? <==> !q.closed && |q.pending| >= q.depth)
            && (v == GaveUpWaiting <==> taken && wake == TimedOut)
            && (v == ClosedInFlight <==> taken && wake == Closing)
  {
    if !q.closed && |q.pending| < q.depth && wake == Answered {
      var all := Queued(q, job);
      LadderOfTheLine(all, answers, |q.pending|);
      OneMoreOffered(q.pending, job, answers);
      var events := Offered(all.pending, answers);
      VerdictExactlyWhen(q.ladder, events[..|q.pending|], events[|q.pending|]);
    }
  }

  /** What the caller is to know of it. */
  ghost predicate HearsTheTruth(q: Line, job: QueuedJob, answers: nat -> Answer, wake: Wake, landed: seq<QueuedJob>,
                                v: Verdict) {
    var taken := !q.closed && |q.pending| < q.depth;
    var asked := taken && wake == Answered && ComesToIt(q, job, answers);
    && (v == Sent <==> asked && answers(|q.pending|) == None)
    && (v == Sent ==> landed != [] && landed[|landed| - 1] == job && |landed| > |q.landed|)
    && (forall e :: v == SendFailed(e) <==> asked && answers(|q.pending|) == Some(e))
  }

  lemma TheTruthIsHeard(q: Line, job: QueuedJob, answers: nat -> Answer, wake: Wake)
    ensures var (after, v) := Sending(q, job, answers, wake);
            HearsTheTruth(q, job, answers, wake, after.landed, v)
  {
    HeardExactlyWhen(q, job, answers, wake);
    SentIsLanded(q, job, answers, wake);
  }

  /** One job's turn: it leaves the line, and is landed exactly if the channel is asked
      and takes it. */
  lemma OneTurn(q: Line, answer: Answer)
    requires q.pending != []
    ensures var e := Job(q.pending[0].now, answer);
            var after := Worked(q, answer).0;
            && after.pending == q.pending[1..]
            && after.landed == (if Asked(q.ladder, [] + [e]) != [] && answer == None then q.landed + [q.pending[0]]
                                else q.landed)
            && after.ladder == Run(q.ladder, [] + [e])
            && after.depth == q.depth && after.closed == q.closed && after.dropped == q.dropped
  {
    var e := Job(q.pending[0].now, answer);
    VerdictExactlyWhen(q.ladder, [], e);
    OneMoreEvent(q.ladder, [], e);
    assert Asked(q.ladder, []) == [] && Run(q.ladder, []) == q.ladder;
  }

  /** Nothing is taken by a queue that is closed or full, and each alert that a full one
      turned away is counted. */
  lemma TurnedAway(q: Line, job: QueuedJob, answers: nat -> Answer, wake: Wake)
    requires q.closed || |q.pending| >= q.depth
    ensures var (after, v) := Sending(q, job, answers, wake);
            if q.closed then after == q
            else after == q.(dropped := q.dropped + 1) && v == QueueFull(q.dropped + 1)
  {
  }

  /** A send the caller hears of as Sent is the last thing the queue landed; and no
      other verdict is of something landed. */
  lemma SentIsLanded(q: Line, job: QueuedJob, answers: nat -> Answer, wake: Wake)
    ensures var (after, v) := Sending(q, job, answers, wake);
            && q.landed <= after.landed
            && (v == Sent ==> |after.landed| > |q.landed| && after.landed[|after.landed| - 1] == job)
  {
    if !q.closed && |q.pending| < q.depth && wake == Answered {
      LadderOfTheLine(Queued(q, job), answers, |q.pending|);
    }
  }

  class Queue {
    const depth: nat
    var pending: seq<QueuedJob>
    var closed: bool
    var dropped: nat

    var consecutiveFails: nat
    var notBefore: Option<Time>
    var lastSent: Option<Time>
    var lastErr: string

    /** Every alert a send of which returned success, oldest first. */
    ghost var landed: seq<QueuedJob>

    constructor (d: int)
      ensures depth == if d <= 0 then 200 else d
      ensures State() == FRESH && pending == [] && !closed && dropped == 0 && landed == []
    {
      depth := if d <= 0 then 200 else d;
      pending, closed, dropped := [], false, 0;
      consecutiveFails, notBefore, lastSent, lastErr := 0, None, None, "";
      landed := [];
    }

    function State(): Ladder
      reads this
    {
      Ladder(consecutiveFails, notBefore, lastSent, lastErr)
    }

    ghost function View(): Line
      reads this
    {
      Line(depth, pending, closed, dropped, State(), landed)
    }

    method RecordOutcome(answer: Answer, now: Option<Time>)
      requires answer.Some? ==> now.Some?
      modifies this`consecutiveFails, this`notBefore, this`lastSent, this`lastErr
      ensures State() == old(State()).RecordOutcome(answer, now)
    {
      if answer.None? {
        consecutiveFails := 0;
        notBefore := None;
        lastErr := "";
        if now.Some? {
          lastSent := now;
        }
        return;
      }
      lastErr := answer.value;
      consecutiveFails := consecutiveFails + 1;
      var wait := BackoffFor(consecutiveFails);
      notBefore := if wait > 0 then Some(now.value + wait) else None;
    }

    /** The worker delivers the oldest job. */
    method Work(answer: Answer) returns (v: Verdict)
      requires pending != []
      modifies this
      ensures (View(), v) == Worked(old(View()), answer)
    {
      var j := pending[0];
      pending := pending[1..];
      if notBefore.Some? && j.now < notBefore.value {
        return HeldBack(notBefore.value, consecutiveFails);
      }
      RecordOutcome(answer, Some(j.now));
      if answer.None? {
        landed := landed + [j];
        return Sent;
      }
      return SendFailed(answer.value);
    }

    /** The worker delivers everything in line; the last job's verdict is told. */
    method WorkThrough(answers: nat -> Answer) returns (v: Verdict)
      requires pending != []
      modifies this
      ensures var n := |old(pending)| - 1;
              (View(), v) == Worked(WorkedOff(old(View()), answers, n), answers(n))
    {
      ghost var all := View();
      var i := 0;
      v := GaveUpWaiting;
      while |pending| > 0
        invariant i + |pending| == |all.pending|
        invariant View() == WorkedOff(all, answers, i)
        invariant i > 0 ==> v == Worked(WorkedOff(all, answers, i - 1), answers(i - 1)).1
      {
        v := Work(answers(i));
        i := i + 1;
      }
    }

    /** Queues one alert and waits. answers(i) is what the channel says to the
        i-th job from the head of the queue on; wake is what ends the wait.

        The caller hears Sent exactly when the channel, come to this alert, was
        asked and took it. A full or closed queue, a held-back attempt, a failed
        send and a wait that ended early are all told apart from it. */
    method SendAndWait(alert: string, now: Time, answers: nat -> Answer, wake: Wake) returns (v: Verdict)
      modifies this
      ensures (View(), v) == Sending(old(View()), QueuedJob(alert, now), answers, wake)
      ensures HearsTheTruth(old(View()), QueuedJob(alert, now), answers, wake, landed, v)
    {
      TheTruthIsHeard(View(), QueuedJob(alert, now), answers, wake);
      if closed {
        return QueueClosed;
      }
      if |pending| >= depth {
        dropped := dropped + 1;
        return QueueFull(dropped);
      }
      pending := pending + [QueuedJob(alert, now)];
      match wake
      case TimedOut =>
        return GaveUpWaiting;
      case Closing =>
        closed := true;
        return ClosedInFlight;
      case Answered =>
        v := WorkThrough(answers);
    }

    /** A test that works clears the backoff and claims no delivery; one that
        fails is not counted. */
    method Test(answer: Answer) returns (err: Option<string>)
      modifies this
      ensures old(closed) ==> err.Some? && State() == old(State())
      ensures !old(closed) ==> err == answer
      ensures !old(closed) && answer.None? ==> State() == Step(old(State()), TestPassed)
      ensures !old(closed) && answer.Some? ==> State() == old(State())
      ensures landed == old(landed)
    {
      if closed {
        return Some("channel queue is closed");
      }
      if answer.None? {
        RecordOutcome(None, None);
      }
      return answer;
    }
  }
}
