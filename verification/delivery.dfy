/** The fan-out of one alert to the channels of a stage, and what counts as
    having told somebody. */
module Deliveries {
  import opened Base
  import opened Incidents
  import opened Queues
  import Text

  datatype ChannelResult = NotConfigured(name: string) | Answer(verdict: Verdict)

  predicate Accepted(r: ChannelResult) {
    r == Answer(Sent)
  }

  /** Somebody was told: at least one channel's own send returned success. */
  predicate SomebodyTold(results: seq<ChannelResult>) {
    exists i :: 0 <= i < |results| && Accepted(results[i])
  }

  /** What the channels do while one alert is fanned out. */
  datatype Script = Script(answers: nat -> Queues.Answer, wake: Wake)

  /** The job is among what the queue has sent since. */
  predicate SentSince(before: seq<QueuedJob>, landed: seq<QueuedJob>, job: QueuedJob) {
    before <= landed && job in landed[|before|..]
  }

  lemma SentStaysSent(first: seq<QueuedJob>, before: seq<QueuedJob>, landed: seq<QueuedJob>, more: seq<QueuedJob>,
                      job: QueuedJob)
    requires first <= before && landed <= more && SentSince(before, landed, job)
    ensures SentSince(first, more, job)
  {
    var i :| 0 <= i < |landed[|before|..]| && landed[|before|..][i] == job;
    assert more[|first|..][|before| - |first| + i] == landed[|before| + i] == job;
  }

  /** What each queue had sent and has sent since: it only ever grows. */
  ghost predicate Grown(before: map<string, seq<QueuedJob>>, after: map<string, seq<QueuedJob>>) {
    after.Keys == before.Keys && forall name :: name in before ==> before[name] <= after[name]
  }

  /** The queue of one of these channels has sent this job since. */
  ghost predicate SentOn(before: map<string, seq<QueuedJob>>, after: map<string, seq<QueuedJob>>,
                         chans: seq<string>, job: QueuedJob) {
    exists c :: c in chans && Text.Lower(c) in before && Text.Lower(c) in after
                && SentSince(before[Text.Lower(c)], after[Text.Lower(c)], job)
  }

  lemma SentOnStays(first: map<string, seq<QueuedJob>>, before: map<string, seq<QueuedJob>>,
                    after: map<string, seq<QueuedJob>>, last: map<string, seq<QueuedJob>>,
                    chans: seq<string>, job: QueuedJob)
    requires Grown(first, before) && Grown(before, after) && Grown(after, last) && SentOn(before, after, chans, job)
    ensures SentOn(first, last, chans, job)
  {
    var c :| c in chans && Text.Lower(c) in before && Text.Lower(c) in after
             && SentSince(before[Text.Lower(c)], after[Text.Lower(c)], job);
    var name := Text.Lower(c);
    SentStaysSent(first[name], before[name], after[name], last[name], job);
  }

  // ---- One fan-out ---------------------------------------------------------------------

  /** What each channel's queue holds, by its name in lower case. */
  type Lines = map<string, Line>

  /** Each channel's queue is handed the job and waited for. */
  function FannedOut(lines: Lines, chans: seq<string>, job: QueuedJob, scripts: nat -> Script)
    : (out: (Lines, seq<ChannelResult>))
    ensures out.0.Keys == lines.Keys && |out.1| == |chans|
  {
    if chans == [] then (lines, [])
    else
      var n := |chans| - 1;
      var (before, results) := FannedOut(lines, chans[..n], job, scripts);
      var name := Text.Lower(chans[n]);
      if name !in before then (before, results + [NotConfigured(chans[n])])
      else
        var (line, v) := Sending(before[name], job, scripts(n).answers, scripts(n).wake);
        (before[name := line], results + [Answer(v)])
  }

  /** The queues as the first i channels leave them. */
  function LinesAt(lines: Lines, chans: seq<string>, job: QueuedJob, scripts: nat -> Script, i: nat): (at: Lines)
    requires i <= |chans|
    ensures at.Keys == lines.Keys
  {
    FannedOut(lines, chans[..i], job, scripts).0
  }

  lemma OneMoreFanned(lines: Lines, chans: seq<string>, c: string, job: QueuedJob, scripts: nat -> Script)
    ensures var (before, results) := FannedOut(lines, chans, job, scripts);
            var name := Text.Lower(c);
            FannedOut(lines, chans + [c], job, scripts)
            == if name !in before then (before, results + [NotConfigured(c)])
               else var (line, v) := Sending(before[name], job, scripts(|chans|).answers, scripts(|chans|).wake);
                    (before[name := line], results + [Answer(v)])
  {
    assert (chans + [c])[..|chans|] == chans;
  }

  /** What the i-th channel answers. */
  lemma {:induction false} EachAnswers(lines: Lines, chans: seq<string>, job: QueuedJob, scripts: nat -> Script, i: nat)
    requires i < |chans|
    ensures var name := Text.Lower(chans[i]);
            FannedOut(lines, chans, job, scripts).1[i]
            == if name !in lines then NotConfigured(chans[i])
               else Answer(Sending(LinesAt(lines, chans, job, scripts, i)[name], job, scripts(i).answers,
                                   scripts(i).wake).1)
    decreases |chans|
  {
    var n := |chans| - 1;
    if i < n {
      EachAnswers(lines, chans[..n], job, scripts, i);
      assert chans[..n][..i] == chans[..i];
    }
  }

  /** A queue is as it was for the first of the channels that leads to it. */
  lemma {:induction false} OthersLeaveItAlone(lines: Lines, chans: seq<string>, job: QueuedJob, scripts: nat -> Script,
                                              name: string)
    requires name in lines && forall i :: 0 <= i < |chans| ==> Text.Lower(chans[i]) != name
    ensures FannedOut(lines, chans, job, scripts).0[name] == lines[name]
  {
    if chans != [] {
      OthersLeaveItAlone(lines, chans[..|chans| - 1], job, scripts, name);
    }
  }

  /** This queue, come to this alert, sends it: it is open and has room, the wait is
      not cut short, the channel is asked and takes it. */
  predicate WouldSend(q: Line, job: QueuedJob, script: Script) {
    && !q.closed && |q.pending| < q.depth && script.wake == Answered
    && ComesToIt(q, job, script.answers) && script.answers(|q.pending|) == None
  }

  /** One of the channels is configured and its queue, as those before it leave it,
      sends the alert. */
  ghost predicate OneWouldSend(lines: Lines, chans: seq<string>, job: QueuedJob, scripts: nat -> Script) {
    exists i :: 0 <= i < |chans| && Text.Lower(chans[i]) in lines
                && WouldSend(LinesAt(lines, chans, job, scripts, i)[Text.Lower(chans[i])], job, scripts(i))
  }

  /** Exactly when somebody is told. */
  lemma SomebodyIsToldExactlyWhen(lines: Lines, chans: seq<string>, job: QueuedJob, scripts: nat -> Script)
    ensures SomebodyTold(FannedOut(lines, chans, job, scripts).1) <==> OneWouldSend(lines, chans, job, scripts)
  {
    var results := FannedOut(lines, chans, job, scripts).1;
    forall i | 0 <= i < |chans|
      ensures Accepted(results[i]) <==>
                Text.Lower(chans[i]) in lines
                && WouldSend(LinesAt(lines, chans, job, scripts, i)[Text.Lower(chans[i])], job, scripts(i))
    {
      EachAnswers(lines, chans, job, scripts, i);
      if Text.Lower(chans[i]) in lines {
        HeardExactlyWhen(LinesAt(lines, chans, job, scripts, i)[Text.Lower(chans[i])], job, scripts(i).answers,
                         scripts(i).wake);
      }
    }
  }

  /** One working channel is enough: if any of the channels leads to a queue that
      sends the alert, and none before it led there, somebody is told. */
  lemma OneWorkingChannelIsEnough(lines: Lines, chans: seq<string>, job: QueuedJob, scripts: nat -> Script, i: nat)
    requires i < |chans| && Text.Lower(chans[i]) in lines
    requires forall j :: 0 <= j < i ==> Text.Lower(chans[j]) != Text.Lower(chans[i])
    requires WouldSend(lines[Text.Lower(chans[i])], job, scripts(i))
    ensures SomebodyTold(FannedOut(lines, chans, job, scripts).1)
    ensures FannedOut(lines, chans, job, scripts).1[i] == Answer(Sent)
  {
    OthersLeaveItAlone(lines, chans[..i], job, scripts, Text.Lower(chans[i]));
    EachAnswers(lines, chans, job, scripts, i);
    HeardExactlyWhen(lines[Text.Lower(chans[i])], job, scripts(i).answers, scripts(i).wake);
    assert Accepted(FannedOut(lines, chans, job, scripts).1[i]);
  }

  function LandedOf(lines: Lines): map<string, seq<QueuedJob>> {
    map name | name in lines :: lines[name].landed
  }

  lemma {:induction false} QueuesOnlyGrow(lines: Lines, chans: seq<string>, job: QueuedJob, scripts: nat -> Script,
                                          i: nat, name: string)
    requires i <= |chans| && name in lines
    ensures LinesAt(lines, chans, job, scripts, i)[name].landed <= FannedOut(lines, chans, job, scripts).0[name].landed
    decreases |chans|
  {
    if i == |chans| {
      assert chans[..i] == chans;
    } else {
      var n := |chans| - 1;
      QueuesOnlyGrow(lines, chans[..n], job, scripts, i, name);
      assert chans[..n][..i] == chans[..i];
      var before := FannedOut(lines, chans[..n], job, scripts).0;
      if Text.Lower(chans[n]) == name {
        SentIsLanded(before[name], job, scripts(n).answers, scripts(n).wake);
      }
    }
  }

  lemma AcceptedIsSent(lines: Lines, chans: seq<string>, job: QueuedJob, scripts: nat -> Script, i: nat)
    requires i < |chans| && Accepted(FannedOut(lines, chans, job, scripts).1[i])
    ensures var name := Text.Lower(chans[i]);
            name in lines && SentSince(lines[name].landed, FannedOut(lines, chans, job, scripts).0[name].landed, job)
  {
    EachAnswers(lines, chans, job, scripts, i);
    var name := Text.Lower(chans[i]);
    var at := LinesAt(lines, chans, job, scripts, i);
    var next := LinesAt(lines, chans, job, scripts, i + 1);
    OneMoreFanned(lines, chans[..i], chans[i], job, scripts);
    assert chans[..i + 1] == chans[..i] + [chans[i]];
    SentIsLanded(at[name], job, scripts(i).answers, scripts(i).wake);
    QueuesOnlyGrow(lines, chans[..i], job, scripts, 0, name);
    assert chans[..i][..0] == [] && LinesAt(lines, chans[..i], job, scripts, 0) == lines;
    QueuesOnlyGrow(lines, chans, job, scripts, i + 1, name);
    assert next[name].landed[|at[name].landed|..] != [];
    LastIsAmongThem(lines[name].landed, next[name].landed, job);
    SentStaysSent(lines[name].landed, lines[name].landed, next[name].landed,
                  FannedOut(lines, chans, job, scripts).0[name].landed, job);
  }

  lemma LastIsAmongThem(before: seq<QueuedJob>, landed: seq<QueuedJob>, job: QueuedJob)
    requires before <= landed && |landed| > |before| && landed[|landed| - 1] == job
    ensures SentSince(before, landed, job)
  {
    assert landed[|before|..][|landed| - 1 - |before|] == job;
  }

  lemma ToldMeansSent(lines: Lines, chans: seq<string>, job: QueuedJob, scripts: nat -> Script)
    ensures var (after, results) := FannedOut(lines, chans, job, scripts);
            && Grown(LandedOf(lines), LandedOf(after))
            && (SomebodyTold(results) ==> SentOn(LandedOf(lines), LandedOf(after), chans, job))
  {
    var (after, results) := FannedOut(lines, chans, job, scripts);
    forall name | name in lines
      ensures lines[name].landed <= after[name].landed
    {
      QueuesOnlyGrow(lines, chans, job, scripts, 0, name);
      assert chans[..0] == [];
    }
    if i :| 0 <= i < |results| && Accepted(results[i]) {
      AcceptedIsSent(lines, chans, job, scripts, i);
      assert chans[i] in chans;
    }
  }

  method AnyAccepted(results: seq<ChannelResult>) returns (ok: bool)
    ensures ok <==> SomebodyTold(results)
  {
    for i := 0 to |results|
      invariant forall k :: 0 <= k < i ==> !Accepted(results[k])
    {
      if results[i] == Answer(Sent) {
        return true;
      }
    }
    return false;
  }

  class Delivery {
    const queues: map<string, Queue>
    /** An incident at a stage, in the shape a channel sends. */
    const alertFor: (Record, int) -> string

    /** Each channel has been given a queue of its own. */
    ghost predicate Valid() {
      forall a, b :: a in queues && b in queues && a != b ==> queues[a] != queues[b]
    }

    constructor (qs: map<string, Queue>, render: (Record, int) -> string)
      requires forall a, b :: a in qs && b in qs && a != b ==> qs[a] != qs[b]
      ensures Valid() && queues == qs && alertFor == render
    {
      queues, alertFor := qs, render;
    }

    ghost function View(): Lines
      reads queues.Values
    {
      map name | name in queues :: queues[name].View()
    }

    /** What each queue has sent so far. */
    ghost function Landed(): map<string, seq<QueuedJob>>
      reads queues.Values
    {
      LandedOf(View())
    }

    /** Asks one channel, if there is one of that name. */
    method Ask(c: string, job: QueuedJob, script: Script) returns (r: ChannelResult)
      requires Valid()
      modifies queues.Values
      ensures var name := Text.Lower(c);
              if name !in queues then r == NotConfigured(c) && View() == old(View())
              else var (line, v) := Sending(old(View())[name], job, script.answers, script.wake);
                   r == Answer(v) && View() == old(View())[name := line]
    {
      var name := Text.Lower(c);
      if name !in queues {
        return NotConfigured(c);
      }
      var q := queues[name];
      assert q in queues.Values;
      var v := q.SendAndWait(job.alert, job.now, script.answers, script.wake);
      return Answer(v);
    }

    method AskAll(chans: seq<string>, job: QueuedJob, scripts: nat -> Script) returns (results: seq<ChannelResult>)
      requires Valid()
      modifies queues.Values
      ensures (View(), results) == FannedOut(old(View()), chans, job, scripts)
    {
      ghost var lines := View();
      results := [];
      for i := 0 to |chans|
        invariant (View(), results) == FannedOut(lines, chans[..i], job, scripts)
      {
        OneMoreFanned(lines, chans[..i], chans[i], job, scripts);
        assert chans[..i + 1] == chans[..i] + [chans[i]];
        var r := Ask(chans[i], job, scripts(i));
        results := results + [r];
      }
      assert chans[..|chans|] == chans;
    }

    /** Success is reported exactly when some channel accepted: when one of them is
        configured and its queue sends the alert. Then a send of this very alert did
        return success on a configured queue. */
    method Deliver(inc: Record, stage: int, chans: seq<string>, now: Time, scripts: nat -> Script)
      returns (ok: bool, results: seq<ChannelResult>)
      requires Valid()
      modifies queues.Values
      ensures (View(), results) == FannedOut(old(View()), chans, QueuedJob(alertFor(inc, stage), now), scripts)
      ensures ok <==> SomebodyTold(results)
      ensures ok <==> OneWouldSend(old(View()), chans, QueuedJob(alertFor(inc, stage), now), scripts)
      ensures ok ==> SentOn(old(Landed()), Landed(), chans, QueuedJob(alertFor(inc, stage), now))
    {
      if |chans| == 0 {
        return false, [];
      }
      var job := QueuedJob(alertFor(inc, stage), now);
      ToldMeansSent(View(), chans, job, scripts);
      SomebodyIsToldExactlyWhen(View(), chans, job, scripts);
      results := AskAll(chans, job, scripts);
      ok := AnyAccepted(results);
    }
  }
}
