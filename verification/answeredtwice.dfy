/** Exactly when one incident is answered twice, and when the endpoint's hook fires
    twice for it: an answer lands over one that it had not read, or after one was
    erased. */
module AnsweredTwice {
  import opened Base
  import opened Incidents
  import opened Stores
  import opened CasLoops
  import opened AlarmEngine
  import opened Races
  import opened Reaching
  import opened Honesty
  import opened AcksOnce
  import opened Criticals

  predicate Answered(s: Site, id: string) {
    id in s.rows && s.rows[id].ackedAt.Some?
  }

  /** Worker k is about to swap this row, which is there under the token it read;
      and no other live row has its key. */
  predicate Lands(s: Site, k: nat, id: string) {
    && k in s.workers && s.workers[k].Ready? && s.workers[k].id == id
    && id in s.rows && s.rows[id].updatedAt == s.workers[k].copy.updatedAt
    && !Clashes(s.rows, Apply(s.workers[k].change, s.workers[k].copy))
  }

  /** An answer lands: a tap, or a click that read the row unanswered. */
  predicate AnswerLands(s: Site, l: Label, id: string) {
    l.Swap? && Lands(s, l.k, id) && WouldStamp(s.workers[l.k].intent, s.workers[l.k].copy)
  }

  predicate TapLands(s: Site, l: Label, id: string) {
    l.Swap? && Lands(s, l.k, id) && s.workers[l.k].intent.Tap?
  }

  /** The row is removed, or overwritten from a copy that was never answered: by a
      swap that is no answer and whose token had not moved, or by a plain write. */
  predicate Erases(s: Site, l: Label, id: string) {
    && Answered(s, id)
    && (|| l == Remove(id)
        || (l.Swap? && Lands(s, l.k, id) && s.workers[l.k].copy.ackedAt.None?
            && !WouldStamp(s.workers[l.k].intent, s.workers[l.k].copy))
        || (l.EnginePuts? && PutLands(s, l.k, l.e) && s.workers[l.k].id == id
            && s.workers[l.k].copy.ackedAt.None?))
  }

  lemma SwapExactly(s: Site, k: nat)
    requires Honest(s) && k in s.workers && s.workers[k].Ready?
    ensures var (w, t) := (s.workers[k], Next(s, Swap(k)));
            var row := Apply(w.change, w.copy);
            && w.copy.id == w.id && row.id == w.id
            && if Lands(s, k, w.id) then
                 t.rows == s.rows[w.id := row] && t.log == s.log + Recorded(w.intent, w.id, w.copy, w.change)
               else t.rows == s.rows && t.log == s.log
  {
    var w := s.workers[k];
    assert WorkerHonest(s.log, w);
    ApplyKeepsIdentity(w.change, w.copy);
  }

  // ---- One step -----------------------------------------------------------------------

  lemma OneMoreCall(log: seq<Event>, e: Event, id: string)
    ensures HookCalls(log + [e], id) == HookCalls(log, id) + if e.Acked? && e.id == id then 1 else 0
  {
    assert (log + [e])[..|log|] == log;
  }

  lemma {:induction false} QuietEventsCallNobody(log: seq<Event>, more: seq<Event>, id: string)
    requires forall i :: 0 <= i < |more| ==> !more[i].Acked?
    ensures HookCalls(log + more, id) == HookCalls(log, id)
    decreases |more|
  {
    if more == [] {
      assert log + more == log;
    } else {
      var before, e := more[..|more| - 1], more[|more| - 1];
      QuietEventsCallNobody(log, before, id);
      OneMoreCall(log + before, e, id);
      assert log + before + [e] == log + more;
    }
  }

  function Answers(s: Site, id: string): nat {
    |StampsOf(s.log, id)|
  }

  function One(b: bool): nat {
    if b then 1 else 0
  }

  lemma RecordCounts(log: seq<Event>, w: Worker, id: string)
    requires w.Ready? && !Declines(w.intent, w.copy) && w.change == Change(w.intent, w.change.at)
    ensures var more := Recorded(w.intent, w.id, w.copy, w.change);
            && |StampsOf(log + more, id)| == |StampsOf(log, id)| + One(w.id == id && WouldStamp(w.intent, w.copy))
            && HookCalls(log + more, id) == HookCalls(log, id) + One(w.id == id && w.intent.Tap?)
  {
    var more := Recorded(w.intent, w.id, w.copy, w.change);
    if w.intent.Tap? || w.intent.WebAck? {
      AnswerIsLogged(w);
      assert more == [more[0]];
      OneMoreEvent(log, more[0], id);
      OneMoreCall(log, more[0], id);
    } else {
      OthersAreLogged(w, id);
      QuietEventsAckNothing(log, more, id);
      QuietEventsCallNobody(log, more, id);
    }
  }

  lemma SwapCounts(s: Site, k: nat, id: string)
    requires Honest(s) && k in s.workers && s.workers[k].Ready?
    ensures Answers(Next(s, Swap(k)), id) == Answers(s, id) + One(AnswerLands(s, Swap(k), id))
    ensures HookCalls(Next(s, Swap(k)).log, id) == HookCalls(s.log, id) + One(TapLands(s, Swap(k), id))
  {
    var w := s.workers[k];
    SwapExactly(s, k);
    assert WorkerHonest(s.log, w);
    if Lands(s, k, w.id) {
      RecordCounts(s.log, w, id);
    }
  }

  lemma StillCountsNothing(s: Site, t: Site, id: string)
    requires Still(s, t)
    ensures Answers(t, id) == Answers(s, id) && HookCalls(t.log, id) == HookCalls(s.log, id)
  {
    var more := t.log[|s.log|..];
    assert t.log == s.log + more;
    QuietEventsAckNothing(s.log, more, id);
    QuietEventsCallNobody(s.log, more, id);
  }

  /** The answers in the log are the answers that landed, and the hook's calls are
      the taps that did. */
  lemma StepCounts(s: Site, l: Label, id: string)
    requires Honest(s)
    ensures Answers(Next(s, l), id) == Answers(s, id) + One(AnswerLands(s, l, id))
    ensures HookCalls(Next(s, l).log, id) == HookCalls(s.log, id) + One(TapLands(s, l, id))
  {
    StepIsOfAKind(s, l);
    if l.Swap? {
      if l.k in s.workers && s.workers[l.k].Ready? {
        SwapCounts(s, l.k, id);
      }
    } else if Still(s, Next(s, l)) {
      StillCountsNothing(s, Next(s, l), id);
    }
  }

  lemma SwapAnswers(s: Site, k: nat, id: string)
    requires Honest(s) && k in s.workers && s.workers[k].Ready?
    ensures Answered(Next(s, Swap(k)), id)
            <==> AnswerLands(s, Swap(k), id)
                 || (if Lands(s, k, id) then s.workers[k].copy.ackedAt.Some? else Answered(s, id))
  {
    var w := s.workers[k];
    SwapExactly(s, k);
    assert WorkerHonest(s.log, w);
    OnlyAnswersAcknowledge(w.intent, w.change, w.copy);
  }

  lemma PutAnswers(s: Site, k: nat, e: EngineWrite, id: string)
    requires Honest(s) && PutLands(s, k, e)
    ensures Answered(Next(s, EnginePuts(k, e)), id)
            <==> if s.workers[k].id == id then s.workers[k].copy.ackedAt.Some? else Answered(s, id)
  {
    assert WorkerHonest(s.log, s.workers[k]);
    EngineLeavesTheAck(e, s.workers[k].copy);
    EngineRowStamps(e, s.workers[k].copy);
  }

  /** The id of a stored row, or of a copy of one, is taken. */
  ghost predicate Known(s: Site, id: string) {
    id !in s.used ==>
      && id !in s.rows
      && forall k :: k in s.workers && CopyOf(s.workers[k]).Some? ==> CopyOf(s.workers[k]).value.id != id
  }

  lemma StepKeepsKnown(s: Site, l: Label, id: string)
    requires Honest(s) && Known(s, id)
    ensures Known(Next(s, l), id)
  {
    var t := Next(s, l);
    StepIsOfAKind(s, l);
    if Still(s, t) {
      forall k | k in t.workers && CopyOf(t.workers[k]).Some? && id !in t.used
        ensures CopyOf(t.workers[k]).value.id != id
      {
        assert Moves(s, t.log, k, t.workers[k]);
      }
    } else if l.EnginePuts? {
      EngineRowStamps(l.e, s.workers[l.k].copy);
    }
  }

  /** An answer that lands is on the row; and an answer is gone from it exactly
      after a removal or an overwriting from an unanswered copy. */
  lemma AnswerGoesExactlyWhen(s: Site, l: Label, id: string)
    requires Honest(s) && Known(s, id)
    ensures AnswerLands(s, l, id) ==> Answered(Next(s, l), id)
    ensures Answered(s, id) && !Answered(Next(s, l), id) <==> Erases(s, l, id)
  {
    StepIsOfAKind(s, l);
    if l.Swap? {
      if l.k in s.workers && s.workers[l.k].Ready? {
        SwapAnswers(s, l.k, id);
      }
    } else if l.EnginePuts? && PutLands(s, l.k, l.e) {
      PutAnswers(s, l.k, l.e, id);
    }
  }

  // ---- Whole runs ---------------------------------------------------------------------

  /** Whoever says that the row is answered has the log to show for it. */
  ghost predicate AnswersAreSeen(s: Site, id: string) {
    Answers(s, id) == 0 ==>
      && !Answered(s, id)
      && forall k :: k in s.workers ==>
           (CopyOf(s.workers[k]).Some? && CopyOf(s.workers[k]).value.id == id ==>
              CopyOf(s.workers[k]).value.ackedAt.None?)
  }

  lemma StepKeepsSeen(s: Site, l: Label, id: string)
    requires Honest(s) && AnswersAreSeen(s, id)
    ensures AnswersAreSeen(Next(s, l), id)
  {
    var t := Next(s, l);
    StepCounts(s, l, id);
    if Answers(t, id) == 0 {
      StepIsOfAKind(s, l);
      if Still(s, t) {
        forall k | k in t.workers && CopyOf(t.workers[k]).Some? && CopyOf(t.workers[k]).value.id == id
          ensures CopyOf(t.workers[k]).value.ackedAt.None?
        {
          assert Moves(s, t.log, k, t.workers[k]);
        }
      } else if l.Swap? {
        SwapAnswers(s, l.k, id);
      } else if l.EnginePuts? {
        assert WorkerHonest(s.log, s.workers[l.k]);
        PutAnswers(s, l.k, l.e, id);
      }
    }
  }

  /** Nothing is in flight and nobody has answered this incident yet. */
  ghost predicate Begun(s: Site, id: string) {
    && Honest(s) && s.workers == map[] && s.log == []
    && (id in s.rows ==> id in s.used && s.rows[id].ackedAt.None?)
  }

  lemma {:induction false} SeenThroughout(s: Site, ls: seq<Label>, n: nat, id: string)
    requires Begun(s, id) && n <= |ls|
    ensures Honest(At(s, ls, n)) && AnswersAreSeen(At(s, ls, n), id) && Known(At(s, ls, n), id)
  {
    EveryRunIsHonest(s, ls[..n]);
    if n == 0 {
      assert At(s, ls, 0) == s;
    } else {
      SeenThroughout(s, ls, n - 1, id);
      AtNext(s, ls, n - 1);
      StepKeepsSeen(At(s, ls, n - 1), ls[n - 1], id);
      StepKeepsKnown(At(s, ls, n - 1), ls[n - 1], id);
    }
  }

  lemma CountsAt(s: Site, ls: seq<Label>, i: nat, id: string)
    requires Honest(s) && i < |ls|
    ensures Answers(At(s, ls, i + 1), id) == Answers(At(s, ls, i), id) + One(AnswerLands(At(s, ls, i), ls[i], id))
    ensures HookCalls(At(s, ls, i + 1).log, id)
            == HookCalls(At(s, ls, i).log, id) + One(TapLands(At(s, ls, i), ls[i], id))
  {
    EveryRunIsHonest(s, ls[..i]);
    AtNext(s, ls, i);
    StepCounts(At(s, ls, i), ls[i], id);
  }

  /** The count only grows. */
  lemma {:induction false} AnswersStay(s: Site, ls: seq<Label>, a: nat, b: nat, id: string)
    requires Honest(s) && a <= b <= |ls|
    ensures Answers(At(s, ls, a), id) <= Answers(At(s, ls, b), id)
    ensures HookCalls(At(s, ls, a).log, id) <= HookCalls(At(s, ls, b).log, id)
    decreases b
  {
    if a < b {
      AnswersStay(s, ls, a, b - 1, id);
      CountsAt(s, ls, b - 1, id);
    }
  }

  lemma AnswerGoesAt(s: Site, ls: seq<Label>, i: nat, id: string)
    requires Begun(s, id) && i < |ls|
    ensures AnswerLands(At(s, ls, i), ls[i], id) ==> Answered(At(s, ls, i + 1), id)
    ensures Answered(At(s, ls, i), id) && !Answered(At(s, ls, i + 1), id) <==> Erases(At(s, ls, i), ls[i], id)
  {
    SeenThroughout(s, ls, i, id);
    AtNext(s, ls, i);
    AnswerGoesExactlyWhen(At(s, ls, i), ls[i], id);
  }

  lemma NothingYet(s: Site, ls: seq<Label>, id: string)
    requires Begun(s, id)
    ensures Answers(At(s, ls, 0), id) == 0 && HookCalls(At(s, ls, 0).log, id) == 0
  {
    assert At(s, ls, 0) == s;
  }

  /** Some step from a on and before b erased an answer. */
  ghost predicate ErasedBetween(s: Site, ls: seq<Label>, a: nat, b: nat, id: string)
    requires a <= b <= |ls|
  {
    exists r: nat :: a <= r < b && Erases(At(s, ls, r), ls[r], id)
  }

  lemma ErasedOneLonger(s: Site, ls: seq<Label>, a: nat, b: nat, id: string)
    requires a <= b < |ls| && (ErasedBetween(s, ls, a, b, id) || Erases(At(s, ls, b), ls[b], id))
    ensures ErasedBetween(s, ls, a, b + 1, id)
  {
    if ErasedBetween(s, ls, a, b, id) {
      var r: nat :| a <= r < b && Erases(At(s, ls, r), ls[r], id);
    }
  }

  /** What was answered is answered still, or was erased in between. */
  lemma {:induction false} StillOrErased(s: Site, ls: seq<Label>, a: nat, b: nat, id: string)
    requires Begun(s, id) && a <= b <= |ls| && Answered(At(s, ls, a), id)
    ensures Answered(At(s, ls, b), id) || ErasedBetween(s, ls, a, b, id)
    decreases b
  {
    if a < b {
      StillOrErased(s, ls, a, b - 1, id);
      AnswerGoesAt(s, ls, b - 1, id);
      if !Answered(At(s, ls, b), id) {
        ErasedOneLonger(s, ls, a, b - 1, id);
      }
    }
  }

  /** A landing over an answer that it had not read, or after one was erased. */
  ghost predicate LandsAgain(s: Site, ls: seq<Label>, m: nat, id: string)
    requires m < |ls|
  {
    AnswerLands(At(s, ls, m), ls[m], id) && (Answered(At(s, ls, m), id) || ErasedBetween(s, ls, 0, m, id))
  }

  lemma {:induction false} AnAnswerShows(s: Site, ls: seq<Label>, n: nat, id: string)
    requires Begun(s, id) && n <= |ls| && Answers(At(s, ls, n), id) > 0
    ensures Answered(At(s, ls, n), id) || ErasedBetween(s, ls, 0, n, id)
    decreases n
  {
    NothingYet(s, ls, id);
    CountsAt(s, ls, n - 1, id);
    AnswerGoesAt(s, ls, n - 1, id);
    if !AnswerLands(At(s, ls, n - 1), ls[n - 1], id) {
      AnAnswerShows(s, ls, n - 1, id);
      if !Answered(At(s, ls, n), id) {
        ErasedOneLonger(s, ls, 0, n - 1, id);
      }
    }
  }

  lemma {:induction false} TwiceMeansAgain(s: Site, ls: seq<Label>, n: nat, id: string) returns (m: nat)
    requires Begun(s, id) && n <= |ls| && Answers(At(s, ls, n), id) > 1
    ensures m < n && LandsAgain(s, ls, m, id)
    decreases n
  {
    NothingYet(s, ls, id);
    CountsAt(s, ls, n - 1, id);
    if Answers(At(s, ls, n - 1), id) > 1 {
      m := TwiceMeansAgain(s, ls, n - 1, id);
    } else {
      AnAnswerShows(s, ls, n - 1, id);
      m := n - 1;
    }
  }

  lemma AgainMeansTwice(s: Site, ls: seq<Label>, m: nat, id: string)
    requires Begun(s, id) && m < |ls| && LandsAgain(s, ls, m, id)
    ensures Answers(At(s, ls, |ls|), id) > 1
  {
    SeenThroughout(s, ls, m, id);
    if ErasedBetween(s, ls, 0, m, id) {
      var r: nat :| r < m && Erases(At(s, ls, r), ls[r], id);
      SeenThroughout(s, ls, r, id);
      AnswersStay(s, ls, r, m, id);
    }
    CountsAt(s, ls, m, id);
    AnswersStay(s, ls, m + 1, |ls|, id);
  }

  /** Exactly when one incident is answered twice, over every run: when an answer
      lands on a row that is answered although its copy was not, under a token that
      did not move, or on one whose answer a removal, a swap or a plain write had
      taken off it before. */
  lemma AnsweredTwiceExactlyWhen(s: Site, ls: seq<Label>, id: string)
    requires Begun(s, id)
    ensures |StampsOf(Exec(s, ls).log, id)| > 1 <==> exists m: nat :: m < |ls| && LandsAgain(s, ls, m, id)
  {
    assert ls[..|ls|] == ls;
    if |StampsOf(Exec(s, ls).log, id)| > 1 {
      var m := TwiceMeansAgain(s, ls, |ls|, id);
    }
    if m: nat :| m < |ls| && LandsAgain(s, ls, m, id) {
      AgainMeansTwice(s, ls, m, id);
    }
  }

  // ---- The hook -----------------------------------------------------------------------

  lemma {:induction false} ACallWasATap(s: Site, ls: seq<Label>, n: nat, id: string) returns (i: nat)
    requires Begun(s, id) && n <= |ls| && HookCalls(At(s, ls, n).log, id) > 0
    ensures i < n && TapLands(At(s, ls, i), ls[i], id)
    decreases n
  {
    NothingYet(s, ls, id);
    CountsAt(s, ls, n - 1, id);
    if TapLands(At(s, ls, n - 1), ls[n - 1], id) {
      i := n - 1;
    } else {
      i := ACallWasATap(s, ls, n - 1, id);
    }
  }

  /** A tap lands at i, and another at m: on a row that is answered although the
      tap's copy was not, or after an answer was erased since the first one. */
  ghost predicate TapsAgain(s: Site, ls: seq<Label>, i: nat, m: nat, id: string)
    requires i < m < |ls|
  {
    && TapLands(At(s, ls, i), ls[i], id) && TapLands(At(s, ls, m), ls[m], id)
    && (Answered(At(s, ls, m), id) || ErasedBetween(s, ls, i + 1, m, id))
  }

  lemma {:induction false} TwoCallsAreTwoTaps(s: Site, ls: seq<Label>, n: nat, id: string) returns (i: nat, m: nat)
    requires Begun(s, id) && n <= |ls| && HookCalls(At(s, ls, n).log, id) > 1
    ensures i < m < n && TapsAgain(s, ls, i, m, id)
    decreases n
  {
    NothingYet(s, ls, id);
    CountsAt(s, ls, n - 1, id);
    if HookCalls(At(s, ls, n - 1).log, id) > 1 {
      i, m := TwoCallsAreTwoTaps(s, ls, n - 1, id);
    } else {
      i := ACallWasATap(s, ls, n - 1, id);
      m := n - 1;
      AnswerGoesAt(s, ls, i, id);
      StillOrErased(s, ls, i + 1, m, id);
    }
  }

  lemma TwoTapsAreTwoCalls(s: Site, ls: seq<Label>, i: nat, m: nat, id: string)
    requires Begun(s, id) && i < m < |ls| && TapsAgain(s, ls, i, m, id)
    ensures HookCalls(At(s, ls, |ls|).log, id) > 1
  {
    CountsAt(s, ls, i, id);
    AnswersStay(s, ls, i + 1, m, id);
    CountsAt(s, ls, m, id);
    AnswersStay(s, ls, m + 1, |ls|, id);
  }

  /** Exactly when the endpoint's hook fires twice for one incident. */
  lemma HookFiresTwiceExactlyWhen(s: Site, ls: seq<Label>, id: string)
    requires Begun(s, id)
    ensures HookCalls(Exec(s, ls).log, id) > 1
            <==> exists i: nat, m: nat :: i < m < |ls| && TapsAgain(s, ls, i, m, id)
  {
    assert ls[..|ls|] == ls;
    if HookCalls(Exec(s, ls).log, id) > 1 {
      var i, m := TwoCallsAreTwoTaps(s, ls, |ls|, id);
    }
    if i: nat, m: nat :| i < m < |ls| && TapsAgain(s, ls, i, m, id) {
      TwoTapsAreTwoCalls(s, ls, i, m, id);
    }
  }
}
