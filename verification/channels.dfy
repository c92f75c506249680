/** What a closed channel says. A goroutine's last act is to close the channel its
    record holds by then. While a record is never started over a goroutine still
    at work, that channel says exactly that all its goroutines are gone; once it
    is, a replacement returns too early and the process comes down. */
module Channels {
  import opened Base
  import opened Supervision
  import opened Supervising
  import opened Truthfulness
  import opened Departures

  /** A goroutine of this record has not ended for good. */
  predicate AtWork(b: Board, g: nat, r: nat) {
    g < |b.goes| && b.goes[g].runner == r && !b.goes[g].phase.Gone?
  }

  /** At most the goroutine that the record knows is at work, and its channel is
      closed exactly if it is not. */
  ghost predicate Sole(b: Board, r: nat)
    requires b.Proper() && r < |b.made|
  {
    && (forall g: nat :: AtWork(b, g, r) ==> b.made[r].go == Some(g))
    && (b.made[r].go.Some? ==> (b.made[r].go.value in b.closed <==> b.goes[b.made[r].go.value].phase.Gone?))
  }

  /** Somebody is at work who will close the record's channel, and it is closed
      already or somebody else will close it too. */
  ghost predicate Doomed(b: Board, r: nat)
    requires b.Proper() && r < |b.made|
  {
    && b.made[r].go.Some?
    && exists g: nat :: AtWork(b, g, r)
         && (b.made[r].go.value in b.closed || exists h: nat :: h != g && AtWork(b, h, r))
  }

  lemma SoleAndDone(b: Board, r: nat, g: nat)
    requires b.Proper() && r < |b.made| && Sole(b, r) && Done(b, r)
    ensures !AtWork(b, g, r)
  {
  }

  // ---- Starting ----------------------------------------------------------------------

  lemma {:induction false} AsManyAreStarted(b: Board, rs: seq<nat>)
    requires b.Proper() && forall i :: 0 <= i < |rs| ==> rs[i] < |b.made|
    ensures |AllStarted(b, rs).goes| == |b.goes| + |rs|
  {
    if rs != [] {
      AsManyAreStarted(b, rs[..|rs| - 1]);
    }
  }

  /** The goroutine g is of this record, which knows it. */
  predicate Runs(b: Board, g: nat, r: nat)
    requires b.Proper()
  {
    g < |b.goes| && r < |b.made| && b.goes[g].runner == r && b.made[r].go == Some(g)
  }

  lemma TheLastRuns(b: Board, rs: seq<nat>)
    requires b.Proper() && (forall j :: 0 <= j < |rs| ==> rs[j] < |b.made|) && rs != []
    ensures Runs(AllStarted(b, rs), |b.goes| + |rs| - 1, rs[|rs| - 1])
  {
    AsManyAreStarted(b, rs[..|rs| - 1]);
  }

  lemma OneMoreLetsRun(b: Board, r: nat, g: nat, q: nat)
    requires b.Proper() && r < |b.made| && q != r && Runs(b, g, q)
    ensures Runs(Started(b, r), g, q)
  {
  }

  lemma {:induction false} StartedInItsPlace(b: Board, rs: seq<nat>, i: nat)
    requires b.Proper() && (forall j :: 0 <= j < |rs| ==> rs[j] < |b.made|) && i < |rs|
    requires forall j :: i < j < |rs| ==> rs[j] != rs[i]
    ensures Runs(AllStarted(b, rs), |b.goes| + i, rs[i])
    decreases |rs|
  {
    var n := |rs| - 1;
    if i == n {
      TheLastRuns(b, rs);
    } else {
      StartedInItsPlace(b, rs[..n], i);
      OneMoreLetsRun(AllStarted(b, rs[..n]), rs[n], |b.goes| + i, rs[i]);
    }
  }

  lemma StartsInOrder(b: Board, rs: seq<nat>)
    requires b.Proper() && Base.Distinct(rs) && forall i :: 0 <= i < |rs| ==> rs[i] < |b.made|
    ensures var t := AllStarted(b, rs);
            && |t.goes| == |b.goes| + |rs|
            && forall i :: 0 <= i < |rs| ==>
                 t.goes[|b.goes| + i].runner == rs[i] && t.made[rs[i]].go == Some(|b.goes| + i)
  {
    AsManyAreStarted(b, rs);
    forall i | 0 <= i < |rs|
      ensures AllStarted(b, rs).goes[|b.goes| + i].runner == rs[i]
      ensures AllStarted(b, rs).made[rs[i]].go == Some(|b.goes| + i)
    {
      StartedInItsPlace(b, rs, i);
      assert Runs(AllStarted(b, rs), |b.goes| + i, rs[i]);
    }
  }

  /** Starting a record of which nobody is at work. */
  lemma StartingIsSole(b: Board, rs: seq<nat>, r: nat)
    requires b.Proper() && Base.Distinct(rs) && forall i :: 0 <= i < |rs| ==> rs[i] < |b.made|
    requires r < |b.made| && Sole(b, r) && (r in rs ==> forall g: nat :: !AtWork(b, g, r))
    ensures r < |AllStarted(b, rs).made| && Sole(AllStarted(b, rs), r)
  {
    var t := AllStarted(b, rs);
    StartsInOrder(b, rs);
    StartingTouches(b, rs);
    forall g: nat | AtWork(t, g, r)
      ensures t.made[r].go == Some(g)
    {
      if g < |b.goes| {
        assert t.goes[g] == b.goes[g] && AtWork(b, g, r);
      } else {
        assert t.goes[|b.goes| + (g - |b.goes|)].runner == rs[g - |b.goes|];
      }
    }
    if i :| 0 <= i < |rs| && rs[i] == r {
      assert t.made[rs[i]].go == Some(|b.goes| + i);
    }
  }

  lemma StartedIsAtWork(b: Board, rs: seq<nat>, r: nat) returns (g: nat)
    requires b.Proper() && Base.Distinct(rs) && (forall i :: 0 <= i < |rs| ==> rs[i] < |b.made|) && r in rs
    ensures g >= |b.goes| && AtWork(AllStarted(b, rs), g, r) && AllStarted(b, rs).made[r].go == Some(g)
  {
    StartsInOrder(b, rs);
    StartingTouches(b, rs);
    var i :| 0 <= i < |rs| && rs[i] == r;
    g := |b.goes| + i;
  }

  lemma StartingDooms(b: Board, rs: seq<nat>, r: nat, c: nat)
    requires b.Proper() && Base.Distinct(rs) && (forall i :: 0 <= i < |rs| ==> rs[i] < |b.made|) && r in rs
    requires AtWork(b, c, r)
    ensures Doomed(AllStarted(b, rs), r)
  {
    StartingTouches(b, rs);
    var g := StartedIsAtWork(b, rs, r);
    assert AllStarted(b, rs).goes[c] == b.goes[c];
    assert AtWork(AllStarted(b, rs), c, r) && c != g;
  }

  lemma StartingLeavesDoomed(b: Board, rs: seq<nat>, r: nat)
    requires b.Proper() && Base.Distinct(rs) && (forall i :: 0 <= i < |rs| ==> rs[i] < |b.made|)
    requires r < |b.made| && Doomed(b, r)
    ensures r < |AllStarted(b, rs).made| && Doomed(AllStarted(b, rs), r)
  {
    var g: nat :| AtWork(b, g, r) && (b.made[r].go.value in b.closed || exists h: nat :: h != g && AtWork(b, h, r));
    StartingTouches(b, rs);
    if r in rs {
      StartingDooms(b, rs, r, g);
    } else {
      var t := AllStarted(b, rs);
      assert AtWork(t, g, r);
      if b.made[r].go.value !in b.closed {
        var h: nat :| h != g && AtWork(b, h, r);
        assert AtWork(t, h, r);
      }
    }
  }

  // ---- Steps that start nobody and close nothing -----------------------------------------

  predicate SameWork(b: Board, t: Board) {
    && |b.made| <= |t.made| && (forall r :: 0 <= r < |b.made| ==> t.made[r].go == b.made[r].go)
    && |t.goes| == |b.goes|
    && (forall g :: 0 <= g < |b.goes| ==>
          t.goes[g].runner == b.goes[g].runner && (t.goes[g].phase.Gone? <==> b.goes[g].phase.Gone?))
    && t.closed == b.closed && t.crashed == b.crashed
  }

  lemma SameWorkSame(b: Board, t: Board, r: nat)
    requires b.Proper() && t.Proper() && SameWork(b, t) && r < |b.made|
    ensures Sole(b, r) ==> Sole(t, r)
    ensures Doomed(b, r) ==> Doomed(t, r)
  {
    assert forall g: nat :: AtWork(b, g, r) <==> AtWork(t, g, r);
  }

  predicate Closes(s: Site, l: Label) {
    l.Goes? && l.g < |s.board.goes| && s.board.goes[l.g].phase.Left?
  }

  lemma PhaseSameWork(b: Board, g: nat, phase: Phase)
    requires b.Proper() && g < |b.goes| && !b.goes[g].phase.Gone? && !phase.Gone?
    ensures SameWork(b, Phased(b, g, phase))
  {
  }

  lemma BreakingSameWork(b: Board, g: nat, why: string)
    requires b.Proper() && g < |b.goes| && b.goes[g].phase.Breaking?
    ensures var r := b.goes[g].runner;
            SameWork(b, Phased(b.(made := b.made[r := b.made[r].(fatal := why)]), g, Reporting(why)))
  {
  }

  lemma LeavingSameWork(b: Board, g: nat)
    requires b.Proper() && g < |b.goes| && b.goes[g].phase.Leaving?
    ensures SameWork(b, Phased(b.(live := b.live - {b.goes[g].runner}), g, Left))
  {
  }

  lemma MovesSameWork(s: Site, g: nat)
    requires s.Proper() && g < |s.board.goes| && !s.board.goes[g].phase.Left?
    ensures SameWork(s.board, Moved(s, g).board)
  {
    var b := s.board;
    match b.goes[g].phase
    case Serving => PhaseSameWork(b, g, Leaving);
    case Breaking(why) => BreakingSameWork(b, g, why);
    case Reporting(_) => PhaseSameWork(b, g, Leaving);
    case Leaving => LeavingSameWork(b, g);
    case Gone =>
  }

  lemma LooksSameWork(s: Site, l: Label)
    requires s.Proper() && (l.Looks? || l.Judges? || l.Tells?)
    ensures SameWork(s.board, Checked(s, l).board)
  {
  }

  lemma FateSameWork(s: Site, l: Label)
    requires s.Proper() && (l.Breaks? || l.Hears?)
    ensures SameWork(s.board, Befallen(s, l).board)
  {
  }

  lemma RanSameWork(s: Site, l: Label)
    requires s.Proper() && (l.Over? || l.Stops? || l.RunReturns? || (l.Begin? && s.board.began))
    ensures SameWork(s.board, Ran(s, l).board)
  {
  }

  lemma ReplacingSameWork(s: Site, l: Label)
    requires s.Proper() && (l.Swap? || l.Onward?) && !Finishes(s, l)
    ensures SameWork(s.board, Next(s, l).board)
  {
    match l
    case Swap(_, _) => if Swaps(s, l) { SwapTouches(s.board, l.next, l.now); }
    case Onward => if s.replacing.Busy? { OnwardKeepsCrew(s); }
  }

  lemma GoingSameWork(s: Site, g: nat)
    requires s.Proper() && !Closes(s, Goes(g))
    ensures SameWork(s.board, Next(s, Goes(g)).board)
  {
    if g < |s.board.goes| {
      MovesSameWork(s, g);
      assert Next(s, Goes(g)) == Moved(s, g);
    }
  }

  lemma OthersSameWork(s: Site, l: Label)
    requires s.Proper() && !(l.Begin? && !s.board.began) && !Finishes(s, l) && !Closes(s, l)
    ensures SameWork(s.board, Next(s, l).board)
  {
    match l
    case Swap(_, _) => ReplacingSameWork(s, l);
    case Onward => ReplacingSameWork(s, l);
    case Goes(g) => GoingSameWork(s, g);
    case Looks(_) => LooksSameWork(s, l);
    case Judges(_) => LooksSameWork(s, l);
    case Tells => LooksSameWork(s, l);
    case Breaks(_, _) => FateSameWork(s, l);
    case Hears(_, _) => FateSameWork(s, l);
    case CheckBegins(_) =>
    case _ => RanSameWork(s, l);
  }

  // ---- Closing -----------------------------------------------------------------------------

  lemma ClosingStaysSole(b: Board, g: nat, r: nat)
    requires b.Proper() && Owned(b) && g < |b.goes| && b.goes[g].phase.Left? && r < |b.made| && Sole(b, r)
    ensures Sole(Closing(b, g), r)
    ensures b.goes[g].runner == r ==> !Closing(b, g).crashed || b.crashed
  {
    var t := Closing(b, g);
    assert b.goes[g].runner == r ==> AtWork(b, g, r);
    assert forall k: nat :: AtWork(t, k, r) ==> AtWork(b, k, r);
  }

  lemma ClosingStaysDoomed(b: Board, g: nat, r: nat)
    requires b.Proper() && Owned(b) && g < |b.goes| && b.goes[g].phase.Left? && r < |b.made| && Doomed(b, r)
    ensures Doomed(Closing(b, g), r) || Closing(b, g).crashed
  {
    var t := Closing(b, g);
    if !t.crashed {
      var k: nat :| AtWork(b, k, r) && (b.made[r].go.value in b.closed || exists h: nat :: h != k && AtWork(b, h, r));
      if b.goes[g].runner == r {
        var h: nat :| h != k && AtWork(b, h, r);
        var other := if k == g then h else k;
        assert AtWork(t, other, r);
      } else {
        assert AtWork(t, k, r);
        if b.made[r].go.value !in b.closed {
          var h: nat :| h != k && AtWork(b, h, r);
          assert AtWork(t, h, r);
        }
      }
    }
  }

  // ---- Over every run ------------------------------------------------------------------

  /** A replacement's last turn starts this record again, for Run has begun since its
      first turn and has started it, and the channel it holds is not closed. */
  predicate Overlaps(s: Site, l: Label, r: nat)
    requires s.Proper()
  {
    LateStart(s, l) && r in s.replacing.started && r < |s.board.made| && !Done(s.board, r)
  }

  lemma BeginStaysSole(s: Site, r: nat)
    requires s.Proper() && StartsKnown(s) && !s.board.began && r < |s.board.made| && Sole(s.board, r)
    ensures r < |Next(s, Begin).board.made| && Sole(Next(s, Begin).board, r)
  {
    var b := s.board.(began := true);
    assert forall g: nat :: AtWork(b, g, r) <==> AtWork(s.board, g, r);
    StartingIsSole(b, b.running, r);
  }

  lemma FinishStaysSole(s: Site, r: nat)
    requires s.Proper() && StartsKnown(s) && Finishes(s, Onward) && r < |s.board.made| && Sole(s.board, r)
    requires !Overlaps(s, Onward, r)
    ensures r < |Next(s, Onward).board.made| && Sole(Next(s, Onward).board, r)
  {
    WhatIsToStart(s);
    FinishBoard(s);
    if s.board.began && !s.board.stopped {
      if r in s.replacing.started {
        forall g: nat
          ensures !AtWork(s.board, g, r)
        {
          if s.board.made[r].go.Some? {
            SoleAndDone(s.board, r, g);
          }
        }
      }
      StartingIsSole(s.board, s.replacing.started, r);
    }
  }

  lemma StaysSole(s: Site, l: Label, r: nat)
    requires s.Proper() && StartsKnown(s) && r < |s.board.made| && Sole(s.board, r) && !Overlaps(s, l, r)
    ensures r < |Next(s, l).board.made| && Sole(Next(s, l).board, r)
  {
    if l.Begin? && !s.board.began {
      BeginStaysSole(s, r);
    } else if Finishes(s, l) {
      FinishStaysSole(s, r);
    } else if Closes(s, l) {
      ClosingStaysSole(s.board, l.g, r);
      assert Next(s, l) == Moved(s, l.g);
    } else {
      OthersSameWork(s, l);
      SameWorkSame(s.board, Next(s, l).board, r);
    }
  }

  /** A record that has just been made has nobody at work. */
  lemma NewIsSole(s: Site, l: Label, r: nat)
    requires s.Proper() && Swaps(s, l) && |s.board.made| <= r < |Next(s, l).board.made|
    ensures Sole(Next(s, l).board, r)
  {
    SwapTouches(s.board, l.next, l.now);
    assert forall g: nat :: !AtWork(Next(s, l).board, g, r);
  }

  lemma OnlySwapsMake(s: Site, l: Label)
    requires s.Proper() && !Swaps(s, l)
    ensures |Next(s, l).board.made| == |s.board.made|
  {
    if l.Begin? && !s.board.began {
      StartingTouches(s.board.(began := true), s.board.running);
    } else if Finishes(s, l) {
      StartingTouches(s.board, s.replacing.started);
    } else {
      OtherStepsKeepCrew(s, l);
    }
  }

  lemma OverlapDooms(s: Site, l: Label, r: nat)
    requires s.Proper() && StartsKnown(s) && Overlaps(s, l, r) && Sole(s.board, r)
    ensures r < |Next(s, l).board.made| && Doomed(Next(s, l).board, r)
  {
    WhatIsToStart(s);
    FinishBoard(s);
    StartingTouches(s.board, s.replacing.started);
    StartingDooms(s.board, s.replacing.started, r, s.board.made[r].go.value);
  }

  lemma FinishStaysDoomed(s: Site, r: nat)
    requires s.Proper() && StartsKnown(s) && Finishes(s, Onward) && r < |s.board.made| && Doomed(s.board, r)
    ensures r < |Next(s, Onward).board.made| && Doomed(Next(s, Onward).board, r)
  {
    WhatIsToStart(s);
    FinishBoard(s);
    if s.board.began && !s.board.stopped {
      StartingLeavesDoomed(s.board, s.replacing.started, r);
    }
  }

  lemma StaysDoomed(s: Site, l: Label, r: nat)
    requires s.Proper() && StartsKnown(s) && r < |s.board.made| && Doomed(s.board, r)
    ensures r < |Next(s, l).board.made| && (Doomed(Next(s, l).board, r) || Next(s, l).board.crashed)
  {
    if l.Begin? && !s.board.began {
      assert false;
    } else if Finishes(s, l) {
      FinishStaysDoomed(s, r);
    } else if Closes(s, l) {
      ClosingStaysDoomed(s.board, l.g, r);
      assert Next(s, l) == Moved(s, l.g);
    } else {
      OthersSameWork(s, l);
      SameWorkSame(s.board, Next(s, l).board, r);
    }
  }

  /** Some step of the run starts this record over a goroutine still at work. */
  ghost predicate OverlapsIn(s: Site, ls: seq<Label>, r: nat)
    requires s.Proper()
    decreases ls
  {
    ls != [] && !s.board.crashed && (Overlaps(s, ls[0], r) || OverlapsIn(Next(s, ls[0]), ls[1..], r))
  }

  ghost predicate Overlapped(s: Site, ls: seq<Label>)
    requires s.Proper()
  {
    exists r: nat :: OverlapsIn(s, ls, r)
  }

  lemma {:induction false} DoomIsForGood(s: Site, ls: seq<Label>, r: nat)
    requires s.Proper() && StartsKnown(s) && r < |s.board.made| && (Doomed(s.board, r) || s.board.crashed)
    ensures r < |Exec(s, ls).board.made| && (Doomed(Exec(s, ls).board, r) || Exec(s, ls).board.crashed)
    decreases ls
  {
    if ls != [] && !s.board.crashed {
      StartsStayKnown(s, ls[0]);
      StaysDoomed(s, ls[0], r);
      DoomIsForGood(Next(s, ls[0]), ls[1..], r);
    }
  }

  /** Whether or not it has been made yet. */
  ghost predicate SoleSoFar(b: Board, r: nat)
    requires b.Proper()
  {
    r < |b.made| ==> Sole(b, r)
  }

  lemma StaysSoleSoFar(s: Site, l: Label, r: nat)
    requires s.Proper() && StartsKnown(s) && SoleSoFar(s.board, r) && !Overlaps(s, l, r)
    ensures SoleSoFar(Next(s, l).board, r)
  {
    if r < |s.board.made| {
      StaysSole(s, l, r);
    } else if !Swaps(s, l) {
      OnlySwapsMake(s, l);
    } else if r < |Next(s, l).board.made| {
      NewIsSole(s, l, r);
    }
  }

  /** Exactly when a record keeps one goroutine at work, and one channel for it:
      while no step starts it over one that is. After such a step it is doomed, for
      as long as the process lives. */
  lemma {:induction false} SoleExactlyWhen(s: Site, ls: seq<Label>, r: nat)
    requires s.Proper() && StartsKnown(s) && SoleSoFar(s.board, r)
    ensures !OverlapsIn(s, ls, r) ==> SoleSoFar(Exec(s, ls).board, r)
    ensures OverlapsIn(s, ls, r) ==>
              r < |Exec(s, ls).board.made| && (Doomed(Exec(s, ls).board, r) || Exec(s, ls).board.crashed)
    decreases ls
  {
    if ls != [] && !s.board.crashed {
      StartsStayKnown(s, ls[0]);
      if Overlaps(s, ls[0], r) {
        OverlapDooms(s, ls[0], r);
        DoomIsForGood(Next(s, ls[0]), ls[1..], r);
      } else {
        StaysSoleSoFar(s, ls[0], r);
        SoleExactlyWhen(Next(s, ls[0]), ls[1..], r);
      }
    }
  }

  // ---- What a replacement's return says ------------------------------------------------------

  /** A supervisor that has just been built. */
  ghost predicate Fresh(s: Site) {
    && s.board.goes == [] && s.board.live == {} && !s.board.began && !s.board.stopped
    && s.board.closed == {} && !s.board.crashed
    && |s.board.running| == |s.board.made|
    && (forall i :: 0 <= i < |s.board.made| ==>
          s.board.running[i] == i && s.board.made[i].go.None? && !s.board.made[i].Faulted())
    && s.replacing.Idle? && s.check.Resting? && s.ending.None? && s.open == {} && s.log == []
  }

  lemma FreshIsSole(s: Site, r: nat)
    requires Fresh(s)
    ensures s.Proper() && StartsKnown(s) && SoleSoFar(s.board, r) && Waited(s) && ReturnsKept(s)
  {
  }

  /** In every run, once a replacement has returned, what it dropped is out for good
      and the channel it waited for is closed. And that means what it was meant to,
      that every goroutine of it is gone, exactly if none of them was ever started
      over another that was still at work. */
  lemma ReturnsOnceTheyAreGone(s: Site, ls: seq<Label>, removed: seq<nat>, r: nat)
    requires Fresh(s) && s.Proper()
    requires Returned(removed) in Exec(s, ls).log && r in removed
    ensures var t := Exec(s, ls);
            && Departed(t, r)
            && (!t.board.crashed ==> ((forall g: nat :: !AtWork(t.board, g, r)) <==> !OverlapsIn(s, ls, r)))
  {
    FreshIsSole(s, r);
    RunsWait(s, ls);
    SoleExactlyWhen(s, ls, r);
    var t := Exec(s, ls);
    if !OverlapsIn(s, ls, r) {
      forall g: nat
        ensures !AtWork(t.board, g, r)
      {
        SoleAndDone(t.board, r, g);
      }
    }
  }

  // ---- Crashing ------------------------------------------------------------------------------

  lemma OnlyClosingCrashes(s: Site, l: Label)
    requires s.Proper() && !Closes(s, l)
    ensures Next(s, l).board.crashed == s.board.crashed
  {
    if l.Begin? && !s.board.began {
      StartingTouches(s.board.(began := true), s.board.running);
    } else if Finishes(s, l) {
      StartingTouches(s.board, s.replacing.started);
    } else {
      OthersSameWork(s, l);
    }
  }

  lemma StepStaysUp(s: Site, l: Label)
    requires s.Proper() && StartsKnown(s) && !s.board.crashed
    requires Closes(s, l) ==> Sole(s.board, s.board.goes[l.g].runner)
    ensures !Next(s, l).board.crashed
  {
    if Closes(s, l) {
      ClosingStaysSole(s.board, l.g, s.board.goes[l.g].runner);
      assert Next(s, l) == Moved(s, l.g);
    } else {
      OnlyClosingCrashes(s, l);
    }
  }

  ghost predicate AllSole(b: Board)
    requires b.Proper()
  {
    forall r: nat :: SoleSoFar(b, r)
  }

  lemma AtWorkIsKnown(b: Board, g: nat)
    requires b.Proper() && AllSole(b) && g < |b.goes| && !b.goes[g].phase.Gone?
    ensures b.made[b.goes[g].runner].go == Some(g) && !Done(b, b.goes[g].runner)
  {
    assert SoleSoFar(b, b.goes[g].runner) && AtWork(b, g, b.goes[g].runner);
  }

  /** One step of a run without an overlap. */
  lemma StaysAllSole(s: Site, ls: seq<Label>)
    requires s.Proper() && StartsKnown(s) && AllSole(s.board) && !s.board.crashed
    requires ls != [] && !Overlapped(s, ls)
    ensures var t := Next(s, ls[0]);
            StartsKnown(t) && AllSole(t.board) && !t.board.crashed && !Overlapped(t, ls[1..])
  {
    var l, t := ls[0], Next(s, ls[0]);
    forall r: nat
      ensures SoleSoFar(t.board, r) && !OverlapsIn(t, ls[1..], r)
    {
      assert SoleSoFar(s.board, r) && !OverlapsIn(s, ls, r);
      StaysSoleSoFar(s, l, r);
    }
    assert Closes(s, l) ==> SoleSoFar(s.board, s.board.goes[l.g].runner);
    StartsStayKnown(s, l);
    StepStaysUp(s, l);
  }

  lemma {:induction false} NobodyDoomedNoCrash(s: Site, ls: seq<Label>)
    requires s.Proper() && StartsKnown(s) && AllSole(s.board) && !s.board.crashed && !Overlapped(s, ls)
    ensures !Exec(s, ls).board.crashed && AllSole(Exec(s, ls).board)
    decreases ls
  {
    if ls != [] {
      StaysAllSole(s, ls);
      NobodyDoomedNoCrash(Next(s, ls[0]), ls[1..]);
    }
  }

  lemma DoomedWorks(b: Board, r: nat)
    requires b.Proper() && r < |b.made| && Doomed(b, r)
    ensures exists g: nat :: AtWork(b, g, r)
  {
  }

  lemma FreshNeverCrashesWithoutOverlap(s: Site, ls: seq<Label>)
    requires Fresh(s) && s.Proper() && !Overlapped(s, ls)
    ensures !Exec(s, ls).board.crashed
  {
    FreshIsSole(s, 0);
    forall r: nat
      ensures SoleSoFar(s.board, r)
    {
      FreshIsSole(s, r);
    }
    NobodyDoomedNoCrash(s, ls);
  }

  /** Nobody is at work any more. */
  ghost predicate AllEnded(b: Board) {
    forall g: nat, r: nat :: !AtWork(b, g, r)
  }

  lemma OverlapEndsInACrash(s: Site, ls: seq<Label>, r: nat)
    requires s.Proper() && StartsKnown(s) && SoleSoFar(s.board, r) && OverlapsIn(s, ls, r)
    requires !Exec(s, ls).board.crashed
    ensures exists g: nat :: AtWork(Exec(s, ls).board, g, r)
  {
    SoleExactlyWhen(s, ls, r);
    DoomedWorks(Exec(s, ls).board, r);
  }

  /** Exactly when the process comes down, in every run at whose end every goroutine
      there was has ended or the process has: when some record was started over a
      goroutine still at work. */
  lemma CrashesExactlyWhen(s: Site, ls: seq<Label>)
    requires Fresh(s) && s.Proper()
    requires Exec(s, ls).board.crashed || AllEnded(Exec(s, ls).board)
    ensures Exec(s, ls).board.crashed <==> Overlapped(s, ls)
  {
    if Exec(s, ls).board.crashed {
      if !Overlapped(s, ls) {
        FreshNeverCrashesWithoutOverlap(s, ls);
      }
    } else {
      forall r: nat
        ensures !OverlapsIn(s, ls, r)
      {
        if OverlapsIn(s, ls, r) {
          FreshIsSole(s, r);
          OverlapEndsInACrash(s, ls, r);
        }
      }
    }
  }

  /** It takes a late start. */
  lemma {:induction false} NoLateStartNoOverlap(s: Site, ls: seq<Label>, r: nat)
    requires s.Proper() && NoLateStart(s, ls)
    ensures !OverlapsIn(s, ls, r)
    decreases ls
  {
    if ls != [] && !s.board.crashed {
      NoLateStartNoOverlap(Next(s, ls[0]), ls[1..], r);
    }
  }
}
