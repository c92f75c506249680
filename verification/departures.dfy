/** What a replacement waits for: when it returns, what it dropped is gone; what
    failed was reported before it was resolved; and when Run returns nothing
    serves any more. All of it rests on each record being started once, and one
    interleaving with the beginning of Run starts it twice. */
module Departures {
  import opened Base
  import opened Supervision
  import opened Supervising
  import opened Truthfulness

  // ---- The steps, by what they do to the goroutines ------------------------------------

  predicate Ended(p: Phase) {
    p.Left? || p.Gone?
  }

  /** Nobody is made, started, dropped or taken up, and goroutines only move on. */
  predicate SameCrew(b: Board, t: Board) {
    && |t.made| == |b.made|
    && (forall r :: 0 <= r < |b.made| ==> t.made[r].go == b.made[r].go)
    && |t.goes| == |b.goes|
    && (forall g :: 0 <= g < |b.goes| ==>
          && t.goes[g].runner == b.goes[g].runner
          && (b.goes[g].phase.Gone? ==> t.goes[g].phase.Gone?) && (Ended(b.goes[g].phase) ==> Ended(t.goes[g].phase)))
    && t.running == b.running && t.began == b.began && (b.stopped ==> t.stopped) && b.closed <= t.closed
  }

  /** The replacement is where it was, or further along the same lists. */
  predicate SamePlan(s: Site, t: Site) {
    || t.replacing == s.replacing
    || (s.replacing.Busy? && t.replacing.Busy? && t.replacing.removed == s.replacing.removed
        && t.replacing.started == s.replacing.started && t.replacing.begun == s.replacing.begun)
  }

  predicate Finishes(s: Site, l: Label) {
    && l.Onward? && s.replacing.Busy? && s.replacing.stage.Look?
    && s.replacing.n == |s.replacing.removed|
  }

  predicate Swaps(s: Site, l: Label) {
    l.Swap? && s.replacing.Idle? && !s.board.stopped && Listable(l.next)
  }

  lemma OnwardKeepsCrew(s: Site)
    requires s.Proper() && s.replacing.Busy? && !Finishes(s, Onward)
    ensures Replaced(s).board == s.board && SamePlan(s, Replaced(s))
  {
  }

  lemma OnwardOnlyGoesOn(s: Site)
    requires s.Proper() && !Finishes(s, Onward)
    ensures Next(s, Onward).board == s.board && SamePlan(s, Next(s, Onward))
  {
    if s.replacing.Busy? {
      OnwardKeepsCrew(s);
    }
  }

  lemma PhaseKeepsCrew(b: Board, g: nat, phase: Phase)
    requires b.Proper() && g < |b.goes|
    requires !Ended(b.goes[g].phase)
    ensures SameCrew(b, Phased(b, g, phase))
  {
  }

  lemma ClosingKeepsCrew(b: Board, g: nat)
    requires b.Proper() && g < |b.goes| && b.goes[g].phase.Left?
    ensures SameCrew(b, Closing(b, g))
  {
  }

  lemma BreakingKeepsCrew(b: Board, g: nat, why: string)
    requires b.Proper() && g < |b.goes| && b.goes[g].phase.Breaking?
    ensures var r := b.goes[g].runner;
            SameCrew(b, Phased(b.(made := b.made[r := b.made[r].(fatal := why)]), g, Reporting(why)))
  {
  }

  lemma LeavingKeepsCrew(b: Board, g: nat)
    requires b.Proper() && g < |b.goes| && b.goes[g].phase.Leaving?
    ensures SameCrew(b, Phased(b.(live := b.live - {b.goes[g].runner}), g, Left))
  {
  }

  lemma MoveKeepsCrew(s: Site, g: nat)
    requires s.Proper() && g < |s.board.goes|
    ensures SameCrew(s.board, Moved(s, g).board) && Moved(s, g).replacing == s.replacing
  {
    var b := s.board;
    match b.goes[g].phase
    case Serving => PhaseKeepsCrew(b, g, Leaving);
    case Breaking(why) => BreakingKeepsCrew(b, g, why);
    case Reporting(_) => PhaseKeepsCrew(b, g, Leaving);
    case Leaving => LeavingKeepsCrew(b, g);
    case Left => ClosingKeepsCrew(b, g);
    case Gone =>
  }

  lemma FateKeepsCrew(s: Site, l: Label)
    requires s.Proper() && (l.Breaks? || l.Hears?)
    ensures SameCrew(s.board, Befallen(s, l).board) && Befallen(s, l).replacing == s.replacing
  {
    if l.Breaks? && l.g < |s.board.goes| && s.board.goes[l.g].phase.Serving? {
      PhaseKeepsCrew(s.board, l.g, Breaking(l.why));
    }
  }

  lemma LookKeepsCrew(s: Site, l: Label)
    requires s.Proper() && (l.Looks? || l.Judges? || l.Tells?)
    ensures SameCrew(s.board, Checked(s, l).board) && Checked(s, l).replacing == s.replacing
  {
  }

  lemma RunKeepsCrew(s: Site, l: Label)
    requires s.Proper() && (l.Over? || l.Stops? || l.RunReturns?)
    ensures SameCrew(s.board, Ran(s, l).board) && Ran(s, l).replacing == s.replacing
  {
  }

  lemma PartiesKeepCrew(s: Site, l: Label)
    requires s.Proper()
    requires l.Goes? || l.Looks? || l.Judges? || l.Tells? || l.Breaks? || l.Hears?
    ensures SameCrew(s.board, Next(s, l).board) && Next(s, l).replacing == s.replacing
  {
    match l
    case Goes(g) => if g < |s.board.goes| { MoveKeepsCrew(s, g); }
    case Breaks(_, _) => FateKeepsCrew(s, l);
    case Hears(_, _) => FateKeepsCrew(s, l);
    case _ => LookKeepsCrew(s, l);
  }

  /** Every step starts nobody and drops nobody, but for the beginning of Run and
      a replacement's first and last turn. */
  lemma OtherStepsKeepCrew(s: Site, l: Label)
    requires s.Proper() && !(l.Begin? && !s.board.began) && !Swaps(s, l) && !Finishes(s, l)
    ensures SameCrew(s.board, Next(s, l).board) && SamePlan(s, Next(s, l))
  {
    match l
    case Onward => OnwardOnlyGoesOn(s);
    case Over => RunKeepsCrew(s, l);
    case Stops => RunKeepsCrew(s, l);
    case RunReturns => RunKeepsCrew(s, l);
    case Begin =>
    case Swap(_, _) =>
    case CheckBegins(_) =>
    case _ => PartiesKeepCrew(s, l);
  }

  // ---- Started once --------------------------------------------------------------------

  /** Every goroutine is the one its record knows. */
  predicate OneEach(b: Board)
    requires b.Proper()
  {
    forall g :: 0 <= g < |b.goes| ==> b.made[b.goes[g].runner].go == Some(g)
  }

  /** A record's goroutine is its own. */
  predicate Owned(b: Board)
    requires b.Proper()
  {
    forall r :: 0 <= r < |b.made| && b.made[r].go.Some? ==> b.goes[b.made[r].go.value].runner == r
  }

  /** Who has been started: nobody before Run begins; and what a replacement is to
      start has not been, unless Run has begun since, which has started it. */
  ghost predicate StartsKnown(s: Site)
    requires s.Proper()
  {
    && Owned(s.board) && Base.Distinct(s.board.running)
    && (!s.board.began ==> forall r :: 0 <= r < |s.board.made| ==> s.board.made[r].go.None?)
    && (s.replacing.Busy? ==>
          && Base.Distinct(s.replacing.started) && (s.replacing.begun ==> s.board.began)
          && (forall r :: r in s.replacing.started ==> r in s.board.running)
          && (forall r :: r in s.replacing.started ==>
                (s.board.made[r].go.Some? <==> s.board.began && !s.replacing.begun)))
  }

  /** Whoever is started has a new goroutine. */
  lemma {:induction false} StartedAnew(b: Board, rs: seq<nat>, r: nat)
    requires b.Proper() && (forall i :: 0 <= i < |rs| ==> rs[i] < |b.made|) && r in rs
    ensures var t := AllStarted(b, rs);
            r < |t.made| && t.made[r].go.Some? && |b.goes| <= t.made[r].go.value < |t.goes|
  {
    var n := |rs| - 1;
    StartingTouches(b, rs[..n]);
    if r != rs[n] {
      assert r in rs[..n];
      StartedAnew(b, rs[..n], r);
    }
  }

  lemma {:induction false} StartingOwns(b: Board, rs: seq<nat>)
    requires b.Proper() && Owned(b) && forall i :: 0 <= i < |rs| ==> rs[i] < |b.made|
    ensures Owned(AllStarted(b, rs))
  {
    if rs != [] {
      StartingOwns(b, rs[..|rs| - 1]);
    }
  }

  lemma StartingOneMore(b: Board, r: nat)
    requires b.Proper() && OneEach(b) && Owned(b) && r < |b.made| && b.made[r].go.None?
    ensures OneEach(Started(b, r))
  {
  }

  lemma {:induction false} StartingKeepsOneEach(b: Board, rs: seq<nat>)
    requires b.Proper() && Owned(b) && OneEach(b) && Base.Distinct(rs)
    requires forall i :: 0 <= i < |rs| ==> rs[i] < |b.made| && b.made[rs[i]].go.None?
    ensures OneEach(AllStarted(b, rs))
  {
    if rs != [] {
      var n := |rs| - 1;
      StartingKeepsOneEach(b, rs[..n]);
      StartingOwns(b, rs[..n]);
      StartingTouches(b, rs[..n]);
      assert rs[n] !in rs[..n];
      StartingOneMore(AllStarted(b, rs[..n]), rs[n]);
    }
  }

  /** Somebody started again is one too many, for good. */
  lemma SecondsStay(b: Board, rs: seq<nat>, g: nat)
    requires b.Proper() && (forall i :: 0 <= i < |rs| ==> rs[i] < |b.made|) && g < |b.goes|
    requires b.made[b.goes[g].runner].go != Some(g) || b.goes[g].runner in rs
    ensures !OneEach(AllStarted(b, rs))
  {
    StartingTouches(b, rs);
    var t, r := AllStarted(b, rs), b.goes[g].runner;
    assert t.goes[g].runner == r;
    if r in rs {
      StartedAnew(b, rs, r);
    }
    assert t.made[r].go != Some(g);
  }

  lemma SwapTouches(b: Board, next: seq<Option<Source>>, now: Time)
    requires b.Proper() && Listable(next)
    ensures var Change(t, removed, started) := Swapped(b, next, now);
            && b.made <= t.made && |t.goes| == |b.goes| && t.live == b.live
            && t.began == b.began && t.over == b.over && t.stopped == b.stopped
            && t.closed == b.closed && t.crashed == b.crashed
            && (forall g :: 0 <= g < |b.goes| ==>
                  t.goes[g].runner == b.goes[g].runner && t.goes[g].phase == b.goes[g].phase)
            && (forall r :: |b.made| <= r < |t.made| ==> t.made[r] == NewRunner(t.made[r].src, now))
            && (forall r :: r in started ==> r in t.running && r >= |b.made|)
            && (forall r :: r in t.running ==> r in b.running || (r >= |b.made| && r in started))
            && (forall r :: r in removed ==> r in b.running && r !in t.running)
            && (forall r :: r in b.running ==> r in t.running || r in removed)
            && Base.Distinct(started) && Base.Distinct(t.running)
  {
    var Change(t, removed, started) := Swapped(b, next, now);
    SwapGivesTheList(b, next, now);
    forall r | r in t.running
      ensures r in b.running || (r >= |b.made| && r in started)
    {
      var i :| 0 <= i < |t.running| && t.running[i] == r;
      assert Seated(b, next, now, t, started, i);
      assert r in started ==> r >= |b.made|;
    }
  }

  lemma BeginKnowsStarts(s: Site)
    requires s.Proper() && StartsKnown(s) && !s.board.began
    ensures StartsKnown(Next(s, Begin))
  {
    var b := s.board.(began := true);
    StartingOwns(b, b.running);
    StartingTouches(b, b.running);
    var t := Next(s, Begin);
    if s.replacing.Busy? {
      forall r | r in s.replacing.started
        ensures t.board.made[r].go.Some?
      {
        StartedAnew(b, b.running, r);
      }
    }
  }

  lemma SwapKnowsStarts(s: Site, l: Label)
    requires s.Proper() && StartsKnown(s) && Swaps(s, l)
    ensures StartsKnown(Next(s, l))
  {
    SwapTouches(s.board, l.next, l.now);
  }

  lemma FinishKnowsStarts(s: Site)
    requires s.Proper() && StartsKnown(s) && Finishes(s, Onward)
    ensures StartsKnown(Next(s, Onward))
  {
    StartingOwns(s.board, s.replacing.started);
    StartingTouches(s.board, s.replacing.started);
  }

  lemma CrewKnowsStarts(s: Site, t: Site)
    requires s.Proper() && t.Proper() && StartsKnown(s) && SameCrew(s.board, t.board) && SamePlan(s, t)
    ensures StartsKnown(t)
    ensures OneEach(t.board) <==> OneEach(s.board)
  {
    assert forall g :: 0 <= g < |s.board.goes| ==> t.board.goes[g].runner == s.board.goes[g].runner;
  }

  lemma StartsStayKnown(s: Site, l: Label)
    requires s.Proper() && StartsKnown(s)
    ensures StartsKnown(Next(s, l))
  {
    if l.Begin? && !s.board.began {
      BeginKnowsStarts(s);
    } else if Swaps(s, l) {
      SwapKnowsStarts(s, l);
    } else if Finishes(s, l) {
      FinishKnowsStarts(s);
    } else {
      OtherStepsKeepCrew(s, l);
      CrewKnowsStarts(s, Next(s, l));
    }
  }

  /** A replacement comes to its last turn with something to start, and Run has
      begun since its first. */
  predicate LateStart(s: Site, l: Label) {
    Finishes(s, l) && !s.replacing.begun && s.board.began && !s.board.stopped && s.replacing.started != []
  }

  lemma BeginStartsEachOnce(s: Site)
    requires s.Proper() && StartsKnown(s) && !s.board.began
    ensures OneEach(Next(s, Begin).board) <==> OneEach(s.board)
  {
    var b := s.board.(began := true);
    if OneEach(s.board) {
      StartingKeepsOneEach(b, b.running);
    } else {
      StartingStaysBroken(b, b.running);
    }
  }

  lemma SwapStartsNobody(s: Site, l: Label)
    requires s.Proper() && StartsKnown(s) && Swaps(s, l)
    ensures OneEach(Next(s, l).board) <==> OneEach(s.board)
  {
    SwapTouches(s.board, l.next, l.now);
    assert forall g :: 0 <= g < |s.board.goes| ==> Next(s, l).board.goes[g].runner == s.board.goes[g].runner;
  }

  lemma StartingLate(b: Board, rs: seq<nat>)
    requires b.Proper() && Owned(b) && (forall i :: 0 <= i < |rs| ==> rs[i] < |b.made|) && rs != []
    requires b.made[rs[0]].go.Some?
    ensures !OneEach(AllStarted(b, rs))
  {
    assert rs[0] in rs;
    SecondsStay(b, rs, b.made[rs[0]].go.value);
  }

  lemma StartingStaysBroken(b: Board, rs: seq<nat>)
    requires b.Proper() && (forall i :: 0 <= i < |rs| ==> rs[i] < |b.made|) && !OneEach(b)
    ensures !OneEach(AllStarted(b, rs))
  {
    var g :| 0 <= g < |b.goes| && b.made[b.goes[g].runner].go != Some(g);
    SecondsStay(b, rs, g);
  }

  lemma StartingIsOneEachExactlyWhen(b: Board, rs: seq<nat>)
    requires b.Proper() && Owned(b) && Base.Distinct(rs) && forall i :: 0 <= i < |rs| ==> rs[i] < |b.made|
    requires (forall i :: 0 <= i < |rs| ==> b.made[rs[i]].go.None?) || (rs != [] && b.made[rs[0]].go.Some?)
    ensures OneEach(AllStarted(b, rs)) <==> OneEach(b) && !(rs != [] && b.made[rs[0]].go.Some?)
  {
    if !OneEach(b) {
      StartingStaysBroken(b, rs);
    } else if rs != [] && b.made[rs[0]].go.Some? {
      StartingLate(b, rs);
    } else {
      StartingKeepsOneEach(b, rs);
    }
  }

  lemma WhatIsToStart(s: Site)
    requires s.Proper() && StartsKnown(s) && s.replacing.Busy?
    ensures var b, rs := s.board, s.replacing.started;
            && Owned(b) && Base.Distinct(rs) && (forall i :: 0 <= i < |rs| ==> rs[i] < |b.made|)
            && (forall i :: 0 <= i < |rs| ==> (b.made[rs[i]].go.Some? <==> b.began && !s.replacing.begun))
  {
    assert forall i :: 0 <= i < |s.replacing.started| ==> s.replacing.started[i] in s.replacing.started;
  }

  lemma FinishBoard(s: Site)
    requires s.Proper() && Finishes(s, Onward)
    requires forall i :: 0 <= i < |s.replacing.started| ==> s.replacing.started[i] < |s.board.made|
    ensures Next(s, Onward).board == if s.board.began && !s.board.stopped
                                     then AllStarted(s.board, s.replacing.started) else s.board
  {
  }

  lemma FinishStartsEachOnce(s: Site)
    requires s.Proper() && StartsKnown(s) && Finishes(s, Onward)
    ensures OneEach(Next(s, Onward).board) <==> OneEach(s.board) && !LateStart(s, Onward)
  {
    WhatIsToStart(s);
    FinishBoard(s);
    if s.board.began && !s.board.stopped {
      StartingIsOneEachExactlyWhen(s.board, s.replacing.started);
    }
  }

  lemma StepStartsEachOnce(s: Site, l: Label)
    requires s.Proper() && StartsKnown(s)
    ensures OneEach(Next(s, l).board) <==> OneEach(s.board) && !LateStart(s, l)
  {
    if l.Begin? && !s.board.began {
      BeginStartsEachOnce(s);
    } else if Swaps(s, l) {
      SwapStartsNobody(s, l);
    } else if Finishes(s, l) {
      FinishStartsEachOnce(s);
    } else {
      OtherStepsKeepCrew(s, l);
      CrewKnowsStarts(s, Next(s, l));
    }
  }

  /** Run never began in the middle of a replacement that then had something to
      start. */
  ghost predicate NoLateStart(s: Site, ls: seq<Label>)
    requires s.Proper()
    decreases ls
  {
    ls == [] || s.board.crashed || (!LateStart(s, ls[0]) && NoLateStart(Next(s, ls[0]), ls[1..]))
  }

  /** Exactly when every record has been given one goroutine: unless Run began
      between a replacement's first and last turn, with something for it to start.
      Run starts that too, and the goroutine it started is then no longer known to
      the record. */
  lemma {:induction false} EachIsStartedOnceExactlyWhen(s: Site, ls: seq<Label>)
    requires s.Proper() && StartsKnown(s)
    ensures StartsKnown(Exec(s, ls))
    ensures OneEach(Exec(s, ls).board) <==> OneEach(s.board) && NoLateStart(s, ls)
    decreases ls
  {
    if ls != [] && !s.board.crashed {
      StartsStayKnown(s, ls[0]);
      StepStartsEachOnce(s, ls[0]);
      EachIsStartedOnceExactlyWhen(Next(s, ls[0]), ls[1..]);
    }
  }

  // ---- What a replacement waits for -------------------------------------------------------

  /** Neither running nor about to be, and so for good. */
  predicate Out(s: Site, r: nat)
    requires s.Proper()
  {
    r < |s.board.made| && r !in s.board.running && (s.replacing.Busy? ==> r !in s.replacing.started)
  }

  predicate Departed(s: Site, r: nat)
    requires s.Proper()
  {
    Out(s, r) && Done(s.board, r)
  }

  /** What the replacement under way has dropped is out, and what it has waited
      for is gone. */
  ghost predicate Waited(s: Site)
    requires s.Proper()
  {
    s.replacing.Busy? ==>
      && (forall i :: 0 <= i < |s.replacing.removed| ==> Out(s, s.replacing.removed[i]))
      && (forall i :: 0 <= i < |s.replacing.removed| && (s.replacing.stage.Join? ==> i < s.replacing.n) ==>
            Done(s.board, s.replacing.removed[i]))
  }

  /** What any replacement that returned had dropped is gone. */
  ghost predicate ReturnsKept(s: Site)
    requires s.Proper()
  {
    forall i :: 0 <= i < |s.log| && s.log[i].Returned? ==> forall r :: r in s.log[i].removed ==> Departed(s, r)
  }

  lemma StartingLeavesAlone(b: Board, rs: seq<nat>, r: nat)
    requires b.Proper() && (forall i :: 0 <= i < |rs| ==> rs[i] < |b.made|) && r < |b.made| && r !in rs
    ensures r < |AllStarted(b, rs).made| && (Done(b, r) ==> Done(AllStarted(b, rs), r))
  {
    StartingTouches(b, rs);
  }

  lemma BeginLeavesOut(s: Site, r: nat)
    requires s.Proper() && Out(s, r) && !s.board.began
    ensures Out(Next(s, Begin), r) && (Done(s.board, r) ==> Done(Next(s, Begin).board, r))
  {
    StartingTouches(s.board.(began := true), s.board.running);
    StartingLeavesAlone(s.board.(began := true), s.board.running, r);
  }

  lemma FinishLeavesOut(s: Site, r: nat)
    requires s.Proper() && Out(s, r) && Finishes(s, Onward)
    ensures Out(Next(s, Onward), r) && (Done(s.board, r) ==> Done(Next(s, Onward).board, r))
  {
    StartingTouches(s.board, s.replacing.started);
    StartingLeavesAlone(s.board, s.replacing.started, r);
  }

  lemma SwapLeavesOut(s: Site, l: Label, r: nat)
    requires s.Proper() && Out(s, r) && Swaps(s, l)
    ensures Out(Next(s, l), r) && (Done(s.board, r) ==> Done(Next(s, l).board, r))
  {
    SwapTouches(s.board, l.next, l.now);
  }

  lemma CrewLeavesOut(s: Site, t: Site, r: nat)
    requires s.Proper() && t.Proper() && Out(s, r) && SameCrew(s.board, t.board) && SamePlan(s, t)
    ensures Out(t, r) && (Done(s.board, r) ==> Done(t.board, r))
  {
  }

  lemma OutStays(s: Site, l: Label, r: nat)
    requires s.Proper() && Out(s, r)
    ensures Out(Next(s, l), r)
    ensures Done(s.board, r) ==> Done(Next(s, l).board, r)
  {
    if l.Begin? && !s.board.began {
      BeginLeavesOut(s, r);
    } else if Swaps(s, l) {
      SwapLeavesOut(s, l, r);
    } else if Finishes(s, l) {
      FinishLeavesOut(s, r);
    } else {
      OtherStepsKeepCrew(s, l);
      CrewLeavesOut(s, Next(s, l), r);
    }
  }

  lemma SwapWaits(s: Site, l: Label)
    requires s.Proper() && Swaps(s, l)
    ensures Waited(Next(s, l))
  {
    SwapTouches(s.board, l.next, l.now);
    var removed := Swapped(s.board, l.next, l.now).removed;
    assert forall i :: 0 <= i < |removed| ==> removed[i] in removed;
  }

  /** A replacement only goes on over what is done. */
  lemma OnwardWaits(s: Site, i: nat)
    requires s.Proper() && Waited(s) && s.replacing.Busy? && !Finishes(s, Onward)
    requires var t := Replaced(s); i < |t.replacing.removed| && (t.replacing.stage.Join? ==> i < t.replacing.n)
    ensures Done(s.board, s.replacing.removed[i])
  {
  }

  /** The replacement under way is still the one it was. */
  lemma PlanStays(s: Site, l: Label)
    requires s.Proper() && s.replacing.Busy? && !Finishes(s, l)
    ensures SamePlan(s, Next(s, l)) && (!l.Onward? ==> Next(s, l).replacing == s.replacing)
  {
    if l.Onward? {
      OnwardKeepsCrew(s);
    }
  }

  lemma OneStaysWaited(s: Site, l: Label, i: nat)
    requires s.Proper() && Waited(s) && s.replacing.Busy? && !Finishes(s, l) && i < |s.replacing.removed|
    ensures var t, r := Next(s, l), s.replacing.removed[i];
            Out(t, r) && (t.replacing.Busy? && (t.replacing.stage.Join? ==> i < t.replacing.n) ==> Done(t.board, r))
  {
    PlanStays(s, l);
    OutStays(s, l, s.replacing.removed[i]);
    if l.Onward? && (Next(s, l).replacing.stage.Join? ==> i < Next(s, l).replacing.n) {
      OnwardWaits(s, i);
    }
  }

  lemma StaysWaited(s: Site, l: Label)
    requires s.Proper() && Waited(s)
    ensures Waited(Next(s, l))
  {
    if Swaps(s, l) {
      SwapWaits(s, l);
    } else if s.replacing.Busy? && !Finishes(s, l) {
      PlanStays(s, l);
      forall i | 0 <= i < |s.replacing.removed|
        ensures var t, r := Next(s, l), s.replacing.removed[i];
                Out(t, r) && (t.replacing.Busy? && (t.replacing.stage.Join? ==> i < t.replacing.n) ==> Done(t.board, r))
      {
        OneStaysWaited(s, l, i);
      }
    } else if s.replacing.Idle? {
      IdleStays(s, l);
    }
  }

  lemma IdleStays(s: Site, l: Label)
    requires s.Proper() && s.replacing.Idle? && !Swaps(s, l)
    ensures Next(s, l).replacing.Idle?
  {
  }

  /** The only step that returns is the last turn. */
  lemma LogGrows(s: Site, l: Label)
    requires s.Proper()
    ensures var t := Next(s, l);
            || t.log == s.log
            || (Finishes(s, l) && t.log == s.log + [Returned(s.replacing.removed)])
            || (l.RunReturns? && s.ending.Some? && (forall r :: r in s.ending.value ==> Done(s.board, r))
                && t.log == s.log + [RunReturned])
            || exists teller, name, raise, fits :: t.log == s.log + [Report(teller, name, raise, fits)]
  {
  }

  lemma ReturnsStayKept(s: Site, l: Label)
    requires s.Proper() && Waited(s) && ReturnsKept(s)
    ensures ReturnsKept(Next(s, l))
  {
    var t := Next(s, l);
    LogGrows(s, l);
    forall i, r | 0 <= i < |t.log| && t.log[i].Returned? && r in t.log[i].removed
      ensures Departed(t, r)
    {
      if i < |s.log| {
        assert t.log[i] == s.log[i];
      } else {
        var j :| 0 <= j < |s.replacing.removed| && s.replacing.removed[j] == r;
      }
      OutStays(s, l, r);
    }
  }

  lemma {:induction false} RunsWait(s: Site, ls: seq<Label>)
    requires s.Proper() && Waited(s) && ReturnsKept(s)
    ensures Waited(Exec(s, ls)) && ReturnsKept(Exec(s, ls))
    decreases ls
  {
    if ls != [] && !s.board.crashed {
      StaysWaited(s, ls[0]);
      ReturnsStayKept(s, ls[0]);
      RunsWait(Next(s, ls[0]), ls[1..]);
    }
  }
}
