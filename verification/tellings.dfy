/** Who tells the engine what, in which order: a failure before its resolve, a
    raise late only about what is no longer there, and nothing at all once Run has
    returned. */
module Tellings {
  import opened Base
  import opened Supervision
  import opened Supervising
  import opened Truthfulness
  import opened Departures
  import opened Channels

  // ---- Whoever is at work is known ------------------------------------------------------

  /** A goroutine not yet gone serves a running source, or one that a replacement
      still waits for. */
  predicate Attended(s: Site, r: nat)
    requires s.Proper()
  {
    r in s.board.running
    || (s.replacing.Busy? && s.replacing.stage.Join? && r in s.replacing.removed[s.replacing.n..])
  }

  ghost predicate AllAttended(s: Site)
    requires s.Proper()
  {
    forall g :: 0 <= g < |s.board.goes| && !s.board.goes[g].phase.Gone? ==> Attended(s, s.board.goes[g].runner)
  }

  lemma StartedAreAttended(s: Site, b: Board, rs: seq<nat>)
    requires s.Proper() && AllAttended(s) && b.Proper() && b.goes == s.board.goes && |b.made| == |s.board.made|
    requires (forall i :: 0 <= i < |rs| ==> rs[i] < |b.made|) && forall r :: r in rs ==> r in s.board.running
    ensures var t := AllStarted(b, rs);
            forall g :: 0 <= g < |t.goes| && !t.goes[g].phase.Gone? ==> Attended(s, t.goes[g].runner)
  {
    StartingTouches(b, rs);
    var t := AllStarted(b, rs);
    forall g | 0 <= g < |t.goes| && !t.goes[g].phase.Gone?
      ensures Attended(s, t.goes[g].runner)
    {
      if g < |b.goes| {
        assert t.goes[g] == b.goes[g];
      }
    }
  }

  lemma SwapAttends(s: Site, l: Label)
    requires s.Proper() && AllAttended(s) && Swaps(s, l)
    ensures AllAttended(Next(s, l))
  {
    SwapTouches(s.board, l.next, l.now);
    var Change(t, removed, started) := Swapped(s.board, l.next, l.now);
    assert removed[0..] == removed;
    forall g | 0 <= g < |t.goes| && !t.goes[g].phase.Gone?
      ensures t.goes[g].runner in t.running || t.goes[g].runner in removed
    {
      assert Attended(s, s.board.goes[g].runner);
    }
  }

  lemma OnwardAttends(s: Site)
    requires s.Proper() && AllAttended(s) && AllSole(s.board) && s.replacing.Busy? && !Finishes(s, Onward)
    ensures AllAttended(Replaced(s))
  {
    var t, p := Replaced(s), s.replacing;
    OnwardKeepsCrew(s);
    forall g | 0 <= g < |t.board.goes| && !t.board.goes[g].phase.Gone?
      ensures Attended(t, t.board.goes[g].runner)
    {
      assert Attended(s, s.board.goes[g].runner);
      AtWorkIsKnown(s.board, g);
      if p.stage.Join? && p.n < |p.removed| {
        assert p.removed[p.n..] == [p.removed[p.n]] + p.removed[p.n + 1..];
      }
    }
  }

  lemma CrewAttends(s: Site, t: Site)
    requires s.Proper() && t.Proper() && AllAttended(s) && SameCrew(s.board, t.board) && t.replacing == s.replacing
    ensures AllAttended(t)
  {
    forall g | 0 <= g < |t.board.goes| && !t.board.goes[g].phase.Gone?
      ensures Attended(t, t.board.goes[g].runner)
    {
      assert Attended(s, s.board.goes[g].runner);
    }
  }

  lemma StartsAttend(s: Site, l: Label)
    requires s.Proper() && AllAttended(s) && StartsKnown(s) && ((l.Begin? && !s.board.began) || Finishes(s, l))
    ensures AllAttended(Next(s, l))
  {
    if l.Begin? {
      StartedAreAttended(s, s.board.(began := true), s.board.running);
      StartingTouches(s.board.(began := true), s.board.running);
    } else {
      StartedAreAttended(s, s.board, s.replacing.started);
      StartingTouches(s.board, s.replacing.started);
    }
  }

  lemma StaysAttended(s: Site, l: Label)
    requires s.Proper() && AllAttended(s) && StartsKnown(s) && AllSole(s.board)
    ensures AllAttended(Next(s, l))
  {
    if (l.Begin? && !s.board.began) || Finishes(s, l) {
      StartsAttend(s, l);
    } else if Swaps(s, l) {
      SwapAttends(s, l);
    } else if l.Onward? && s.replacing.Busy? {
      OnwardAttends(s);
    } else {
      OtherStepsKeepCrew(s, l);
      CrewAttends(s, Next(s, l));
    }
  }

  // ---- What a teller holds is what is recorded --------------------------------------------

  predicate Marked(b: Board, g: nat)
    requires b.Proper() && g < |b.goes|
  {
    b.goes[g].phase.Reporting? ==> b.made[b.goes[g].runner].fatal == b.goes[g].phase.why
  }

  /** Whoever is about to report a failure has recorded it, and the deadman's edge is
      the mark it left. */
  ghost predicate MarksKnown(s: Site)
    requires s.Proper()
  {
    && (forall g :: 0 <= g < |s.board.goes| ==> Marked(s.board, g))
    && (s.check.Telling? ==> s.board.made[s.check.left[0]].silent == s.check.raise)
  }

  lemma StartingMarksNobody(s: Site, t: Site, b: Board, rs: seq<nat>)
    requires s.Proper() && t.Proper() && MarksKnown(s) && b.Proper()
    requires b.goes == s.board.goes && b.made == s.board.made && forall i :: 0 <= i < |rs| ==> rs[i] < |b.made|
    requires t.board == AllStarted(b, rs) && t.check == s.check
    ensures MarksKnown(t)
  {
    StartingTouches(b, rs);
    forall g | 0 <= g < |t.board.goes|
      ensures Marked(t.board, g)
    {
      assert g < |b.goes| ==> t.board.goes[g] == s.board.goes[g] && Marked(s.board, g);
    }
  }

  lemma SwapMarksNobody(s: Site, l: Label)
    requires s.Proper() && MarksKnown(s) && Swaps(s, l)
    ensures MarksKnown(Next(s, l))
  {
    SwapTouches(s.board, l.next, l.now);
    var t := Next(s, l);
    forall g | 0 <= g < |t.board.goes|
      ensures Marked(t.board, g)
    {
      assert Marked(s.board, g) && s.board.goes[g].phase == t.board.goes[g].phase;
      assert t.board.made[s.board.goes[g].runner] == s.board.made[s.board.goes[g].runner];
    }
  }

  lemma PhaseMarksNobody(b: Board, g: nat, phase: Phase, k: nat)
    requires b.Proper() && g < |b.goes| && k < |b.goes| && Marked(b, k) && !phase.Reporting?
    ensures Marked(Phased(b, g, phase), k)
  {
  }

  lemma BreakingMarks(s: Site, g: nat, k: nat)
    requires s.Proper() && AllSole(s.board) && g < |s.board.goes| && k < |s.board.goes| && Marked(s.board, k)
    requires s.board.goes[g].phase.Breaking?
    ensures Marked(Moved(s, g).board, k)
  {
    AtWorkIsKnown(s.board, g);
    if s.board.goes[k].phase.Reporting? {
      AtWorkIsKnown(s.board, k);
    }
  }

  lemma MoveMarks(s: Site, g: nat, k: nat)
    requires s.Proper() && AllSole(s.board) && g < |s.board.goes| && k < |s.board.goes| && Marked(s.board, k)
    ensures Marked(Moved(s, g).board, k)
  {
    var b := s.board;
    match b.goes[g].phase
    case Serving => PhaseMarksNobody(b, g, Leaving, k);
    case Breaking(_) => BreakingMarks(s, g, k);
    case Reporting(_) => PhaseMarksNobody(b, g, Leaving, k);
    case Leaving => PhaseMarksNobody(b.(live := b.live - {b.goes[g].runner}), g, Left, k);
    case Left => PhaseMarksNobody(b, g, Gone, k);
    case Gone =>
  }

  lemma MoveSilencesNobody(s: Site, g: nat, r: nat)
    requires s.Proper() && g < |s.board.goes| && r < |s.board.made|
    ensures Moved(s, g).board.made[r].silent == s.board.made[r].silent && Moved(s, g).check == s.check
  {
    match s.board.goes[g].phase
    case Breaking(_) =>
    case _ =>
  }

  lemma MovesMark(s: Site, g: nat)
    requires s.Proper() && MarksKnown(s) && AllSole(s.board) && g < |s.board.goes|
    ensures MarksKnown(Moved(s, g))
  {
    MoveKeepsCrew(s, g);
    forall k | 0 <= k < |s.board.goes|
      ensures Marked(Moved(s, g).board, k)
    {
      MoveMarks(s, g, k);
    }
    if s.check.Telling? {
      MoveSilencesNobody(s, g, s.check.left[0]);
    }
  }

  lemma FateMarksNobody(s: Site, l: Label)
    requires s.Proper() && MarksKnown(s) && (l.Breaks? || l.Hears?)
    ensures MarksKnown(Befallen(s, l))
  {
    forall k | 0 <= k < |s.board.goes|
      ensures Marked(Befallen(s, l).board, k)
    {
      assert Marked(s.board, k);
    }
  }

  lemma LookingMarks(s: Site, l: Label)
    requires s.Proper() && MarksKnown(s) && (l.Looks? || l.Judges? || l.Tells?)
    ensures MarksKnown(Checked(s, l))
  {
    forall k | 0 <= k < |s.board.goes|
      ensures Marked(Checked(s, l).board, k)
    {
      assert Marked(s.board, k);
    }
  }

  lemma FinishMarksNobody(s: Site)
    requires s.Proper() && MarksKnown(s) && Finishes(s, Onward)
    ensures MarksKnown(Replaced(s))
  {
    if s.board.began && !s.board.stopped {
      StartingMarksNobody(s, Replaced(s), s.board, s.replacing.started);
    }
  }

  lemma RunMarksNobody(s: Site, l: Label)
    requires s.Proper() && MarksKnown(s) && (l.Begin? || l.Over? || l.Stops? || l.RunReturns?)
    ensures MarksKnown(Ran(s, l))
  {
    if l.Begin? && !s.board.began {
      StartingMarksNobody(s, Ran(s, l), s.board.(began := true), s.board.running);
    } else {
      assert forall g :: 0 <= g < |s.board.goes| && Marked(s.board, g) ==> Marked(Ran(s, l).board, g);
    }
  }

  lemma MarksStayKnown(s: Site, l: Label)
    requires s.Proper() && MarksKnown(s) && AllSole(s.board)
    ensures MarksKnown(Next(s, l))
  {
    match l
    case Swap(_, _) => if Swaps(s, l) { SwapMarksNobody(s, l); }
    case Onward =>
      if Finishes(s, l) {
        FinishMarksNobody(s);
      } else if s.replacing.Busy? {
        OnwardKeepsCrew(s);
      }
    case Goes(g) => if g < |s.board.goes| { MovesMark(s, g); }
    case Breaks(_, _) => FateMarksNobody(s, l);
    case Hears(_, _) => FateMarksNobody(s, l);
    case CheckBegins(_) =>
    case Looks(_) => LookingMarks(s, l);
    case Judges(_) => LookingMarks(s, l);
    case Tells => LookingMarks(s, l);
    case _ => RunMarksNobody(s, l);
  }

  // ---- A raise that comes too late ------------------------------------------------------

  /** Who counts has its mark seen. */
  lemma MarkedIsFaulty(s: Site, r: nat)
    requires s.Proper() && Counts(s, r) && s.board.made[r].Faulted()
    ensures Faulty(s, s.board.made[r].src.name)
  {
    assert FaultOf(s, r, s.board.made[r].src.name);
  }

  lemma AttendedCounts(s: Site, r: nat)
    requires s.Proper() && Attended(s, r) && r < |s.board.made|
    ensures Counts(s, r)
  {
    if r !in s.board.running {
      var p := s.replacing;
      var i :| 0 <= i < |p.removed[p.n..]| && p.removed[p.n..][i] == r;
      assert p.removed[p.n + i] == r;
    }
  }

  /** The report a step makes, if it makes one. */
  predicate Says(s: Site, t: Site, teller: Teller, name: string, raise: bool, fits: bool) {
    t.log == s.log + [Report(teller, name, raise, fits)]
  }

  lemma FailureFits(s: Site, g: nat)
    requires s.Proper() && AllAttended(s) && MarksKnown(s) && g < |s.board.goes| && s.board.goes[g].phase.Reporting?
    requires s.board.goes[g].phase.why != ""
    ensures var r := s.board.goes[g].runner;
            Says(s, Moved(s, g), Failure(r, s.board.goes[g].phase.why), s.board.made[r].src.name, true, true)
  {
    var u := s.(board := Phased(s.board, g, Leaving));
    assert Attended(s, s.board.goes[g].runner) && Marked(s.board, g);
    AttendedCounts(s, s.board.goes[g].runner);
    assert Counts(u, s.board.goes[g].runner);
    MarkedIsFaulty(u, s.board.goes[g].runner);
  }

  lemma EdgeFits(s: Site)
    requires s.Proper() && MarksKnown(s) && s.check.Telling? && s.check.raise && Counts(s, s.check.left[0])
    ensures var r := s.check.left[0];
            Says(s, Checked(s, Label.Tells), Deadman(r), s.board.made[r].src.name, true, true)
  {
    var u := s.(check := Looking(s.check.now, s.check.left[1..]));
    assert Counts(u, s.check.left[0]);
    MarkedIsFaulty(u, s.check.left[0]);
  }

  /** Who can have made the report of a step. */
  lemma WhoTells(s: Site, l: Label, teller: Teller, name: string, raise: bool, fits: bool)
    requires s.Proper() && Says(s, Next(s, l), teller, name, raise, fits)
    ensures match teller
            case Replacing(r) =>
              && l.Onward? && s.replacing.Busy? && s.replacing.stage.Resolve? && !raise
              && r == s.replacing.removed[s.replacing.n]
            case Failure(r, why) =>
              && l.Goes? && l.g < |s.board.goes| && s.board.goes[l.g].phase == Reporting(why) && raise
              && r == s.board.goes[l.g].runner
            case Deadman(r) => l == Label.Tells && s.check.Telling? && raise == s.check.raise && r == s.check.left[0]
  {
    var n := |s.log|;
    assert Next(s, l).log[n] == Report(teller, name, raise, fits);
  }

  /** All that is known of a supervisor none of whose records was ever started over
      a goroutine still at work. */
  ghost predicate Sound(s: Site)
    requires s.Proper()
  {
    && StartsKnown(s) && AllSole(s.board) && !s.board.crashed
    && Waited(s) && AllAttended(s) && MarksKnown(s)
  }

  /** A raise that does not fit is the deadman's, about a source that a replacement
      has dropped and dealt with since the deadman copied its list; or that of a
      failure which had nothing to say. */
  lemma OnlyADroppedSourceIsRaisedTooLate(s: Site, l: Label, teller: Teller, name: string)
    requires s.Proper() && Sound(s) && Says(s, Next(s, l), teller, name, true, false)
    ensures (teller.Deadman? && !Counts(s, teller.r)) || (teller.Failure? && teller.why == "")
  {
    WhoTells(s, l, teller, name, true, false);
    var n := |s.log|;
    assert Next(s, l).log[n] == Report(teller, name, true, false);
    match teller
    case Replacing(_) =>
    case Failure(r, why) => if why != "" { FailureFits(s, l.g); }
    case Deadman(r) => if Counts(s, r) { EdgeFits(s); }
  }

  // ---- A failure is reported before it is resolved -------------------------------------------

  predicate Fails(e: Event, r: nat) {
    e.Report? && e.teller.Failure? && e.teller.r == r
  }

  predicate Resolves(e: Event, r: nat) {
    e.Report? && e.teller == Replacing(r)
  }

  ghost predicate FailureIn(log: seq<Event>, r: nat) {
    exists i :: 0 <= i < |log| && Fails(log[i], r)
  }

  /** Every recorded failure has been reported or is about to be. */
  ghost predicate FailuresTold(s: Site)
    requires s.Proper()
  {
    forall r :: 0 <= r < |s.board.made| && s.board.made[r].fatal != "" ==>
      FailureIn(s.log, r)
      || exists g :: 0 <= g < |s.board.goes| && s.board.goes[g].runner == r && s.board.goes[g].phase.Reporting?
  }

  /** A replacement's resolve comes after the report of the failure it resolves, and
      after every report its source will ever make of one. */
  ghost predicate InOrder(s: Site)
    requires s.Proper()
  {
    forall i: nat, r: nat :: i < |s.log| && Resolves(s.log[i], r) ==> OrderedAt(s, i, r)
  }

  ghost predicate OrderedAt(s: Site, i: nat, r: nat)
    requires s.Proper() && i < |s.log|
  {
    && Departed(s, r)
    && (s.board.made[r].fatal != "" ==> FailureIn(s.log[..i], r))
    && forall j :: i < j < |s.log| ==> !Fails(s.log[j], r)
  }

  lemma DepartedIsAtRest(s: Site, r: nat, g: nat)
    requires s.Proper() && AllSole(s.board) && r < |s.board.made| && Done(s.board, r)
    requires g < |s.board.goes| && s.board.goes[g].runner == r
    ensures s.board.goes[g].phase.Gone?
  {
    if !s.board.goes[g].phase.Gone? {
      AtWorkIsKnown(s.board, g);
    }
  }

  lemma MoveFatal(s: Site, g: nat, r: nat)
    requires s.Proper() && g < |s.board.goes| && r < |s.board.made|
    ensures Moved(s, g).board.made[r].fatal
            == match s.board.goes[g].phase
               case Breaking(why) => if s.board.goes[g].runner == r then why else s.board.made[r].fatal
               case _ => s.board.made[r].fatal
  {
  }

  lemma StartsBreakNobody(s: Site, l: Label, r: nat)
    requires s.Proper() && r < |s.board.made| && ((l.Begin? && !s.board.began) || Finishes(s, l))
    ensures r < |Next(s, l).board.made| && Next(s, l).board.made[r].fatal == s.board.made[r].fatal
  {
    if l.Begin? {
      StartingTouches(s.board.(began := true), s.board.running);
    } else {
      StartingTouches(s.board, s.replacing.started);
    }
  }

  lemma OthersBreakNobody(s: Site, l: Label, r: nat)
    requires s.Proper() && r < |s.board.made| && (l.Breaks? || l.Hears? || l.Looks? || l.Judges? || l.Tells?)
    ensures r < |Next(s, l).board.made| && Next(s, l).board.made[r].fatal == s.board.made[r].fatal
  {
  }

  lemma FatalStays(s: Site, l: Label, r: nat)
    requires s.Proper() && r < |s.board.made|
    requires l.Goes? && l.g < |s.board.goes| && s.board.goes[l.g].runner == r ==> !s.board.goes[l.g].phase.Breaking?
    ensures r < |Next(s, l).board.made| && Next(s, l).board.made[r].fatal == s.board.made[r].fatal
  {
    if (l.Begin? && !s.board.began) || Finishes(s, l) {
      StartsBreakNobody(s, l, r);
    } else {
      match l
      case Swap(_, _) => if Swaps(s, l) { SwapTouches(s.board, l.next, l.now); }
      case Goes(g) => if g < |s.board.goes| { MoveFatal(s, g, r); }
      case Onward => if s.replacing.Busy? { OnwardKeepsCrew(s); }
      case Begin =>
      case Over =>
      case Stops =>
      case RunReturns =>
      case CheckBegins(_) =>
      case _ => OthersBreakNobody(s, l, r);
    }
  }

  lemma StartsLetBe(s: Site, l: Label, k: nat)
    requires s.Proper() && k < |s.board.goes| && ((l.Begin? && !s.board.began) || Finishes(s, l))
    ensures k < |Next(s, l).board.goes| && Next(s, l).board.goes[k] == s.board.goes[k]
  {
    if l.Begin? {
      StartingTouches(s.board.(began := true), s.board.running);
    } else {
      StartingTouches(s.board, s.replacing.started);
    }
  }

  lemma OtherMovesLetBe(s: Site, g: nat, k: nat)
    requires s.Proper() && g < |s.board.goes| && k < |s.board.goes| && k != g
    ensures |Moved(s, g).board.goes| == |s.board.goes| && Moved(s, g).board.goes[k] == s.board.goes[k]
  {
    match s.board.goes[g].phase
    case Serving =>
    case Breaking(_) =>
    case Reporting(_) =>
    case Leaving =>
    case Left =>
    case Gone =>
  }

  lemma LooksLeaveGoes(s: Site, l: Label)
    requires s.Proper() && (l.Looks? || l.Judges? || l.Tells?)
    ensures Checked(s, l).board.goes == s.board.goes
  {
  }

  lemma FateLeavesGo(s: Site, l: Label, k: nat)
    requires s.Proper() && k < |s.board.goes| && (l.Breaks? || l.Hears?) && (l.Breaks? ==> l.g != k)
    ensures k < |Befallen(s, l).board.goes| && Befallen(s, l).board.goes[k] == s.board.goes[k]
  {
  }

  lemma EndingLeavesGoes(s: Site, l: Label)
    requires s.Proper() && (l.Over? || l.Stops? || l.RunReturns? || (l.Begin? && s.board.began))
    ensures Ran(s, l).board.goes == s.board.goes
  {
  }

  lemma SwapLeavesPhase(s: Site, l: Label, k: nat)
    requires s.Proper() && k < |s.board.goes| && l.Swap?
    ensures var t := SwapBegins(s, l.next, l.now);
            && k < |t.board.goes| && t.board.goes[k].runner == s.board.goes[k].runner
            && t.board.goes[k].phase == s.board.goes[k].phase
  {
    if Swaps(s, l) {
      SwapTouches(s.board, l.next, l.now);
    }
  }

  lemma GoesLetBe(s: Site, g: nat, k: nat)
    requires s.Proper() && k < |s.board.goes| && k != g
    ensures k < |Next(s, Goes(g)).board.goes| && Next(s, Goes(g)).board.goes[k] == s.board.goes[k]
  {
    if g < |s.board.goes| {
      assert Next(s, Goes(g)) == Moved(s, g);
      OtherMovesLetBe(s, g, k);
    }
  }

  /** A goroutine is where it was unless the step was its own. */
  lemma OthersLetBe(s: Site, l: Label, k: nat)
    requires s.Proper() && k < |s.board.goes| && (l.Goes? || l.Breaks? ==> l.g != k)
    ensures var t := Next(s, l);
            && k < |t.board.goes| && t.board.goes[k].runner == s.board.goes[k].runner
            && t.board.goes[k].phase == s.board.goes[k].phase
  {
    if (l.Begin? && !s.board.began) || Finishes(s, l) {
      StartsLetBe(s, l, k);
    } else {
      match l
      case Swap(_, _) => SwapLeavesPhase(s, l, k);
      case Goes(g) => GoesLetBe(s, g, k);
      case Onward => if s.replacing.Busy? { OnwardKeepsCrew(s); }
      case Looks(_) => LooksLeaveGoes(s, l);
      case Judges(_) => LooksLeaveGoes(s, l);
      case Tells => LooksLeaveGoes(s, l);
      case Breaks(_, _) => FateLeavesGo(s, l, k);
      case Hears(_, _) => FateLeavesGo(s, l, k);
      case CheckBegins(_) =>
      case _ => EndingLeavesGoes(s, l);
    }
  }

  /** A report that is due is made, or still due. */
  lemma ReportingStays(s: Site, l: Label, k: nat)
    requires s.Proper() && k < |s.board.goes| && s.board.goes[k].phase.Reporting?
    ensures var t, r := Next(s, l), s.board.goes[k].runner;
            && k < |t.board.goes| && t.board.goes[k].runner == r
            && (t.board.goes[k].phase.Reporting? || (|t.log| == |s.log| + 1 && Fails(t.log[|s.log|], r)))
  {
    if (l.Goes? || l.Breaks?) && l.g == k {
    } else {
      OthersLetBe(s, l, k);
    }
  }

  lemma LogPrefix(s: Site, l: Label)
    requires s.Proper()
    ensures s.log <= Next(s, l).log && |Next(s, l).log| <= |s.log| + 1
  {
    LogGrows(s, l);
  }

  lemma FailureStaysIn(log: seq<Event>, more: seq<Event>, r: nat)
    requires FailureIn(log, r) && log <= more
    ensures FailureIn(more, r)
  {
    var i :| 0 <= i < |log| && Fails(log[i], r);
    assert more[i] == log[i];
  }

  lemma OneFailureIsTold(s: Site, l: Label, r: nat)
    requires s.Proper() && FailuresTold(s) && r < |s.board.made| && r < |Next(s, l).board.made|
    requires Next(s, l).board.made[r].fatal != ""
    ensures var t := Next(s, l);
            FailureIn(t.log, r)
            || exists g :: 0 <= g < |t.board.goes| && t.board.goes[g].runner == r && t.board.goes[g].phase.Reporting?
  {
    var t := Next(s, l);
    LogPrefix(s, l);
    if l.Goes? && l.g < |s.board.goes| && s.board.goes[l.g].runner == r && s.board.goes[l.g].phase.Breaking? {
      assert t.board.goes[l.g].phase.Reporting? && t.board.goes[l.g].runner == r;
    } else {
      FatalStays(s, l, r);
      if FailureIn(s.log, r) {
        FailureStaysIn(s.log, t.log, r);
      } else {
        var g :| 0 <= g < |s.board.goes| && s.board.goes[g].runner == r && s.board.goes[g].phase.Reporting?;
        ReportingStays(s, l, g);
      }
    }
  }

  lemma NewOnesAreWhole(s: Site, l: Label, r: nat)
    requires s.Proper() && |s.board.made| <= r < |Next(s, l).board.made|
    ensures Next(s, l).board.made[r].fatal == ""
  {
    if l.Begin? && !s.board.began {
      StartingTouches(s.board.(began := true), s.board.running);
    } else if Swaps(s, l) {
      SwapTouches(s.board, l.next, l.now);
    } else if Finishes(s, l) {
      StartingTouches(s.board, s.replacing.started);
    } else {
      OtherStepsKeepCrew(s, l);
    }
  }

  lemma FailuresStayTold(s: Site, l: Label)
    requires s.Proper() && FailuresTold(s)
    ensures FailuresTold(Next(s, l))
  {
    var t := Next(s, l);
    forall r | 0 <= r < |t.board.made| && t.board.made[r].fatal != ""
      ensures FailureIn(t.log, r)
              || exists g :: 0 <= g < |t.board.goes| && t.board.goes[g].runner == r
                             && t.board.goes[g].phase.Reporting?
    {
      if r < |s.board.made| {
        OneFailureIsTold(s, l, r);
      } else {
        NewOnesAreWhole(s, l, r);
      }
    }
  }

  lemma DepartedFailsNoMore(s: Site, l: Label, r: nat)
    requires s.Proper() && AllSole(s.board) && Departed(s, r)
    ensures var t := Next(s, l);
            && Departed(t, r) && t.board.made[r].fatal == s.board.made[r].fatal
            && (|t.log| == |s.log| + 1 ==> !Fails(t.log[|s.log|], r))
  {
    var t := Next(s, l);
    LogPrefix(s, l);
    OutStays(s, l, r);
    if l.Goes? && l.g < |s.board.goes| && s.board.goes[l.g].runner == r {
      DepartedIsAtRest(s, r, l.g);
    }
    FatalStays(s, l, r);
    if |t.log| == |s.log| + 1 && Fails(t.log[|s.log|], r) {
      var e := t.log[|s.log|];
      assert t.log == s.log + [e];
      WhoTells(s, l, e.teller, e.name, e.raise, e.fits);
    }
  }

  lemma OldResolveStaysInOrder(s: Site, l: Label, i: nat, r: nat)
    requires s.Proper() && AllSole(s.board) && i < |s.log| && OrderedAt(s, i, r)
    ensures i < |Next(s, l).log| && OrderedAt(Next(s, l), i, r)
  {
    var t := Next(s, l);
    LogPrefix(s, l);
    DepartedFailsNoMore(s, l, r);
    assert t.log[..i] == s.log[..i];
    forall j | i < j < |t.log|
      ensures !Fails(t.log[j], r)
    {
      assert j < |s.log| ==> t.log[j] == s.log[j];
    }
  }

  lemma NewResolveIsInOrder(s: Site, l: Label, r: nat)
    requires s.Proper() && AllSole(s.board) && Waited(s) && FailuresTold(s)
    requires |Next(s, l).log| == |s.log| + 1 && Resolves(Next(s, l).log[|s.log|], r)
    ensures OrderedAt(Next(s, l), |s.log|, r)
  {
    var t := Next(s, l);
    LogPrefix(s, l);
    var e := t.log[|s.log|];
    assert t.log == s.log + [e];
    WhoTells(s, l, e.teller, e.name, e.raise, e.fits);
    assert Out(s, r) && Done(s.board, r);
    DepartedFailsNoMore(s, l, r);
    assert t.log[..|s.log|] == s.log;
    if t.board.made[r].fatal != "" && !FailureIn(s.log, r) {
      var g :| 0 <= g < |s.board.goes| && s.board.goes[g].runner == r && s.board.goes[g].phase.Reporting?;
      DepartedIsAtRest(s, r, g);
    }
  }

  lemma StaysInOrder(s: Site, l: Label)
    requires s.Proper() && AllSole(s.board) && Waited(s) && FailuresTold(s) && InOrder(s)
    ensures InOrder(Next(s, l))
  {
    var t := Next(s, l);
    LogPrefix(s, l);
    forall i: nat, r: nat | i < |t.log| && Resolves(t.log[i], r)
      ensures OrderedAt(t, i, r)
    {
      if i < |s.log| {
        assert t.log[i] == s.log[i];
        OldResolveStaysInOrder(s, l, i, r);
      } else {
        NewResolveIsInOrder(s, l, r);
      }
    }
  }

  lemma StaysSound(s: Site, ls: seq<Label>)
    requires s.Proper() && Sound(s) && ls != [] && !Overlapped(s, ls)
    ensures Sound(Next(s, ls[0])) && !Overlapped(Next(s, ls[0]), ls[1..])
  {
    StaysAllSole(s, ls);
    StaysWaited(s, ls[0]);
    StaysAttended(s, ls[0]);
    MarksStayKnown(s, ls[0]);
  }

  lemma {:induction false} RunsStaySound(s: Site, ls: seq<Label>)
    requires s.Proper() && Sound(s) && !Overlapped(s, ls)
    ensures Sound(Exec(s, ls))
    decreases ls
  {
    if ls != [] {
      StaysSound(s, ls);
      RunsStaySound(Next(s, ls[0]), ls[1..]);
    }
  }

  lemma {:induction false} RunsTellInOrder(s: Site, ls: seq<Label>)
    requires s.Proper() && Sound(s) && !Overlapped(s, ls) && FailuresTold(s) && InOrder(s)
    ensures FailuresTold(Exec(s, ls)) && InOrder(Exec(s, ls))
    decreases ls
  {
    if ls != [] {
      StaysSound(s, ls);
      FailuresStayTold(s, ls[0]);
      StaysInOrder(s, ls[0]);
      RunsTellInOrder(Next(s, ls[0]), ls[1..]);
    }
  }

  lemma FreshIsSound(s: Site)
    requires Fresh(s)
    ensures s.Proper() && Sound(s) && FailuresTold(s) && InOrder(s) && Settled(s) && Truthful(s)
  {
  }

  /** In every run without such an overlap: whenever a replacement resolves
      what a source left open, the report of that source's failure, if it had
      one, has been made, and it never makes another. */
  lemma FailuresAreReportedBeforeTheyAreResolved(s: Site, ls: seq<Label>, i: nat, r: nat)
    requires Fresh(s) && s.Proper() && !Overlapped(s, ls)
    requires i < |Exec(s, ls).log| && Resolves(Exec(s, ls).log[i], r)
    ensures var t := Exec(s, ls);
            && r < |t.board.made|
            && (t.board.made[r].fatal != "" ==> FailureIn(t.log[..i], r))
            && forall j :: i < j < |t.log| ==> !Fails(t.log[j], r)
  {
    FreshIsSound(s);
    RunsTellInOrder(s, ls);
    assert OrderedAt(Exec(s, ls), i, r);
  }

  // ---- Run returns ---------------------------------------------------------------------------

  /** Whoever is at work is live; and once Run has stopped it waits for whoever was. */
  ghost predicate LiveKnown(s: Site)
    requires s.Proper()
  {
    && (forall g :: 0 <= g < |s.board.goes| && !Ended(s.board.goes[g].phase) ==>
          && s.board.goes[g].runner in s.board.live
          && (s.ending.Some? ==> s.board.goes[g].runner in s.ending.value)
          && RunReturned !in s.log)
    && (s.board.stopped ==> s.board.began)
    && (s.ending.Some? || RunReturned in s.log ==> s.board.stopped)
  }

  lemma {:induction false} StartedAreLive(b: Board, rs: seq<nat>)
    requires b.Proper() && forall i :: 0 <= i < |rs| ==> rs[i] < |b.made|
    ensures b.live <= AllStarted(b, rs).live
    ensures forall r :: r in rs ==> r in AllStarted(b, rs).live
  {
    if rs != [] {
      StartedAreLive(b, rs[..|rs| - 1]);
    }
  }

  lemma StartsAreLive(s: Site, l: Label)
    requires s.Proper() && LiveKnown(s) && ((l.Begin? && !s.board.began) || Finishes(s, l))
    ensures LiveKnown(Next(s, l))
  {
    var b := if l.Begin? then s.board.(began := true) else s.board;
    var rs := if l.Begin? then s.board.running else s.replacing.started;
    StartingTouches(b, rs);
    StartedAreLive(b, rs);
    var t := Next(s, l);
    forall g | 0 <= g < |t.board.goes| && !Ended(t.board.goes[g].phase)
      ensures t.board.goes[g].runner in t.board.live
      ensures t.ending.Some? ==> t.board.goes[g].runner in t.ending.value
      ensures RunReturned !in t.log
    {
      assert g < |b.goes| ==> t.board.goes[g] == s.board.goes[g];
    }
  }

  lemma LeavingOnesOwn(s: Site, g: nat)
    requires s.Proper() && AllSole(s.board) && LiveKnown(s) && g < |s.board.goes|
    ensures LiveKnown(Moved(s, g))
  {
    var t := Moved(s, g);
    MoveKeepsCrew(s, g);
    forall k | 0 <= k < |t.board.goes| && !Ended(t.board.goes[k].phase)
      ensures t.board.goes[k].runner in t.board.live
    {
      assert !Ended(s.board.goes[k].phase);
      AtWorkIsKnown(s.board, k);
      if !s.board.goes[g].phase.Gone? {
        AtWorkIsKnown(s.board, g);
      }
    }
  }

  /** Whoever is not gone when Run returns would have been waited for. */
  lemma RunReturnsAlone(s: Site)
    requires s.Proper() && AllSole(s.board) && LiveKnown(s)
    ensures LiveKnown(Ran(s, RunReturns))
  {
    forall g | 0 <= g < |s.board.goes| && !Ended(s.board.goes[g].phase)
      ensures !Done(s.board, s.board.goes[g].runner)
    {
      AtWorkIsKnown(s.board, g);
    }
  }

  lemma SameGoesSameLive(s: Site, t: Site)
    requires s.Proper() && t.Proper() && LiveKnown(s) && |t.board.goes| == |s.board.goes|
    requires forall g :: 0 <= g < |s.board.goes| ==>
               && t.board.goes[g].runner == s.board.goes[g].runner
               && (Ended(s.board.goes[g].phase) ==> Ended(t.board.goes[g].phase))
    requires t.board.live == s.board.live && t.board.stopped == s.board.stopped && t.board.began == s.board.began
    requires t.ending == s.ending && (RunReturned in t.log ==> RunReturned in s.log)
    ensures LiveKnown(t)
  {
    forall g | 0 <= g < |t.board.goes| && !Ended(t.board.goes[g].phase)
      ensures t.board.goes[g].runner in t.board.live
      ensures t.ending.Some? ==> t.board.goes[g].runner in t.ending.value
      ensures RunReturned !in t.log
    {
      assert !Ended(s.board.goes[g].phase);
    }
  }

  lemma LooksKnowTheLive(s: Site, l: Label)
    requires s.Proper() && LiveKnown(s) && (l.Looks? || l.Judges? || l.Tells?)
    ensures LiveKnown(Checked(s, l))
  {
    SameGoesSameLive(s, Checked(s, l));
  }

  lemma FateKnowsTheLive(s: Site, l: Label)
    requires s.Proper() && LiveKnown(s) && (l.Breaks? || l.Hears?)
    ensures LiveKnown(Befallen(s, l))
  {
    SameGoesSameLive(s, Befallen(s, l));
  }

  lemma SwapKnowsTheLive(s: Site, l: Label)
    requires s.Proper() && LiveKnown(s) && Swaps(s, l)
    ensures LiveKnown(Next(s, l))
  {
    SwapTouches(s.board, l.next, l.now);
    SameGoesSameLive(s, Next(s, l));
  }

  lemma OnwardKnowsTheLive(s: Site)
    requires s.Proper() && LiveKnown(s) && s.replacing.Busy? && !Finishes(s, Onward)
    ensures LiveKnown(Replaced(s))
  {
    OnwardKeepsCrew(s);
    SameGoesSameLive(s, Replaced(s));
  }

  lemma LiveStaysKnown(s: Site, l: Label)
    requires s.Proper() && AllSole(s.board) && LiveKnown(s)
    ensures LiveKnown(Next(s, l))
  {
    if (l.Begin? && !s.board.began) || Finishes(s, l) {
      StartsAreLive(s, l);
    } else {
      match l
      case Swap(_, _) => if Swaps(s, l) { SwapKnowsTheLive(s, l); }
      case Goes(g) => if g < |s.board.goes| { LeavingOnesOwn(s, g); }
      case RunReturns => RunReturnsAlone(s);
      case Onward => if s.replacing.Busy? { OnwardKnowsTheLive(s); }
      case Looks(_) => LooksKnowTheLive(s, l);
      case Judges(_) => LooksKnowTheLive(s, l);
      case Tells => LooksKnowTheLive(s, l);
      case Breaks(_, _) => FateKnowsTheLive(s, l);
      case Hears(_, _) => FateKnowsTheLive(s, l);
      case _ =>
    }
  }

  lemma {:induction false} RunsKnowTheLive(s: Site, ls: seq<Label>)
    requires s.Proper() && Sound(s) && !Overlapped(s, ls) && LiveKnown(s)
    ensures LiveKnown(Exec(s, ls))
    decreases ls
  {
    if ls != [] {
      StaysSound(s, ls);
      LiveStaysKnown(s, ls[0]);
      RunsKnowTheLive(Next(s, ls[0]), ls[1..]);
    }
  }

  /** Once Run has returned nothing serves, and nothing ever will: every goroutine
      there is has left, those of sources a replacement dropped at the last
      moment too, and none is started any more. */
  lemma RunReturnsWhenAllHaveLeft(s: Site, ls: seq<Label>, g: nat)
    requires Fresh(s) && s.Proper() && !Overlapped(s, ls)
    requires RunReturned in Exec(s, ls).log && g < |Exec(s, ls).board.goes|
    ensures Ended(Exec(s, ls).board.goes[g].phase)
  {
    FreshIsSound(s);
    RunsKnowTheLive(s, ls);
  }
}
