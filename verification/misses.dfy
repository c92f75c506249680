/** Exactly when a report of the supervisor does not say what is so: what its teller
    would have had to look at again. */
module Misses {
  import opened Base
  import opened Supervision
  import opened Supervising
  import opened Truthfulness
  import opened Departures
  import opened Channels
  import opened Tellings

  /** Another source of this name, running or dropped and not dealt with yet, is
      faulted. */
  ghost predicate NamesakeFaulty(s: Site, r: nat, name: string)
    requires s.Proper()
  {
    exists k: nat :: k != r && FaultOf(s, k, name)
  }

  lemma FaultyIsOneOfThem(s: Site, r: nat, name: string)
    requires s.Proper()
    ensures Faulty(s, name) <==> FaultOf(s, r, name) || NamesakeFaulty(s, r, name)
  {
    if k: nat :| FaultOf(s, k, name) {
      assert k != r ==> NamesakeFaulty(s, r, name);
    }
  }

  // ---- A report says what is so as it lands --------------------------------------------------

  lemma FailureSays(s: Site, g: nat)
    requires s.Proper() && g < |s.board.goes| && s.board.goes[g].phase.Reporting?
    ensures var r := s.board.goes[g].runner;
            var name := s.board.made[r].src.name;
            Says(s, Moved(s, g), Failure(r, s.board.goes[g].phase.why), name, true, Faulty(s, name))
  {
    var u := s.(board := Phased(s.board, g, Leaving));
    var name := s.board.made[s.board.goes[g].runner].src.name;
    assert forall k :: FaultOf(s, k, name) <==> FaultOf(u, k, name);
  }

  lemma DeadmanSays(s: Site)
    requires s.Proper() && s.check.Telling?
    ensures var name := s.board.made[s.check.left[0]].src.name;
            Says(s, Checked(s, Label.Tells), Deadman(s.check.left[0]), name, s.check.raise,
                  s.check.raise == Faulty(s, name))
  {
    var u := s.(check := Looking(s.check.now, s.check.left[1..]));
    SameFaulty(s, u, s.board.made[s.check.left[0]].src.name);
  }

  lemma ReplacementSays(s: Site)
    requires s.Proper() && s.replacing.Busy? && s.replacing.stage.Resolve?
    ensures var r := s.replacing.removed[s.replacing.n];
            var name := s.board.made[r].src.name;
            Says(s, Replaced(s), Replacing(r), name, false, !Faulty(s, name))
  {
    var u := s.(replacing := s.replacing.(n := s.replacing.n + 1, stage := Look));
    SameFaulty(s, u, s.board.made[s.replacing.removed[s.replacing.n]].src.name);
  }

  lemma ReportSaysWhatIsSo(s: Site, l: Label, teller: Teller, name: string, raise: bool, fits: bool)
    requires s.Proper() && Says(s, Next(s, l), teller, name, raise, fits)
    ensures teller.r < |s.board.made| && name == s.board.made[teller.r].src.name
    ensures fits == (raise == Faulty(s, name))
  {
    WhoTells(s, l, teller, name, raise, fits);
    var n := |s.log|;
    assert Next(s, l).log[n] == Report(teller, name, raise, fits);
    match teller
    case Failure(_, _) => FailureSays(s, l.g);
    case Deadman(_) => DeadmanSays(s);
    case Replacing(_) => ReplacementSays(s);
  }

  // ---- Exactly when it is not ------------------------------------------------------------------

  /** What makes a report miss, told by the state in which it lands. */
  ghost predicate MissesFor(s: Site, teller: Teller, name: string, raise: bool)
    requires s.Proper() && teller.r < |s.board.made|
  {
    match teller
    case Failure(r, why) => why == "" && !s.board.made[r].silent && !NamesakeFaulty(s, r, name)
    case Deadman(r) =>
      if raise then !Counts(s, r) && !NamesakeFaulty(s, r, name)
      else (Counts(s, r) && s.board.made[r].fatal != "") || NamesakeFaulty(s, r, name)
    case Replacing(r) => (Counts(s, r) && s.board.made[r].Faulted()) || NamesakeFaulty(s, r, name)
  }

  /** Exactly when a report misses, of every teller. A failure's raise: it had
      nothing to say, of a source that is not silent. The deadman's raise: its
      source was dropped and dealt with meanwhile. The deadman's resolve: its source
      has been recorded as unable to run meanwhile, or a namesake is faulted. A
      replacement's resolve: a namesake is faulted. */
  lemma AReportMissesExactlyWhen(s: Site, l: Label, teller: Teller, name: string, raise: bool, fits: bool)
    requires s.Proper() && Sound(s) && Says(s, Next(s, l), teller, name, raise, fits)
    ensures teller.r < |s.board.made|
    ensures !fits <==> MissesFor(s, teller, name, raise)
  {
    ReportSaysWhatIsSo(s, l, teller, name, raise, fits);
    WhoTells(s, l, teller, name, raise, fits);
    FaultyIsOneOfThem(s, teller.r, name);
    match teller
    case Failure(r, why) =>
      assert Attended(s, r) && Marked(s.board, l.g);
      AttendedCounts(s, r);
    case Deadman(r) =>
    case Replacing(r) =>
  }

  // ---- Between a replacement's test and its resolve ----------------------------------------------

  /** While a replacement is under way and takes no step, the running sources and what
      it has before it stay as they are. */
  predicate StandsStill(s: Site, t: Site) {
    && t.replacing == s.replacing && t.board.running == s.board.running && |t.board.made| == |s.board.made|
    && forall r :: 0 <= r < |s.board.made| ==> t.board.made[r].src == s.board.made[r].src
  }

  lemma BeginStandsStill(s: Site)
    requires s.Proper()
    ensures StandsStill(s, Ran(s, Begin))
  {
    StartingTouches(s.board.(began := true), s.board.running);
  }

  lemma MovesStandStill(s: Site, g: nat)
    requires s.Proper() && g < |s.board.goes|
    ensures StandsStill(s, Moved(s, g))
  {
    match s.board.goes[g].phase
    case Serving =>
    case Breaking(_) =>
    case Reporting(_) =>
    case Leaving =>
    case Left =>
    case Gone =>
  }

  lemma OthersStandStill(s: Site, l: Label)
    requires s.Proper() && s.replacing.Busy? && !l.Onward?
    ensures StandsStill(s, Next(s, l))
  {
    match l
    case Begin => BeginStandsStill(s);
    case Goes(g) => if g < |s.board.goes| { MovesStandStill(s, g); }
    case _ =>
  }

  lemma {:induction false} RunsStandStill(s: Site, ls: seq<Label>)
    requires s.Proper() && s.replacing.Busy? && forall i :: 0 <= i < |ls| ==> !ls[i].Onward?
    ensures StandsStill(s, Exec(s, ls))
    decreases ls
  {
    if ls != [] && !s.board.crashed {
      OthersStandStill(s, ls[0]);
      RunsStandStill(Next(s, ls[0]), ls[1..]);
    }
  }

  /** A running namesake of r that had no fault at u has one at t. */
  ghost predicate FellMeanwhile(u: Site, t: Site, name: string)
    requires u.Proper() && t.Proper() && StandsStill(u, t)
  {
    exists k :: k in u.board.running && k < |u.board.made| && u.board.made[k].src.name == name
                && !u.board.made[k].Faulted() && t.board.made[k].Faulted()
  }

  /** One that the same replacement dropped, and has still to deal with, has one. */
  ghost predicate AnotherDropped(t: Site, name: string)
    requires t.Proper() && t.replacing.Busy? && t.replacing.n < |t.replacing.removed|
  {
    exists k :: k in t.replacing.removed[t.replacing.n + 1..] && k < |t.board.made|
                && t.board.made[k].src.name == name && t.board.made[k].Faulted()
  }

  lemma FaultyAtTheResolve(u: Site, t: Site, name: string)
    requires u.Proper() && t.Proper() && StandsStill(u, t) && t.replacing.Busy? && t.replacing.stage.Resolve?
    requires !WatchedAndFaulted(u.board, name)
    ensures Faulty(t, name) <==> FellMeanwhile(u, t, name) || AnotherDropped(t, name)
  {
    if k: nat :| FaultOf(t, k, name) {
      if k in t.board.running {
        var i :| 0 <= i < |u.board.running| && u.board.running[i] == k;
        assert !u.board.made[u.board.running[i]].Faulted();
      }
    }
    if k :| k in u.board.running && k < |u.board.made| && u.board.made[k].src.name == name
            && !u.board.made[k].Faulted() && t.board.made[k].Faulted() {
      assert FaultOf(t, k, name);
    }
    if k :| k in t.replacing.removed[t.replacing.n + 1..] && k < |t.board.made|
            && t.board.made[k].src.name == name && t.board.made[k].Faulted() {
      assert FaultOf(t, k, name);
    }
  }

  /** The replacement's test finds nobody who reports under that name. */
  predicate FindsNobody(u: Site)
    requires u.Proper()
  {
    && u.replacing.Busy? && u.replacing.stage.Test?
    && !WatchedAndFaulted(u.board, u.board.made[u.replacing.removed[u.replacing.n]].src.name)
  }

  function Tested(u: Site): (t: Site)
    requires u.Proper() && FindsNobody(u)
    ensures t.Proper()
  {
    u.(replacing := u.replacing.(stage := Resolve))
  }

  lemma FindingNobodyGoesOn(u: Site)
    requires u.Proper() && FindsNobody(u)
    ensures Next(u, Onward) == Tested(u)
  {
  }

  lemma TheResolveSays(u: Site, t: Site)
    requires u.Proper() && FindsNobody(u) && t.Proper() && StandsStill(Tested(u), t)
    ensures var r := u.replacing.removed[u.replacing.n];
            var name := u.board.made[r].src.name;
            Says(t, Next(t, Onward), Replacing(r), name, false,
                 !FellMeanwhile(Tested(u), t, name) && !AnotherDropped(t, name))
  {
    FaultyAtTheResolve(Tested(u), t, u.board.made[u.replacing.removed[u.replacing.n]].src.name);
    ReplacementSays(t);
    assert Next(t, Onward) == Replaced(t);
  }

  /** Exactly when a replacement's resolve misses, whatever happens between its test,
      which found nobody, and its landing: if a running namesake has become faulted
      since the test, or if another that it dropped and has still to deal with is. */
  lemma AResolveMissesExactlyWhen(u: Site, ls: seq<Label>)
    requires u.Proper() && FindsNobody(u) && forall i :: 0 <= i < |ls| ==> !ls[i].Onward?
    ensures var r := u.replacing.removed[u.replacing.n];
            var name := u.board.made[r].src.name;
            var t := Exec(Tested(u), ls);
            && Next(u, Onward) == Tested(u) && StandsStill(Tested(u), t)
            && Says(t, Next(t, Onward), Replacing(r), name, false,
                    !FellMeanwhile(Tested(u), t, name) && !AnotherDropped(t, name))
  {
    FindingNobodyGoesOn(u);
    RunsStandStill(Tested(u), ls);
    TheResolveSays(u, Exec(Tested(u), ls));
  }

  // ---- A source that cannot run is not looked at again ---------------------------------------

  /** It has been recorded as unable to run, no goroutine of it serves or is about
      to fail, none will be started, and the deadman is not between its turns on it. */
  predicate CannotRun(s: Site, r: nat)
    requires s.Proper()
  {
    && r < |s.board.made| && s.board.made[r].fatal != "" && s.board.began
    && (s.replacing.Busy? ==> r !in s.replacing.started)
    && (forall g: nat :: g < |s.board.goes| && s.board.goes[g].runner == r ==> Spent(s.board.goes[g].phase))
    && (s.check.Looked? || s.check.Telling? ==> s.check.left[0] != r)
  }

  predicate Spent(phase: Phase) {
    !phase.Serving? && !phase.Breaking?
  }

  predicate DeadmanOn(e: Event, r: nat) {
    e.Report? && e.teller == Deadman(r)
  }

  lemma NoneIsStarted(s: Site, l: Label, r: nat)
    requires s.Proper() && StartsKnown(s) && CannotRun(s, r)
    ensures Next(s, l).board.began && (Next(s, l).replacing.Busy? ==> r !in Next(s, l).replacing.started)
  {
    if Swaps(s, l) {
      SwapTouches(s.board, l.next, l.now);
    } else if Finishes(s, l) {
      FinishBoard(s);
      StartingTouches(s.board, s.replacing.started);
    } else {
      OtherStepsKeepCrew(s, l);
    }
  }

  lemma FinishRunsOthers(s: Site, r: nat, g: nat)
    requires s.Proper() && StartsKnown(s) && CannotRun(s, r) && Finishes(s, Onward)
    requires |s.board.goes| <= g < |Next(s, Onward).board.goes|
    ensures Next(s, Onward).board.goes[g].runner != r
  {
    WhatIsToStart(s);
    FinishBoard(s);
    StartsInOrder(s.board, s.replacing.started);
    assert s.replacing.started[g - |s.board.goes|] in s.replacing.started;
  }

  lemma NewOnesRunOthers(s: Site, l: Label, r: nat, g: nat)
    requires s.Proper() && StartsKnown(s) && CannotRun(s, r)
    requires |s.board.goes| <= g < |Next(s, l).board.goes|
    ensures Next(s, l).board.goes[g].runner != r
  {
    if Swaps(s, l) {
      SwapTouches(s.board, l.next, l.now);
    } else if Finishes(s, l) {
      FinishRunsOthers(s, r, g);
    } else {
      OtherStepsKeepCrew(s, l);
    }
  }

  lemma PhasedGo(b: Board, g: nat, phase: Phase)
    requires b.Proper() && g < |b.goes| && !b.goes[g].phase.Gone? && !phase.Gone?
    ensures g < |Phased(b, g, phase).goes| && Phased(b, g, phase).goes[g] == b.goes[g].(phase := phase)
  {
  }

  lemma ClosingGo(b: Board, g: nat)
    requires b.Proper() && g < |b.goes| && b.goes[g].phase.Left?
    ensures var t := Closing(b, g);
            g < |t.goes| && t.goes[g].runner == b.goes[g].runner && Spent(t.goes[g].phase)
  {
  }

  lemma OwnMove(s: Site, g: nat)
    requires s.Proper() && g < |s.board.goes|
    ensures var t := Moved(s, g);
            && g < |t.board.goes| && t.board.goes[g].runner == s.board.goes[g].runner
            && (Spent(s.board.goes[g].phase) ==> Spent(t.board.goes[g].phase))
  {
    var b, r := s.board, s.board.goes[g].runner;
    match b.goes[g].phase
    case Serving => PhasedGo(b, g, Leaving);
    case Breaking(why) => PhasedGo(b.(made := b.made[r := b.made[r].(fatal := why)]), g, Reporting(why));
    case Reporting(_) => PhasedGo(b, g, Leaving);
    case Leaving => PhasedGo(b.(live := b.live - {r}), g, Left);
    case Left => ClosingGo(b, g);
    case Gone =>
  }

  lemma OwnBreak(s: Site, g: nat, why: string)
    requires s.Proper() && g < |s.board.goes|
    ensures var t := Befallen(s, Breaks(g, why));
            && g < |t.board.goes| && t.board.goes[g].runner == s.board.goes[g].runner
            && (Spent(s.board.goes[g].phase) ==> Spent(t.board.goes[g].phase))
  {
  }

  lemma SpentStaysSpent(s: Site, l: Label, g: nat)
    requires s.Proper() && g < |s.board.goes|
    ensures var t := Next(s, l);
            && g < |t.board.goes| && t.board.goes[g].runner == s.board.goes[g].runner
            && (Spent(s.board.goes[g].phase) ==> Spent(t.board.goes[g].phase))
  {
    if l.Goes? && l.g == g {
      OwnMove(s, g);
      assert Next(s, l) == Moved(s, g);
    } else if l.Breaks? && l.g == g {
      OwnBreak(s, g, l.why);
      assert Next(s, l) == Befallen(s, l);
    } else {
      OthersLetBe(s, l, g);
    }
  }

  lemma NoDeadmanOn(s: Site, l: Label, r: nat)
    requires s.Proper() && CannotRun(s, r)
    ensures var t := Next(s, l);
            && s.log <= t.log
            && (t.check.Looked? || t.check.Telling? ==> t.check.left[0] != r)
            && forall i :: |s.log| <= i < |t.log| ==> !DeadmanOn(t.log[i], r)
  {
    LogGrows(s, l);
  }

  lemma StaysUnable(s: Site, l: Label, r: nat)
    requires s.Proper() && StartsKnown(s) && CannotRun(s, r)
    ensures StartsKnown(Next(s, l)) && CannotRun(Next(s, l), r)
  {
    var t := Next(s, l);
    StartsStayKnown(s, l);
    FatalStays(s, l, r);
    NoneIsStarted(s, l, r);
    NoDeadmanOn(s, l, r);
    forall g: nat | g < |t.board.goes| && t.board.goes[g].runner == r
      ensures Spent(t.board.goes[g].phase)
    {
      if g < |s.board.goes| {
        SpentStaysSpent(s, l, g);
      } else {
        NewOnesRunOthers(s, l, r, g);
      }
    }
  }

  /** Once a source has been recorded as unable to run and the deadman has been past
      it, the deadman makes no report about it again, raise or resolve, in any run. */
  lemma {:induction false} AFailedSourceIsPassedOver(s: Site, ls: seq<Label>, r: nat)
    requires s.Proper() && StartsKnown(s) && CannotRun(s, r)
    ensures var t := Exec(s, ls);
            && CannotRun(t, r) && s.log <= t.log
            && forall i :: |s.log| <= i < |t.log| ==> !DeadmanOn(t.log[i], r)
    decreases ls
  {
    if ls != [] && !s.board.crashed {
      StaysUnable(s, ls[0], r);
      NoDeadmanOn(s, ls[0], r);
      AFailedSourceIsPassedOver(Next(s, ls[0]), ls[1..], r);
    }
  }

  // ---- One whole look ----------------------------------------------------------------------

  /** The deadman's whole look at the next source on its list, with nobody in between:
      it is passed over if it opted out or is known to be unable to run; else its flag
      says whether it has been silent for longer than its window, and its incident is
      opened or closed, and that reported, exactly when the flag changed. */
  lemma AWholeLook(s: Site, window: Duration, contact: Option<Time>)
    requires s.Proper() && s.check.Looking? && s.check.left != []
    ensures var r, now := s.check.left[0], s.check.now;
            var runner, name := s.board.made[r], s.board.made[r].src.name;
            var silent := SilentSince(runner, now, window, contact);
            var t := LookedAt(s, window, contact);
            && t.check == Looking(now, s.check.left[1..]) && t.replacing == s.replacing && t.ending == s.ending
            && if window <= 0 || runner.fatal != "" then t == s.(check := t.check)
               else
                 && t.board == s.board.(made := s.board.made[r := runner.(silent := silent)])
                 && (silent == runner.silent ==> t.open == s.open && t.log == s.log)
                 && (silent && !runner.silent ==>
                       t.open == s.open + {name} && |t.log| == |s.log| + 1 && s.log <= t.log
                       && t.log[|s.log|].Report? && t.log[|s.log|].teller == Deadman(r) && t.log[|s.log|].raise)
                 && (!silent && runner.silent ==>
                       t.open == s.open - {name} && |t.log| == |s.log| + 1 && s.log <= t.log
                       && t.log[|s.log|].Report? && t.log[|s.log|].teller == Deadman(r) && !t.log[|s.log|].raise)
  {
    if window <= 0 || s.board.made[s.check.left[0]].fatal != "" {
      ItIsPassedOver(s, window, contact);
    } else {
      ItIsJudged(s, window, contact);
    }
  }

  lemma ItIsPassedOver(s: Site, window: Duration, contact: Option<Time>)
    requires s.Proper() && s.check.Looking? && s.check.left != []
    requires window <= 0 || s.board.made[s.check.left[0]].fatal != ""
    ensures LookedAt(s, window, contact) == s.(check := Looking(s.check.now, s.check.left[1..]))
  {
    assert Next(s, Looks(window)) == s.(check := Looking(s.check.now, s.check.left[1..]));
  }

  predicate SilentSince(runner: Runner, now: Time, window: Duration, contact: Option<Time>) {
    now - runner.lastEventAt > window && (contact.Some? ==> now - contact.value > window)
  }

  lemma ItIsJudged(s: Site, window: Duration, contact: Option<Time>)
    requires s.Proper() && s.check.Looking? && s.check.left != []
    requires window > 0 && s.board.made[s.check.left[0]].fatal == ""
    ensures var r, now := s.check.left[0], s.check.now;
            var silent := SilentSince(s.board.made[r], now, window, contact);
            Next(Next(s, Looks(window)), Judges(contact))
            == s.(board := s.board.(made := s.board.made[r := s.board.made[r].(silent := silent)]),
                  check := if silent == s.board.made[r].silent then Looking(now, s.check.left[1..])
                           else Telling(now, s.check.left, silent))
  {
    SilentExactlyWhen(s.board, s.check.left[0], s.check.now, window, s.board.made[s.check.left[0]].lastEventAt,
                      contact);
    assert Next(s, Looks(window))
        == s.(check := Looked(s.check.now, s.check.left, window, s.board.made[s.check.left[0]].lastEventAt));
  }

  ghost function LookedAt(s: Site, window: Duration, contact: Option<Time>): (t: Site)
    requires s.Proper()
    ensures t.Proper()
  {
    Next(Next(Next(s, Looks(window)), Judges(contact)), Label.Tells)
  }
}
