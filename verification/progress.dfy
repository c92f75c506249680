/** What each party at the supervisor comes to when the others leave it alone: a
    goroutine that is told to stop goes, one whose run breaks says so, a replacement
    returns, and Run ends. */
module Progress {
  import opened Base
  import opened Supervision
  import opened Supervising
  import opened Truthfulness
  import opened Departures
  import opened Channels
  import opened Lapses

  // ---- Goroutines -----------------------------------------------------------------------

  /** A goroutine at work whose record holds its channel, not closed yet. */
  predicate HoldsOpen(b: Board, g: nat)
    requires b.Proper()
  {
    g < |b.goes| && b.made[b.goes[g].runner].go == Some(g) && g !in b.closed && !b.crashed
  }

  /** It is gone, its channel is closed, and nothing came down. */
  predicate IsGone(b: Board, g: nat) {
    g < |b.goes| && b.goes[g].phase.Gone? && g in b.closed && !b.crashed
  }

  /** A goroutine off the list closes its channel and is gone. */
  lemma ItCloses(s: Site, g: nat)
    requires s.Proper() && HoldsOpen(s.board, g) && s.board.goes[g].phase.Left?
    ensures var t := Next(s, Goes(g));
            IsGone(t.board, g) && t.board.made == s.board.made && t.board.live == s.board.live
            && t == s.(board := t.board)
  {
  }

  /** From its way out it needs two steps. */
  lemma ItLeaves(s: Site, g: nat)
    requires s.Proper() && HoldsOpen(s.board, g) && s.board.goes[g].phase.Leaving?
    ensures var t := Exec(s, [Goes(g), Goes(g)]);
            IsGone(t.board, g) && t.board.made == s.board.made && s.board.goes[g].runner !in t.board.live
            && t == s.(board := t.board)
  {
    var s1 := Next(s, Goes(g));
    ItCloses(s1, g);
    assert Exec(s, [Goes(g), Goes(g)]) == Exec(s1, [Goes(g)]) == Exec(Next(s1, Goes(g)), []);
  }

  /** A serving goroutine that is told to stop, itself or with everybody, closes its
      channel in three steps of its own and is gone; one that is not serves on. */
  lemma LeavesExactlyWhenTold(s: Site, g: nat)
    requires s.Proper() && HoldsOpen(s.board, g) && s.board.goes[g].phase.Serving?
    ensures var t := Exec(s, [Goes(g), Goes(g), Goes(g)]);
            if s.board.goes[g].told || s.board.over then
              && IsGone(t.board, g) && t.board.made == s.board.made && s.board.goes[g].runner !in t.board.live
              && t == s.(board := t.board)
            else t == s
  {
    var ls := [Goes(g), Goes(g), Goes(g)];
    var s1 := Next(s, Goes(g));
    assert ls[1..] == [Goes(g), Goes(g)];
    if s.board.goes[g].told || s.board.over {
      ItLeaves(s1, g);
    } else {
      assert s1 == s;
      assert Exec(s, [Goes(g), Goes(g)]) == Exec(s, [Goes(g)]) == Exec(s, []);
    }
  }

  /** Only a source that was not told to stop can break. */
  lemma BreaksExactlyWhenNotTold(s: Site, g: nat, why: string)
    requires s.Proper() && HoldsOpen(s.board, g) && s.board.goes[g].phase.Serving?
    ensures Next(s, Breaks(g, why)) == s <==> s.board.goes[g].told || s.board.over
  {
    assert !s.board.goes[g].told && !s.board.over ==> Next(s, Breaks(g, why)).board.goes[g].phase == Breaking(why);
  }

  /** Its run breaks while nobody told it to stop: it records why. */
  lemma ItRecordsWhy(s: Site, g: nat, why: string)
    requires s.Proper() && HoldsOpen(s.board, g) && s.board.goes[g].phase.Serving?
    requires !s.board.goes[g].told && !s.board.over
    ensures var r := s.board.goes[g].runner;
            var t := Exec(s, [Breaks(g, why), Goes(g)]);
            HoldsOpen(t.board, g) && t.board.goes[g].phase == Reporting(why) && t.board.goes[g].runner == r
            && t.board.made == s.board.made[r := s.board.made[r].(fatal := why)]
            && t.board.running == s.board.running && t == s.(board := t.board)
  {
    var s1 := Next(s, Breaks(g, why));
    assert s1.board == Phased(s.board, g, Breaking(why));
    var s2 := Next(s1, Goes(g));
    assert [Breaks(g, why), Goes(g)][1..] == [Goes(g)];
    assert Exec(s1, [Goes(g)]) == Exec(s2, []) == s2;
  }

  /** From the one to the other this failure has been reported, once, and nothing else. */
  ghost predicate SaidOnce(s: Site, t: Site, r: nat, name: string, why: string, so: bool) {
    && t.open == s.open + {name}
    && exists fits :: t.log == s.log + [Report(Failure(r, why), name, true, fits)] && (so ==> fits)
  }

  /** What it recorded it reports, under its source's name, and it is on its way out. */
  lemma ItReportsWhy(s: Site, g: nat, why: string)
    requires s.Proper() && HoldsOpen(s.board, g) && s.board.goes[g].phase == Reporting(why)
    ensures var r := s.board.goes[g].runner;
            var name := s.board.made[r].src.name;
            var t := Next(s, Goes(g));
            && HoldsOpen(t.board, g) && t.board.goes[g].phase.Leaving? && t.board.made == s.board.made
            && t.board.goes[g].runner == r && SaidOnce(s, t, r, name, why, FaultOf(s, r, name))
  {
    var r := s.board.goes[g].runner;
    var name := s.board.made[r].src.name;
    var u := Boarded(s, Phased(s.board, g, Leaving));
    assert FaultOf(s, r, name) ==> FaultOf(u, r, name);
    assert Next(s, Goes(g)) == Reported(u, Failure(r, why), name, true);
  }

  /** Having reported it, it goes. */
  lemma ItReportsAndGoes(s: Site, g: nat, why: string)
    requires s.Proper() && HoldsOpen(s.board, g) && s.board.goes[g].phase == Reporting(why)
    ensures var r := s.board.goes[g].runner;
            var name := s.board.made[r].src.name;
            var t := Exec(s, [Goes(g), Goes(g), Goes(g)]);
            IsGone(t.board, g) && t.board.made == s.board.made && SaidOnce(s, t, r, name, why, FaultOf(s, r, name))
  {
    var ls := [Goes(g), Goes(g), Goes(g)];
    assert ls[1..] == [Goes(g), Goes(g)];
    ItReportsWhy(s, g, why);
    ItLeaves(Next(s, Goes(g)), g);
  }

  lemma ItIsSoThatItBroke(s: Site, u: Site, r: nat, why: string)
    requires s.Proper() && u.Proper() && u.replacing == s.replacing && u.board.running == s.board.running
    requires Counts(s, r) && why != ""
    requires u.board.made == s.board.made[r := s.board.made[r].(fatal := why)]
    ensures FaultOf(u, r, s.board.made[r].src.name)
  {
    assert Unsettled(u) == Unsettled(s);
  }

  /** A source whose run breaks while it was not told to stop is reported under its name,
      once, and its goroutine is gone; and what it reports says what is so if the source
      counts and why says anything. */
  lemma AFailureIsReported(s: Site, g: nat, why: string)
    requires s.Proper() && HoldsOpen(s.board, g) && s.board.goes[g].phase.Serving?
    requires !s.board.goes[g].told && !s.board.over
    ensures var r := s.board.goes[g].runner;
            var t := Exec(Exec(s, [Breaks(g, why), Goes(g)]), [Goes(g), Goes(g), Goes(g)]);
            && IsGone(t.board, g) && t.board.made == s.board.made[r := s.board.made[r].(fatal := why)]
            && SaidOnce(s, t, r, s.board.made[r].src.name, why, Counts(s, r) && why != "")
  {
    var r := s.board.goes[g].runner;
    ItRecordsWhy(s, g, why);
    var u := Exec(s, [Breaks(g, why), Goes(g)]);
    if Counts(s, r) && why != "" {
      ItIsSoThatItBroke(s, u, r, why);
    }
    ItReportsAndGoes(u, g, why);
  }

  // ---- A replacement ----------------------------------------------------------------------

  /** The replacement takes its next step and nobody else any. */
  ghost function Turn(s: Site): Site {
    if s.Proper() && !s.board.crashed then Next(s, Onward) else s
  }

  ghost function Times<T>(f: T -> T, x: T, n: nat): T {
    if n == 0 then x else Times(f, f(x), n - 1)
  }

  lemma {:induction false} TimesAddUp<T>(f: T -> T, x: T, j: nat, k: nat)
    ensures Times(f, x, j + k) == Times(f, Times(f, x, j), k)
    decreases j
  {
    if j > 0 {
      TimesAddUp(f, f(x), j - 1, k);
    }
  }

  /** From here the replacement comes there by itself. */
  ghost predicate ByItself(s: Site, t: Site) {
    exists k: nat :: Times(Turn, s, k) == t
  }

  lemma OneStepByItself(s: Site)
    requires s.Proper() && !s.board.crashed
    ensures ByItself(s, Next(s, Onward))
  {
    assert Times(Turn, s, 1) == Times(Turn, Turn(s), 0);
  }

  lemma FurtherByItself(s: Site, t: Site, u: Site)
    requires ByItself(s, t) && ByItself(t, u)
    ensures ByItself(s, u)
  {
    var j: nat :| Times(Turn, s, j) == t;
    var k: nat :| Times(Turn, t, k) == u;
    TimesAddUp(Turn, s, j, k);
    assert Times(Turn, s, j + k) == u;
  }

  /** One that is still to be looked at left a fault under this name, and no source
      that is running does. */
  predicate LeftBehind(b: Board, removed: seq<nat>, n: nat, name: string)
    requires b.Proper() && forall i :: 0 <= i < |removed| ==> removed[i] < |b.made|
  {
    && !WatchedAndFaulted(b, name)
    && exists i :: n <= i < |removed| && b.made[removed[i]].src.name == name && b.made[removed[i]].Faulted()
  }

  /** It has returned: what is new is started if Run is on, the incidents that nobody
      stands for any more are closed, and no other. */
  ghost predicate HasReturned(s: Site, t: Site, n: nat)
    requires s.Proper() && s.replacing.Busy? && t.Proper()
  {
    var p, b := s.replacing, s.board;
    && t.replacing.Idle? && t.check == s.check && t.ending == s.ending
    && t.board == (if b.began && !b.stopped then AllStarted(b, p.started) else b)
    && (forall name :: name in t.open <==> name in s.open && !LeftBehind(b, p.removed, n, name))
    && |t.log| > |s.log| && t.log[|t.log| - 1] == Returned(p.removed)
  }

  /** One it looked at: it went on to the next, and resolved the incident exactly if that
      one left a fault which no source that is running reports. */
  ghost predicate DealtWith(s: Site, t: Site)
    requires s.Proper() && s.replacing.Busy? && s.replacing.n < |s.replacing.removed|
  {
    var p := s.replacing;
    var r := p.removed[p.n];
    var name := s.board.made[r].src.name;
    && t.replacing == p.(n := p.n + 1) && t.board == s.board && t.check == s.check && t.ending == s.ending
    && |t.log| >= |s.log|
    && t.open == if s.board.made[r].Faulted() && !WatchedAndFaulted(s.board, name) then s.open - {name} else s.open
  }

  /** One that left a fault: it resolves the name unless a running source still reports
      it. */
  lemma OneFaultIsDealtWith(s: Site, t: Site) returns (u: Site)
    requires s.Proper() && !s.board.crashed && s.replacing.Busy? && s.replacing.stage.Look?
    requires s.replacing.n < |s.replacing.removed| && s.board.made[s.replacing.removed[s.replacing.n]].Faulted()
    requires t == s.(replacing := s.replacing.(stage := Test))
    ensures u.Proper() && ByItself(t, u) && DealtWith(s, u)
  {
    u := Next(t, Onward);
    OneStepByItself(t);
    if !WatchedAndFaulted(s.board, s.board.made[s.replacing.removed[s.replacing.n]].src.name) {
      var v := Next(u, Onward);
      OneStepByItself(u);
      FurtherByItself(t, u, v);
      u := v;
    }
  }

  lemma OneIsDealtWith(s: Site) returns (t: Site)
    requires s.Proper() && !s.board.crashed && s.replacing.Busy? && s.replacing.stage.Look?
    requires s.replacing.n < |s.replacing.removed|
    ensures t.Proper() && ByItself(s, t) && DealtWith(s, t)
  {
    t := Next(s, Onward);
    OneStepByItself(s);
    if s.board.made[s.replacing.removed[s.replacing.n]].Faulted() {
      var u := OneFaultIsDealtWith(s, t);
      FurtherByItself(s, t, u);
      t := u;
    }
  }

  lemma LookedAtTheFirst(s: Site, t: Site, u: Site)
    requires s.Proper() && t.Proper() && u.Proper() && s.replacing.Busy? && s.replacing.n < |s.replacing.removed|
    requires DealtWith(s, t) && HasReturned(t, u, t.replacing.n)
    ensures HasReturned(s, u, s.replacing.n)
  {
    var p, b := s.replacing, s.board;
    forall name
      ensures LeftBehind(b, p.removed, p.n, name) <==>
                || (b.made[p.removed[p.n]].src.name == name && b.made[p.removed[p.n]].Faulted()
                    && !WatchedAndFaulted(b, name))
                || LeftBehind(b, p.removed, p.n + 1, name)
    {
      var r := p.removed[p.n];
    }
  }

  /** From where it looks at what it dropped it goes down the list and returns. */
  lemma {:induction false} ItGoesDownTheList(s: Site) returns (t: Site)
    requires s.Proper() && !s.board.crashed && s.replacing.Busy? && s.replacing.stage.Look?
    ensures t.Proper() && ByItself(s, t) && HasReturned(s, t, s.replacing.n)
    decreases |s.replacing.removed| - s.replacing.n
  {
    if s.replacing.n == |s.replacing.removed| {
      t := Next(s, Onward);
      OneStepByItself(s);
    } else {
      var u := OneIsDealtWith(s);
      t := ItGoesDownTheList(u);
      FurtherByItself(s, u, t);
      LookedAtTheFirst(s, u, t);
    }
  }

  /** All that it still waits for are gone. */
  predicate NoneAwaited(s: Site)
    requires s.Proper() && s.replacing.Busy?
  {
    forall i :: s.replacing.n <= i < |s.replacing.removed| ==> Done(s.board, s.replacing.removed[i])
  }

  /** It waits for each in turn. */
  lemma {:induction false} ItHasWaited(s: Site)
    requires s.Proper() && !s.board.crashed && s.replacing.Busy? && s.replacing.stage.Join? && NoneAwaited(s)
    ensures ByItself(s, s.(replacing := s.replacing.(n := 0, stage := Look)))
    decreases |s.replacing.removed| - s.replacing.n
  {
    var p, t := s.replacing, Next(s, Onward);
    OneStepByItself(s);
    if p.n < |p.removed| {
      assert t == s.(replacing := p.(n := p.n + 1));
      ItHasWaited(t);
      FurtherByItself(s, t, s.(replacing := p.(n := 0, stage := Look)));
    }
  }

  /** It awaits one that is not gone. */
  predicate Waits(s: Site)
    requires s.Proper()
  {
    s.replacing.Busy? && s.replacing.stage.Join? && !NoneAwaited(s)
  }

  lemma ItWaitsOn(s: Site)
    requires s.Proper() && Waits(s)
    ensures Turn(s).Proper() && Waits(Turn(s))
  {
  }

  lemma {:induction false} ItWaits(s: Site, k: nat)
    requires s.Proper() && Waits(s)
    ensures Times(Turn, s, k).replacing.Busy?
    decreases k
  {
    if k > 0 {
      ItWaitsOn(s);
      ItWaits(Turn(s), k - 1);
    }
  }

  lemma ItReturns(s: Site) returns (t: Site)
    requires s.Proper() && !s.board.crashed && s.replacing.Busy? && s.replacing.stage.Join? && NoneAwaited(s)
    ensures t.Proper() && ByItself(s, t) && HasReturned(s, t, 0)
  {
    var u := s.(replacing := s.replacing.(n := 0, stage := Look));
    ItHasWaited(s);
    t := ItGoesDownTheList(u);
    FurtherByItself(s, u, t);
  }

  lemma ItStaysUnderWay(s: Site, t: Site)
    requires s.Proper() && Waits(s) && ByItself(s, t)
    ensures t.replacing.Busy?
  {
    var k: nat :| Times(Turn, s, k) == t;
    ItWaits(s, k);
  }

  /** Left alone where it awaits what it dropped, a replacement returns if and only if
      all that it still waits for are gone; and then what is new is started if Run is
      on, and of the incidents exactly those are closed that something dropped left
      behind and nothing running stands for. */
  lemma ReturnsExactlyWhenNoneIsAwaited(s: Site)
    requires s.Proper() && !s.board.crashed && s.replacing.Busy? && s.replacing.stage.Join?
    ensures (exists t: Site :: ByItself(s, t) && t.replacing.Idle?) <==> NoneAwaited(s)
    ensures NoneAwaited(s) ==> exists t: Site :: t.Proper() && ByItself(s, t) && HasReturned(s, t, 0)
  {
    if NoneAwaited(s) {
      var t := ItReturns(s);
      assert t.Proper() && ByItself(s, t) && HasReturned(s, t, 0) && t.replacing.Idle?;
    } else {
      forall t: Site | ByItself(s, t)
        ensures t.replacing.Busy?
      {
        ItStaysUnderWay(s, t);
      }
    }
  }

  // ---- Run --------------------------------------------------------------------------------

  /** Run returns once its context is done, the deadman rests and everything then live is
      gone, and not before any of these; from where it stops nothing is started. */
  lemma RunReturnsExactlyWhen(s: Site)
    requires s.Proper() && s.ending.None?
    ensures var u := Next(s, Stops);
            var t := Next(u, RunReturns);
            var stops := s.board.began && s.board.over && !s.board.stopped && s.check.Resting?;
            && (u.board.stopped <==> s.board.stopped || stops)
            && t.board == s.board.(stopped := u.board.stopped)
            && (t.log == s.log + [RunReturned] <==> stops && forall r :: r in s.board.live ==> Done(s.board, r))
            && (t.log != s.log + [RunReturned] ==> t.log == s.log && (t.ending.Some? <==> stops))
  {
    var u := Next(s, Stops);
    assert forall r :: r in s.board.live ==> (Done(u.board, r) <==> Done(s.board, r));
  }

  // ---- Nothing is stuck ---------------------------------------------------------------------

  /** Whatever the replacement under way dropped has been told to stop. */
  predicate DroppedTold(s: Site)
    requires s.Proper()
  {
    s.replacing.Busy? ==>
      forall i :: 0 <= i < |s.replacing.removed| ==>
        var held := s.board.made[s.replacing.removed[i]].go;
        held.Some? ==> s.board.goes[held.value].told
  }

  predicate ToldStill(b: Board, t: Board) {
    |t.goes| >= |b.goes| && forall g :: 0 <= g < |b.goes| && b.goes[g].told ==> t.goes[g].told
  }

  lemma PhasedIsTold(b: Board, c: Board, g: nat, phase: Phase)
    requires c.Proper() && c.goes == b.goes && g < |b.goes|
    ensures ToldStill(b, Phased(c, g, phase))
  {
  }

  lemma ClosingIsTold(b: Board, g: nat)
    requires b.Proper() && g < |b.goes|
    ensures ToldStill(b, Closing(b, g))
  {
  }

  lemma MovedIsTold(s: Site, g: nat)
    requires s.Proper() && g < |s.board.goes|
    ensures ToldStill(s.board, Moved(s, g).board)
  {
    var b := s.board;
    var r := b.goes[g].runner;
    match b.goes[g].phase
    case Serving => PhasedIsTold(b, b, g, Leaving);
    case Breaking(why) => PhasedIsTold(b, b.(made := b.made[r := b.made[r].(fatal := why)]), g, Reporting(why));
    case Reporting(_) => PhasedIsTold(b, b, g, Leaving);
    case Leaving => PhasedIsTold(b, b.(live := b.live - {r}), g, Left);
    case Left => ClosingIsTold(b, g);
    case Gone =>
  }

  lemma CheckedIsTold(s: Site, l: Label)
    requires s.Proper() && (l.Looks? || l.Judges? || l.Tells?)
    ensures ToldStill(s.board, Checked(s, l).board)
  {
  }

  lemma StepIsTold(s: Site, l: Label)
    requires s.Proper() && !(l.Begin? && !s.board.began) && !Swaps(s, l) && !Finishes(s, l)
    ensures ToldStill(s.board, Next(s, l).board)
  {
    match l
    case Onward => if s.replacing.Busy? { OnwardKeepsCrew(s); }
    case Goes(g) => if g < |s.board.goes| { MovedIsTold(s, g); }
    case Looks(_) => CheckedIsTold(s, l);
    case Judges(_) => CheckedIsTold(s, l);
    case Tells => CheckedIsTold(s, l);
    case _ =>
  }

  lemma SwapTells(s: Site, l: Label)
    requires s.Proper() && Swaps(s, l)
    ensures DroppedTold(Next(s, l))
  {
    var Change(t, removed, _) := Swapped(s.board, l.next, l.now);
    SwapTouches(s.board, l.next, l.now);
    assert forall i :: 0 <= i < |removed| ==> removed[i] in removed;
    forall i | 0 <= i < |removed|
      ensures t.made[removed[i]].go.Some? ==> t.goes[t.made[removed[i]].go.value].told
    {
      DroppedAreTold(s.board, l.next, l.now, removed[i]);
    }
  }

  lemma BeginTells(s: Site)
    requires s.Proper() && StartsKnown(s) && Waited(s) && !s.board.began
    ensures DroppedTold(Next(s, Begin))
  {
    StartingTouches(s.board.(began := true), s.board.running);
  }

  lemma StaysTold(s: Site, l: Label)
    requires s.Proper() && StartsKnown(s) && Waited(s) && DroppedTold(s)
    ensures DroppedTold(Next(s, l))
  {
    if l.Begin? && !s.board.began {
      BeginTells(s);
    } else if Swaps(s, l) {
      SwapTells(s, l);
    } else if !Finishes(s, l) {
      OtherStepsKeepCrew(s, l);
      StepIsTold(s, l);
    }
  }

  /** What every run keeps in which no record is started over a goroutine at work. */
  ghost predicate Sane(s: Site) {
    && s.Proper() && StartsKnown(s) && AllSole(s.board) && Waited(s) && DroppedTold(s) && !s.board.crashed
  }

  lemma {:induction false} RunsStaySane(s: Site, ls: seq<Label>)
    requires Sane(s) && !Overlapped(s, ls)
    ensures Sane(Exec(s, ls))
    decreases ls
  {
    if ls != [] {
      StaysAllSole(s, ls);
      StaysWaited(s, ls[0]);
      StaysTold(s, ls[0]);
      RunsStaySane(Next(s, ls[0]), ls[1..]);
    }
  }

  /** How many steps a goroutine has to go. */
  function StepsLeft(p: Phase): nat {
    match p
    case Breaking(_) => 4
    case Serving => 3
    case Reporting(_) => 3
    case Leaving => 2
    case Left => 1
    case Gone => 0
  }

  lemma StaysSane(s: Site, l: Label)
    requires Sane(s) && forall r: nat :: !Overlaps(s, l, r)
    ensures Sane(Next(s, l))
  {
    var ls := [l];
    assert ls[1..] == [];
    assert forall r: nat :: OverlapsIn(s, ls, r) ==> Overlaps(s, l, r);
    StaysAllSole(s, ls);
    StaysWaited(s, l);
    StaysTold(s, l);
  }

  lemma ItComesCloser(s: Site, g: nat)
    requires s.Proper() && g < |s.board.goes| && !s.board.goes[g].phase.Gone? && s.board.goes[g].told
    requires s.board.goes[g].phase.Left? ==> HoldsOpen(s.board, g)
    ensures StepsLeft(Moved(s, g).board.goes[g].phase) < StepsLeft(s.board.goes[g].phase)
  {
    if s.board.goes[g].phase.Left? {
      assert Moved(s, g) == Boarded(s, Closing(s.board, g));
    }
  }

  /** Only goroutines have moved on, and the replacement stands where it stood. */
  predicate MovedOnly(s: Site, t: Site) {
    t.replacing == s.replacing && SameCrew(s.board, t.board) && ToldStill(s.board, t.board)
  }

  lemma MovedOnlyDone(s: Site, t: Site, r: nat)
    requires s.Proper() && t.Proper() && MovedOnly(s, t) && r < |s.board.made| && Done(s.board, r)
    ensures r < |t.board.made| && Done(t.board, r)
  {
  }

  lemma MovedOnlyFurther(s: Site, t: Site, u: Site)
    requires MovedOnly(s, t) && MovedOnly(t, u)
    ensures MovedOnly(s, u)
  {
  }

  /** One step of a goroutine that is to go. */
  lemma OneStepOn(s: Site, g: nat, r: nat)
    requires Sane(s) && AtWork(s.board, g, r) && s.board.goes[g].told
    ensures var t := Next(s, Goes(g));
            && Sane(t) && MovedOnly(s, t) && StepsLeft(t.board.goes[g].phase) < StepsLeft(s.board.goes[g].phase)
  {
    StaysSane(s, Goes(g));
    AtWorkIsKnown(s.board, g);
    ItComesCloser(s, g);
    MoveKeepsCrew(s, g);
    MovedIsTold(s, g);
    assert Next(s, Goes(g)) == Moved(s, g);
  }

  lemma {:induction false} ItGetsThere(from: Site, s: Site, g: nat, r: nat) returns (t: Site)
    requires from.Proper() && Sane(s) && Leads(from, s) && g < |s.board.goes| && s.board.goes[g].runner == r
    requires s.board.goes[g].told && s.board.made[r].go == Some(g)
    ensures Sane(t) && Leads(from, t) && MovedOnly(s, t) && Done(t.board, r)
    decreases StepsLeft(s.board.goes[g].phase)
  {
    if s.board.goes[g].phase.Gone? {
      t := s;
      assert SoleSoFar(s.board, r);
    } else {
      var u := Next(s, Goes(g));
      OneStepOn(s, g, r);
      ToTheNext(from, s, Goes(g));
      t := ItGetsThere(from, u, g, r);
      MovedOnlyFurther(s, u, t);
    }
  }

  predicate DoneFrom(b: Board, removed: seq<nat>, i: nat)
    requires b.Proper()
  {
    forall j :: i <= j < |removed| ==> removed[j] < |b.made| && Done(b, removed[j])
  }

  lemma OneMoreIsDone(u: Site, t: Site, removed: seq<nat>, i: nat)
    requires u.Proper() && t.Proper() && MovedOnly(u, t) && i < |removed| && removed[i] < |u.board.made|
    requires Done(u.board, removed[i]) && DoneFrom(t.board, removed, i + 1)
    ensures DoneFrom(t.board, removed, i)
  {
    MovedOnlyDone(u, t, removed[i]);
  }

  lemma OneOfThemGoes(from: Site, s: Site, removed: seq<nat>, i: nat) returns (t: Site)
    requires from.Proper() && Sane(s) && Leads(from, s) && s.replacing.Busy? && s.replacing.removed == removed
    requires i < |removed|
    ensures Sane(t) && Leads(from, t) && MovedOnly(s, t) && removed[i] < |t.board.made| && Done(t.board, removed[i])
  {
    var r := removed[i];
    if s.board.made[r].go.Some? {
      t := ItGetsThere(from, s, s.board.made[r].go.value, r);
    } else {
      t := s;
    }
  }

  /** Everything that was dropped can go. */
  lemma {:induction false} AllOfThemGo(from: Site, s: Site, removed: seq<nat>, i: nat) returns (t: Site)
    requires from.Proper() && Sane(s) && Leads(from, s) && s.replacing.Busy? && s.replacing.removed == removed
    requires i <= |removed|
    ensures Sane(t) && Leads(from, t) && MovedOnly(s, t) && DoneFrom(t.board, removed, i)
    decreases |removed| - i
  {
    if i == |removed| {
      t := s;
    } else {
      var u := OneOfThemGoes(from, s, removed, i);
      t := AllOfThemGo(from, u, removed, i + 1);
      MovedOnlyFurther(s, u, t);
      OneMoreIsDone(u, t, removed, i);
    }
  }

  lemma TurnLeads(from: Site, s: Site)
    requires from.Proper() && s.Proper() && Leads(from, s)
    ensures Turn(s).Proper() && Turn(s) == Next(s, Onward) && Leads(from, Turn(s))
  {
    Then(from, s, Onward);
  }

  lemma {:induction false} TurnsLead(from: Site, s: Site, k: nat)
    requires from.Proper() && s.Proper() && Leads(from, s)
    ensures Leads(from, Times(Turn, s, k))
    decreases k
  {
    if k > 0 {
      TurnLeads(from, s);
      TurnsLead(from, Turn(s), k - 1);
    }
  }

  lemma ItLeadsThere(from: Site, s: Site, t: Site)
    requires from.Proper() && s.Proper() && Leads(from, s) && ByItself(s, t)
    ensures Leads(from, t)
  {
    var k: nat :| Times(Turn, s, k) == t;
    TurnsLead(from, s, k);
  }

  /** A run from here after which the replacement under way has returned. */
  ghost predicate CanReturn(from: Site, removed: seq<nat>)
    requires from.Proper()
  {
    exists t: Site :: t.Proper() && Leads(from, t) && t.replacing.Idle? && Returned(removed) in t.log
  }

  lemma FromTheListItReturns(from: Site, s: Site)
    requires from.Proper() && Leads(from, s) && s.Proper() && s.replacing.Busy? && s.replacing.stage.Look?
    ensures CanReturn(from, s.replacing.removed)
  {
    var t := ItGoesDownTheList(s);
    ItLeadsThere(from, s, t);
    assert t.log[|t.log| - 1] in t.log;
  }

  lemma FromTheWaitItReturns(from: Site, s: Site)
    requires from.Proper() && Leads(from, s) && Sane(s) && s.replacing.Busy? && s.replacing.stage.Join?
    ensures CanReturn(from, s.replacing.removed)
  {
    var t := AllOfThemGo(from, s, s.replacing.removed, s.replacing.n);
    assert NoneAwaited(t);
    var u := t.(replacing := t.replacing.(n := 0, stage := Look));
    ItHasWaited(t);
    ItLeadsThere(from, t, u);
    FromTheListItReturns(from, u);
  }

  /** Between its looks it is a step or two from the next. */
  lemma FromAResolveItReturns(from: Site, s: Site)
    requires from.Proper() && Leads(from, s) && s.Proper() && s.replacing.Busy? && s.replacing.stage.Resolve?
    ensures CanReturn(from, s.replacing.removed)
  {
    TurnLeads(from, s);
    FromTheListItReturns(from, Turn(s));
  }

  lemma AfterTheTest(s: Site)
    requires s.Proper() && s.replacing.Busy? && s.replacing.stage.Test?
    ensures var t := Next(s, Onward);
            && t.replacing.Busy? && t.replacing.removed == s.replacing.removed
            && (t.replacing.stage.Look? || t.replacing.stage.Resolve?)
  {
  }

  lemma FromATestItReturns(from: Site, s: Site)
    requires from.Proper() && Leads(from, s) && s.Proper() && s.replacing.Busy? && s.replacing.stage.Test?
    ensures CanReturn(from, s.replacing.removed)
  {
    var u := Turn(s);
    AfterTheTest(s);
    TurnLeads(from, s);
    if u.replacing.stage.Look? {
      FromTheListItReturns(from, u);
    } else {
      FromAResolveItReturns(from, u);
    }
  }

  lemma FreshIsSane(s: Site)
    requires Fresh(s)
    ensures Sane(s)
  {
    forall r: nat
      ensures SoleSoFar(s.board, r)
    {
      FreshIsSole(s, r);
    }
    FreshIsSole(s, 0);
  }

  lemma FromASaneSiteItReturns(s: Site)
    requires Sane(s) && s.replacing.Busy?
    ensures CanReturn(s, s.replacing.removed)
  {
    Here(s);
    match s.replacing.stage
    case Join => FromTheWaitItReturns(s, s);
    case Look => FromTheListItReturns(s, s);
    case Test => FromATestItReturns(s, s);
    case Resolve => FromAResolveItReturns(s, s);
  }

  /** In every run in which no record is started over a goroutine still at work, a
      replacement that is under way can still return: there are steps that lead there,
      whatever has happened and whoever else is at whatever turn. */
  lemma NoReplacementIsStuck(s: Site, ls: seq<Label>)
    requires Fresh(s) && s.Proper() && !Overlapped(s, ls) && Exec(s, ls).replacing.Busy?
    ensures CanReturn(Exec(s, ls), Exec(s, ls).replacing.removed)
  {
    FreshIsSane(s);
    RunsStaySane(s, ls);
    FromASaneSiteItReturns(Exec(s, ls));
  }
}
