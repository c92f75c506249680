/** What the deadman's incidents say, and when that is so: exactly when they are
    true after any run of replacements, failures and checks. */
module Truthfulness {
  import opened Base
  import opened Supervision
  import opened Supervising

  /** The open incidents are exactly those of the running sources' faults. */
  ghost predicate Truthful(s: Site)
    requires s.Proper()
  {
    forall name :: name in s.open <==> WatchedAndFaulted(s.board, name)
  }

  /** Somebody is about to report on this name. */
  predicate FailureDue(s: Site, g: nat, name: string)
    requires s.Proper()
  {
    g < |s.board.goes| && s.board.goes[g].phase.Reporting? && s.board.made[s.board.goes[g].runner].src.name == name
  }

  predicate EdgeDue(s: Site, name: string)
    requires s.Proper()
  {
    s.check.Telling? && s.board.made[s.check.left[0]].src.name == name
  }

  predicate ResolveDue(s: Site, name: string)
    requires s.Proper()
  {
    && s.replacing.Busy? && s.replacing.stage.Resolve?
    && s.board.made[s.replacing.removed[s.replacing.n]].src.name == name
  }

  ghost predicate Due(s: Site, name: string)
    requires s.Proper()
  {
    EdgeDue(s, name) || ResolveDue(s, name) || exists g :: FailureDue(s, g, name)
  }

  /** No replacement is under way and nobody is about to report. */
  ghost predicate Settled(s: Site)
    requires s.Proper()
  {
    s.replacing.Idle? && forall name :: !Due(s, name)
  }

  /** The last report on this name, if there was one, fitted when it landed. */
  predicate LastFits(log: seq<Event>, name: string) {
    log == []
    || (var e := log[|log| - 1];
        if e.Report? && e.name == name then e.fits else LastFits(log[..|log| - 1], name))
  }

  lemma LastOfMore(log: seq<Event>, e: Event, name: string)
    ensures LastFits(log + [e], name) == if e.Report? && e.name == name then e.fits else LastFits(log, name)
  {
    assert (log + [e])[..|log|] == log;
  }

  /** Its incident says what is so, unless its last report did not fit. */
  ghost predicate Even(s: Site, name: string)
    requires s.Proper()
  {
    (Faulty(s, name) <==> name in s.open) <==> LastFits(s.log, name)
  }

  /** Every change of what is so has a report still to come, or has had one. */
  ghost predicate Accounted(s: Site)
    requires s.Proper()
  {
    forall name :: !Due(s, name) ==> Even(s, name)
  }

  // ---- A report, and a step without one ---------------------------------------------

  lemma ReportAccounts(s: Site, u: Site, teller: Teller, name: string, raise: bool)
    requires s.Proper() && u.Proper() && Accounted(s) && u.open == s.open && u.log == s.log
    requires forall n :: n != name && !Due(u, n) ==> !Due(s, n)
    requires forall n :: Faulty(u, n) <==> Faulty(s, n)
    ensures Accounted(Reported(u, teller, name, raise))
  {
    var t := Reported(u, teller, name, raise);
    forall n | !Due(t, n)
      ensures Even(t, n)
    {
      SameButReported(u, teller, name, raise, n);
      LastOfMore(s.log, Report(teller, name, raise, raise == Faulty(u, name)), n);
      if n != name {
        assert Even(s, n);
      }
    }
  }

  lemma SameButReported(u: Site, teller: Teller, name: string, raise: bool, n: string)
    requires u.Proper()
    ensures var t := Reported(u, teller, name, raise);
            (Due(t, n) <==> Due(u, n)) && (Faulty(t, n) <==> Faulty(u, n))
  {
    var t := Reported(u, teller, name, raise);
    assert forall g :: FailureDue(t, g, n) <==> FailureDue(u, g, n);
    assert forall r :: FaultOf(t, r, n) <==> FaultOf(u, r, n);
  }

  /** Nothing is reported, and what changed has a report due. */
  ghost predicate Calm(s: Site, t: Site)
    requires s.Proper() && t.Proper()
  {
    && t.open == s.open
    && (forall name :: LastFits(t.log, name) <==> LastFits(s.log, name))
    && forall name :: !Due(t, name) ==> !Due(s, name) && (Faulty(t, name) <==> Faulty(s, name))
  }

  lemma CalmAccounts(s: Site, t: Site)
    requires s.Proper() && t.Proper() && Accounted(s) && Calm(s, t)
    ensures Accounted(t)
  {
    forall name | !Due(t, name)
      ensures Even(t, name)
    {
      assert Even(s, name);
    }
  }

  // ---- Starting and swapping ------------------------------------------------------------

  lemma {:induction false} StartingTouches(b: Board, rs: seq<nat>)
    requires b.Proper() && forall i :: 0 <= i < |rs| ==> rs[i] < |b.made|
    ensures var t := AllStarted(b, rs);
            && t.running == b.running && b.goes <= t.goes && t.began == b.began && t.stopped == b.stopped
            && t.over == b.over && t.closed == b.closed && t.crashed == b.crashed
            && (forall g :: |b.goes| <= g < |t.goes| ==> t.goes[g].phase == Serving && t.goes[g].runner in rs)
            && (forall r :: 0 <= r < |b.made| ==> t.made[r] == b.made[r].(go := t.made[r].go))
            && (forall r :: 0 <= r < |b.made| && r !in rs ==> t.made[r] == b.made[r])
  {
    if rs != [] {
      StartingTouches(b, rs[..|rs| - 1]);
    }
  }

  /** No record's fault and no goroutine's report changed, and what is new has
      neither. */
  predicate SameSaid(b: Board, t: Board)
    requires b.Proper() && t.Proper()
  {
    && |b.made| <= |t.made| && |b.goes| <= |t.goes|
    && (forall r :: 0 <= r < |b.made| ==>
          t.made[r].src == b.made[r].src && (t.made[r].Faulted() <==> b.made[r].Faulted()))
    && (forall r :: |b.made| <= r < |t.made| ==> !t.made[r].Faulted())
    && (forall g :: 0 <= g < |b.goes| ==>
          && t.goes[g].runner == b.goes[g].runner
          && (t.goes[g].phase.Reporting? <==> b.goes[g].phase.Reporting?))
    && (forall g :: |b.goes| <= g < |t.goes| ==> !t.goes[g].phase.Reporting?)
  }

  lemma SameFaulty(s: Site, t: Site, name: string)
    requires s.Proper() && t.Proper() && SameSaid(s.board, t.board)
    requires forall r :: 0 <= r < |s.board.made| && s.board.made[r].Faulted() ==> (Counts(s, r) <==> Counts(t, r))
    ensures Faulty(t, name) <==> Faulty(s, name)
  {
    if r :| FaultOf(s, r, name) {
      assert FaultOf(t, r, name);
    }
    if r :| FaultOf(t, r, name) {
      assert FaultOf(s, r, name);
    }
  }

  lemma SameFailures(s: Site, t: Site, name: string)
    requires s.Proper() && t.Proper() && SameSaid(s.board, t.board)
    ensures (exists g :: FailureDue(t, g, name)) <==> (exists g :: FailureDue(s, g, name))
  {
    if g :| FailureDue(s, g, name) {
      assert FailureDue(t, g, name);
    }
    if g :| FailureDue(t, g, name) {
      assert FailureDue(s, g, name);
    }
  }

  /** The deadman's edge and the replacement's resolve that were due still are. */
  predicate StillDue(s: Site, t: Site) {
    && (s.check.Telling? ==> t.check == s.check)
    && (s.replacing.Busy? && s.replacing.stage.Resolve? ==> t.replacing == s.replacing)
  }

  lemma SameIsCalm(s: Site, t: Site)
    requires s.Proper() && t.Proper() && SameSaid(s.board, t.board) && StillDue(s, t)
    requires forall r :: 0 <= r < |s.board.made| && s.board.made[r].Faulted() ==> (Counts(s, r) <==> Counts(t, r))
    requires t.open == s.open && forall name :: LastFits(t.log, name) <==> LastFits(s.log, name)
    ensures Calm(s, t)
  {
    forall name
      ensures !Due(t, name) ==> !Due(s, name)
      ensures Faulty(t, name) <==> Faulty(s, name)
    {
      SameFaulty(s, t, name);
      SameFailures(s, t, name);
    }
  }

  // ---- Step by step ---------------------------------------------------------------------

  lemma StartingSaysNothing(b: Board, began: bool, rs: seq<nat>)
    requires b.Proper() && forall i :: 0 <= i < |rs| ==> rs[i] < |b.made|
    ensures SameSaid(b, AllStarted(b.(began := began), rs))
    ensures AllStarted(b.(began := began), rs).running == b.running
    ensures |AllStarted(b.(began := began), rs).made| == |b.made|
  {
    StartingTouches(b.(began := began), rs);
  }

  lemma OtherEvents(log: seq<Event>, e: Event)
    requires !e.Report?
    ensures forall name :: LastFits(log + [e], name) <==> LastFits(log, name)
  {
    forall name
      ensures LastFits(log + [e], name) <==> LastFits(log, name)
    {
      LastOfMore(log, e, name);
    }
  }

  lemma BeginAccounts(s: Site)
    requires s.Proper() && Accounted(s)
    ensures Accounted(Ran(s, Begin))
  {
    StartingSaysNothing(s.board, true, s.board.running);
    SameIsCalm(s, Ran(s, Begin));
    CalmAccounts(s, Ran(s, Begin));
  }

  lemma EndingAccounts(s: Site, l: Label)
    requires s.Proper() && Accounted(s) && (l.Over? || l.Stops? || l.RunReturns?)
    ensures Accounted(Ran(s, l))
  {
    OtherEvents(s.log, RunReturned);
    SameIsCalm(s, Ran(s, l));
    CalmAccounts(s, Ran(s, l));
  }

  lemma CheckBeginsAccounts(s: Site, now: Time)
    requires s.Proper() && Accounted(s)
    ensures Accounted(Next(s, CheckBegins(now)))
  {
    SameIsCalm(s, Next(s, CheckBegins(now)));
    CalmAccounts(s, Next(s, CheckBegins(now)));
  }

  lemma SwapCounts(s: Site, next: seq<Option<Source>>, now: Time, r: nat)
    requires s.Proper() && s.replacing.Idle? && Listable(next) && r < |s.board.made|
    ensures var Change(t, removed, started) := Swapped(s.board, next, now);
            r in s.board.running <==> r in t.running || r in removed
  {
    var Change(t, removed, started) := Swapped(s.board, next, now);
    SwapGivesTheList(s.board, next, now);
    if i :| 0 <= i < |t.running| && t.running[i] == r {
      assert Seated(s.board, next, now, t, started, i);
    }
  }

  lemma SwapAccounts(s: Site, next: seq<Option<Source>>, now: Time)
    requires s.Proper() && Accounted(s)
    ensures Accounted(SwapBegins(s, next, now))
  {
    var t := SwapBegins(s, next, now);
    if !s.replacing.Busy? && !s.board.stopped && Listable(next) {
      forall r: nat | r < |s.board.made|
        ensures Counts(s, r) <==> Counts(t, r)
      {
        SwapCounts(s, next, now, r);
      }
      SameIsCalm(s, t);
      CalmAccounts(s, t);
    }
  }

  lemma JoinAccounts(s: Site)
    requires s.Proper() && Accounted(s) && s.replacing.Busy? && s.replacing.stage.Join?
    ensures Accounted(Replaced(s))
  {
    SameIsCalm(s, Replaced(s));
    CalmAccounts(s, Replaced(s));
  }

  lemma FinishAccounts(s: Site)
    requires s.Proper() && Accounted(s) && s.replacing.Busy?
    requires s.replacing.stage.Look? && s.replacing.n == |s.replacing.removed|
    ensures Accounted(Replaced(s))
  {
    var t := Replaced(s);
    StartingSaysNothing(s.board, s.board.began, s.replacing.started);
    OtherEvents(s.log, Returned(s.replacing.removed));
    forall r: nat | r < |s.board.made|
      ensures Counts(s, r) <==> Counts(t, r)
    {
      assert Unsettled(s) == [] && Unsettled(t) == [];
    }
    SameIsCalm(s, t);
    CalmAccounts(s, t);
  }

  /** What left no fault behind counts for nothing. */
  lemma LookAccounts(s: Site)
    requires s.Proper() && Accounted(s) && s.replacing.Busy?
    requires s.replacing.stage.Look? && s.replacing.n < |s.replacing.removed|
    ensures Accounted(Replaced(s))
  {
    var p, t := s.replacing, Replaced(s);
    assert p.removed[p.n..] == [p.removed[p.n]] + p.removed[p.n + 1..];
    forall r: nat | r < |s.board.made| && s.board.made[r].Faulted()
      ensures Counts(s, r) <==> Counts(t, r)
    {
      assert Unsettled(s) == p.removed[p.n..];
    }
    SameIsCalm(s, t);
    CalmAccounts(s, t);
  }

  /** What was found faulted is let go because another of its name is reported,
      or because its resolve is now due. */
  lemma TestAccounts(s: Site)
    requires s.Proper() && Accounted(s) && s.replacing.Busy? && s.replacing.stage.Test?
    ensures Accounted(Replaced(s))
  {
    var t, b := Replaced(s), s.board;
    var r := s.replacing.removed[s.replacing.n];
    var name := b.made[r].src.name;
    forall n
      ensures !Due(t, n) ==> !Due(s, n) && (Faulty(t, n) <==> Faulty(s, n))
    {
      SameFailures(s, t, n);
      if n == name {
        if WatchedAndFaulted(b, name) {
          var i :| 0 <= i < |b.running| && b.made[b.running[i]].src.name == name && b.made[b.running[i]].Faulted();
          assert FaultOf(t, b.running[i], name) && FaultOf(s, b.running[i], name);
        }
      } else {
        assert forall k :: FaultOf(s, k, n) <==> FaultOf(t, k, n);
      }
    }
    CalmAccounts(s, t);
  }

  lemma ResolvingChangesNoFault(s: Site, n: string)
    requires s.Proper() && s.replacing.Busy? && s.replacing.stage.Resolve?
    ensures var p := s.replacing;
            var u := s.(replacing := p.(n := p.n + 1, stage := Look));
            && (Faulty(u, n) <==> Faulty(s, n))
            && (n != s.board.made[p.removed[p.n]].src.name && !Due(u, n) ==> !Due(s, n))
  {
    var u := s.(replacing := s.replacing.(n := s.replacing.n + 1, stage := Look));
    SameFaulty(s, u, n);
    SameFailures(s, u, n);
  }

  lemma ResolvesNext(s: Site)
    requires s.Proper() && s.replacing.Busy? && s.replacing.stage.Resolve?
    ensures var p := s.replacing;
            var u, r := s.(replacing := p.(n := p.n + 1, stage := Look)), p.removed[p.n];
            && u.Proper() && u.open == s.open && u.log == s.log
            && Replaced(s) == Reported(u, Replacing(r), s.board.made[r].src.name, false)
  {
  }

  lemma ResolveAccounts(s: Site)
    requires s.Proper() && Accounted(s) && s.replacing.Busy? && s.replacing.stage.Resolve?
    ensures Accounted(Replaced(s))
  {
    var p := s.replacing;
    var u, r := s.(replacing := p.(n := p.n + 1, stage := Look)), p.removed[p.n];
    ResolvesNext(s);
    forall n
      ensures Faulty(u, n) <==> Faulty(s, n)
      ensures n != s.board.made[r].src.name && !Due(u, n) ==> !Due(s, n)
    {
      ResolvingChangesNoFault(s, n);
    }
    ReportAccounts(s, u, Replacing(r), s.board.made[r].src.name, false);
  }

  lemma ReplacedAccounts(s: Site)
    requires s.Proper() && Accounted(s) && s.replacing.Busy?
    ensures Accounted(Replaced(s))
  {
    match s.replacing.stage
    case Join => JoinAccounts(s);
    case Look =>
      if s.replacing.n == |s.replacing.removed| {
        FinishAccounts(s);
      } else {
        LookAccounts(s);
      }
    case Test => TestAccounts(s);
    case Resolve => ResolveAccounts(s);
  }

  /** A cause of failure is recorded with its report still to come. */
  lemma BreakingAccounts(s: Site, g: nat)
    requires s.Proper() && Accounted(s) && g < |s.board.goes| && s.board.goes[g].phase.Breaking?
    ensures Accounted(Moved(s, g))
  {
    var t, b := Moved(s, g), s.board;
    var name := b.made[b.goes[g].runner].src.name;
    forall n
      ensures !Due(t, n) ==> !Due(s, n) && (Faulty(t, n) <==> Faulty(s, n))
    {
      assert n == name ==> FailureDue(t, g, n);
      assert forall k :: FailureDue(s, k, n) ==> FailureDue(t, k, n);
      assert n != name ==> forall r :: FaultOf(s, r, n) <==> FaultOf(t, r, n);
    }
    CalmAccounts(s, t);
  }

  lemma ReportingAccounts(s: Site, g: nat)
    requires s.Proper() && Accounted(s) && g < |s.board.goes| && s.board.goes[g].phase.Reporting?
    ensures Accounted(Moved(s, g))
  {
    var b := s.board;
    var u := s.(board := Phased(b, g, Leaving));
    var r := b.goes[g].runner;
    forall n
      ensures Faulty(u, n) <==> Faulty(s, n)
      ensures n != b.made[r].src.name && !Due(u, n) ==> !Due(s, n)
    {
      assert forall k :: FaultOf(s, k, n) <==> FaultOf(u, k, n);
      assert n != b.made[r].src.name ==> forall k :: FailureDue(s, k, n) ==> FailureDue(u, k, n);
    }
    ReportAccounts(s, u, Failure(r, b.goes[g].phase.why), b.made[r].src.name, true);
  }

  lemma PhaseSaysNothing(b: Board, g: nat, phase: Phase)
    requires b.Proper() && g < |b.goes| && !b.goes[g].phase.Reporting? && !phase.Reporting?
    ensures SameSaid(b, Phased(b, g, phase))
  {
  }

  lemma ClosingSaysNothing(b: Board, g: nat)
    requires b.Proper() && g < |b.goes| && b.goes[g].phase.Left?
    ensures SameSaid(b, Closing(b, g)) && Closing(b, g).running == b.running
  {
  }

  lemma OtherMovesSayNothing(s: Site, g: nat)
    requires s.Proper() && g < |s.board.goes|
    requires !s.board.goes[g].phase.Breaking? && !s.board.goes[g].phase.Reporting?
    ensures var t := Moved(s, g);
            SameSaid(s.board, t.board) && t == s.(board := t.board) && t.board.running == s.board.running
  {
    PhaseSaysNothing(s.board, g, Leaving);
    match s.board.goes[g].phase
    case Left => ClosingSaysNothing(s.board, g);
    case Leaving => PhaseSaysNothing(s.board.(live := s.board.live - {s.board.goes[g].runner}), g, Left);
    case _ =>
  }

  lemma MovedAccounts(s: Site, g: nat)
    requires s.Proper() && Accounted(s) && g < |s.board.goes|
    ensures Accounted(Moved(s, g))
  {
    if s.board.goes[g].phase.Breaking? {
      BreakingAccounts(s, g);
    } else if s.board.goes[g].phase.Reporting? {
      ReportingAccounts(s, g);
    } else {
      OtherMovesSayNothing(s, g);
      SameIsCalm(s, Moved(s, g));
      CalmAccounts(s, Moved(s, g));
    }
  }

  lemma BefallenAccounts(s: Site, l: Label)
    requires s.Proper() && Accounted(s) && (l.Breaks? || l.Hears?)
    ensures Accounted(Befallen(s, l))
  {
    SameIsCalm(s, Befallen(s, l));
    CalmAccounts(s, Befallen(s, l));
  }

  /** An edge is taken with its report still to come. */
  lemma JudgesAccounts(s: Site, contact: Option<Time>)
    requires s.Proper() && Accounted(s) && s.check.Looked?
    ensures Accounted(Checked(s, Judges(contact)))
  {
    var t, b := Checked(s, Judges(contact)), s.board;
    var name := b.made[s.check.left[0]].src.name;
    forall n
      ensures !Due(t, n) ==> !Due(s, n) && (Faulty(t, n) <==> Faulty(s, n))
    {
      assert forall k :: FailureDue(s, k, n) ==> FailureDue(t, k, n);
      if n != name || !t.check.Telling? {
        assert forall r :: FaultOf(s, r, n) <==> FaultOf(t, r, n);
      }
    }
    CalmAccounts(s, t);
  }

  lemma TellsAccounts(s: Site)
    requires s.Proper() && Accounted(s) && s.check.Telling?
    ensures Accounted(Checked(s, Tells))
  {
    var c := s.check;
    var u := s.(check := Looking(c.now, c.left[1..]));
    var r := c.left[0];
    forall n
      ensures Faulty(u, n) <==> Faulty(s, n)
      ensures n != s.board.made[r].src.name && !Due(u, n) ==> !Due(s, n)
    {
      SameFaulty(s, u, n);
      SameFailures(s, u, n);
    }
    ReportAccounts(s, u, Deadman(r), s.board.made[r].src.name, c.raise);
  }

  lemma CheckedAccounts(s: Site, l: Label)
    requires s.Proper() && Accounted(s) && (l.Looks? || l.Judges? || l.Tells?)
    ensures Accounted(Checked(s, l))
  {
    if l.Judges? && s.check.Looked? {
      JudgesAccounts(s, l.contact);
    } else if l.Tells? && s.check.Telling? {
      TellsAccounts(s);
    } else {
      SameIsCalm(s, Checked(s, l));
      CalmAccounts(s, Checked(s, l));
    }
  }

  lemma StepAccounts(s: Site, l: Label)
    requires s.Proper() && Accounted(s)
    ensures Accounted(Next(s, l))
  {
    match l
    case Swap(next, now) => SwapAccounts(s, next, now);
    case Onward => if s.replacing.Busy? { ReplacedAccounts(s); }
    case Goes(g) => if g < |s.board.goes| { MovedAccounts(s, g); }
    case Breaks(_, _) => BefallenAccounts(s, l);
    case Hears(_, _) => BefallenAccounts(s, l);
    case CheckBegins(now) => CheckBeginsAccounts(s, now);
    case Begin => BeginAccounts(s);
    case Over => EndingAccounts(s, l);
    case Stops => EndingAccounts(s, l);
    case RunReturns => EndingAccounts(s, l);
    case _ => CheckedAccounts(s, l);
  }

  lemma {:induction false} RunsAccount(s: Site, ls: seq<Label>)
    requires s.Proper() && Accounted(s)
    ensures Accounted(Exec(s, ls))
    decreases ls
  {
    if ls != [] && !s.board.crashed {
      StepAccounts(s, ls[0]);
      RunsAccount(Next(s, ls[0]), ls[1..]);
    }
  }

  lemma SettledFaults(s: Site, name: string)
    requires s.Proper() && s.replacing.Idle?
    ensures Faulty(s, name) <==> WatchedAndFaulted(s.board, name)
  {
    var b := s.board;
    if r :| FaultOf(s, r, name) {
      var i :| 0 <= i < |b.running| && b.running[i] == r;
      assert b.made[b.running[i]].Faulted();
    }
    if i :| 0 <= i < |b.running| && b.made[b.running[i]].src.name == name && b.made[b.running[i]].Faulted() {
      assert FaultOf(s, b.running[i], name);
    }
  }

  lemma TrueIsAccounted(s: Site)
    requires s.Proper() && s.replacing.Idle? && Truthful(s) && s.log == []
    ensures Accounted(s)
  {
    forall name
      ensures Even(s, name)
    {
      SettledFaults(s, name);
    }
  }

  lemma OneNameAtRest(t: Site, name: string)
    requires t.Proper() && Settled(t) && Accounted(t)
    ensures (name in t.open <==> WatchedAndFaulted(t.board, name)) <==> LastFits(t.log, name)
  {
    SettledFaults(t, name);
    assert !Due(t, name) && Even(t, name);
  }

  lemma TrueAtRestExactlyWhen(t: Site)
    requires t.Proper() && Settled(t) && Accounted(t)
    ensures Truthful(t) <==> forall name :: LastFits(t.log, name)
  {
    if Truthful(t) {
      forall name
        ensures LastFits(t.log, name)
      {
        OneNameAtRest(t, name);
      }
    } else {
      var name :| (name in t.open) != WatchedAndFaulted(t.board, name);
      OneNameAtRest(t, name);
    }
  }

  /** Exactly when the incidents are true after any run, of replacements, failures
      and checks in any order, that comes to rest: when the last report made on
      each name fitted as it landed. A raise fits if some source of the name,
      running or dropped and not dealt with yet, is faulted at that moment, and a
      resolve if none is; nobody looks again before reporting. */
  lemma TruthfulExactlyWhen(s: Site, ls: seq<Label>)
    requires s.Proper() && Settled(s) && Truthful(s) && s.log == []
    requires Settled(Exec(s, ls))
    ensures Truthful(Exec(s, ls)) <==> forall name :: LastFits(Exec(s, ls).log, name)
  {
    TrueIsAccounted(s);
    RunsAccount(s, ls);
    TrueAtRestExactlyWhen(Exec(s, ls));
  }
}
