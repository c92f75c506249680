/** Runs in which replacement and the deadman do not keep their word, each beside
    the condition that excludes it. */
module Lapses {
  import opened Base
  import opened Supervision
  import opened Supervising
  import opened Truthfulness
  import opened Departures
  import opened Channels
  import opened Tellings
  import opened Misses

  // ---- Putting a run together ---------------------------------------------------------

  /** Some run leads from s to t, where the process still lives. */
  ghost predicate Leads(s: Site, t: Site)
    requires s.Proper()
  {
    !t.board.crashed && exists ls :: Exec(s, ls) == t
  }

  lemma {:induction false} OneMoreStep(s: Site, ls: seq<Label>, l: Label)
    requires s.Proper() && !Exec(s, ls).board.crashed
    ensures Exec(s, ls + [l]) == Next(Exec(s, ls), l)
    decreases ls
  {
    if ls == [] {
      assert [] + [l] == [l];
      assert Exec(Next(s, l), []) == Next(s, l);
    } else {
      OneMoreStep(Next(s, ls[0]), ls[1..], l);
      assert (ls + [l])[1..] == ls[1..] + [l];
    }
  }

  lemma Here(s: Site)
    requires s.Proper() && !s.board.crashed
    ensures Leads(s, s)
  {
    assert Exec(s, []) == s;
  }

  lemma ToTheNext(from: Site, s: Site, l: Label)
    requires from.Proper() && s.Proper() && Leads(from, s)
    ensures exists ls :: Exec(from, ls) == Next(s, l)
  {
    var ls :| Exec(from, ls) == s;
    OneMoreStep(from, ls, l);
    assert Exec(from, ls + [l]) == Next(s, l);
  }

  lemma Then(from: Site, s: Site, l: Label)
    requires from.Proper() && s.Proper() && Leads(from, s) && !Closes(s, l)
    ensures Leads(from, Next(s, l))
  {
    ToTheNext(from, s, l);
    OnlyClosingCrashes(s, l);
  }

  /** A goroutine ends, and the channel its record holds is closed. */
  lemma ThenCloses(from: Site, s: Site, g: nat)
    requires from.Proper() && s.Proper() && Leads(from, s) && Closes(s, Goes(g))
    requires Held(s, g).Some? && Held(s, g).value !in s.board.closed
    ensures Leads(from, Moved(s, g))
  {
    ToTheNext(from, s, Goes(g));
  }

  /** The channel that this goroutine's record holds. */
  function Held(s: Site, g: nat): Option<nat>
    requires s.Proper() && g < |s.board.goes|
  {
    s.board.made[s.board.goes[g].runner].go
  }

  /** The deadman's two turns on the first source left. */
  function AfterLook(s: Site, window: Duration, contact: Option<Time>): Site
    requires s.Proper() && s.check.Looking? && s.check.left != []
  {
    var c := s.check;
    var last := LastHeard(s.board.made[c.left[0]].lastEventAt, contact);
    var Judgement(next, edge) := Judged(s.board, c.left[0], c.now, window, last);
    s.(board := next,
       check := if edge == Stays then Looking(c.now, c.left[1..]) else Telling(c.now, c.left, edge == FellSilent))
  }

  lemma TwoTurns(s: Site, window: Duration, contact: Option<Time>)
    requires s.Proper() && s.check.Looking? && s.check.left != []
    requires window > 0 && s.board.made[s.check.left[0]].fatal == ""
    ensures AfterLook(s, window, contact) == Checked(Checked(s, Looks(window)), Judges(contact))
  {
  }

  lemma ThenLook(from: Site, s: Site, window: Duration, contact: Option<Time>)
    requires from.Proper() && s.Proper() && Leads(from, s)
    requires s.check.Looking? && s.check.left != [] && window > 0 && s.board.made[s.check.left[0]].fatal == ""
    ensures AfterLook(s, window, contact).Proper() && Leads(from, AfterLook(s, window, contact))
  {
    TwoTurns(s, window, contact);
    var looked := Checked(s, Looks(window));
    Then(from, s, Looks(window));
    assert Next(s, Looks(window)) == looked;
    ThenJudged(from, looked, contact);
  }

  lemma ThenJudged(from: Site, s: Site, contact: Option<Time>)
    requires from.Proper() && s.Proper() && Leads(from, s)
    ensures Leads(from, Checked(s, Judges(contact)))
  {
    Then(from, s, Judges(contact));
  }

  /** The deadman's report on the first source left. */
  lemma TellsIt(s: Site, fits: bool)
    requires s.Proper() && s.check.Telling?
    requires fits == (s.check.raise == Faulty(s, s.board.made[s.check.left[0]].src.name))
    ensures var c, name := s.check, s.board.made[s.check.left[0]].src.name;
            Checked(s, Tells)
            == s.(check := Looking(c.now, c.left[1..]),
                  open := if c.raise then s.open + {name} else s.open - {name},
                  log := s.log + [Report(Deadman(c.left[0]), name, c.raise, fits)])
  {
    var c, name := s.check, s.board.made[s.check.left[0]].src.name;
    SameFaulty(s, s.(check := Looking(c.now, c.left[1..])), name);
  }

  lemma ThenTell(from: Site, s: Site, fits: bool)
    requires from.Proper() && s.Proper() && Leads(from, s) && s.check.Telling?
    requires fits == (s.check.raise == Faulty(s, s.board.made[s.check.left[0]].src.name))
    ensures var c, name := s.check, s.board.made[s.check.left[0]].src.name;
            var t := s.(check := Looking(c.now, c.left[1..]),
                        open := if c.raise then s.open + {name} else s.open - {name},
                        log := s.log + [Report(Deadman(c.left[0]), name, c.raise, fits)]);
            t.Proper() && Leads(from, t)
  {
    TellsIt(s, fits);
    Then(from, s, Tells);
  }

  lemma ThenRest(from: Site, s: Site)
    requires from.Proper() && s.Proper() && Leads(from, s) && s.check.Looking? && s.check.left == []
    ensures s.(check := Resting).Proper() && Leads(from, s.(check := Resting))
  {
    Then(from, s, Looks(0));
  }

  /** A goroutine that was told to stop is gone. */
  function AfterGoing(s: Site, g: nat): Site
    requires s.Proper() && g < |s.board.goes| && Held(s, g).Some?
  {
    var b := s.board;
    s.(board := Phased(b.(live := b.live - {b.goes[g].runner}, closed := b.closed + {Held(s, g).value}), g, Gone))
  }

  function AfterLeaving(s: Site, g: nat): Site
    requires s.Proper() && g < |s.board.goes|
  {
    s.(board := Phased(s.board.(live := s.board.live - {s.board.goes[g].runner}), g, Left))
  }

  lemma LeavesThenCloses(s: Site, g: nat)
    requires s.Proper() && g < |s.board.goes| && s.board.goes[g].phase.Leaving?
    requires Held(s, g).Some? && Held(s, g).value < |s.board.goes| && Held(s, g).value !in s.board.closed
    ensures AfterLeaving(s, g) == Moved(s, g) && AfterLeaving(s, g).Proper()
    ensures g < |AfterLeaving(s, g).board.goes| && Moved(AfterLeaving(s, g), g) == AfterGoing(s, g)
  {
  }

  /** Its last two steps. */
  lemma ThenGone(from: Site, s: Site, g: nat)
    requires from.Proper() && s.Proper() && Leads(from, s) && g < |s.board.goes| && s.board.goes[g].phase.Leaving?
    requires Held(s, g).Some? && Held(s, g).value < |s.board.goes| && Held(s, g).value !in s.board.closed
    ensures AfterGoing(s, g).Proper() && Leads(from, AfterGoing(s, g))
  {
    LeavesThenCloses(s, g);
    Then(from, s, Goes(g));
    ThenCloses(from, AfterLeaving(s, g), g);
  }

  lemma ThenGo(from: Site, s: Site, g: nat)
    requires from.Proper() && s.Proper() && Leads(from, s)
    requires g < |s.board.goes| && s.board.goes[g].phase.Serving? && s.board.goes[g].told
    requires Held(s, g).Some? && Held(s, g).value < |s.board.goes| && Held(s, g).value !in s.board.closed
    ensures AfterGoing(s, g).Proper() && Leads(from, AfterGoing(s, g))
  {
    Then(from, s, Goes(g));
    var leaving := s.(board := Phased(s.board, g, Leaving));
    assert Next(s, Goes(g)) == leaving;
    ThenGone(from, leaving, g);
    assert AfterGoing(leaving, g) == AfterGoing(s, g);
  }

  /** A goroutine whose run broke has recorded why, and is about to report it. */
  function AfterBreaking(s: Site, g: nat, why: string): Site
    requires s.Proper() && g < |s.board.goes|
  {
    var b, r := s.board, s.board.goes[g].runner;
    s.(board := Phased(b.(made := b.made[r := b.made[r].(fatal := why)]), g, Reporting(why)))
  }

  lemma BreaksThenRecords(s: Site, g: nat, why: string)
    requires s.Proper() && g < |s.board.goes| && s.board.goes[g].phase.Serving? && !ToldToStop(s.board, g)
    ensures var breaking := s.(board := Phased(s.board, g, Breaking(why)));
            Next(s, Breaks(g, why)) == breaking && Moved(breaking, g) == AfterBreaking(s, g, why)
  {
  }

  lemma ThenBreaks(from: Site, s: Site, g: nat, why: string)
    requires from.Proper() && s.Proper() && Leads(from, s)
    requires g < |s.board.goes| && s.board.goes[g].phase.Serving? && !ToldToStop(s.board, g)
    ensures AfterBreaking(s, g, why).Proper() && Leads(from, AfterBreaking(s, g, why))
  {
    BreaksThenRecords(s, g, why);
    Then(from, s, Breaks(g, why));
    Then(from, s.(board := Phased(s.board, g, Breaking(why))), Goes(g));
  }

  /** It has reported it, and is leaving. */
  function AfterReporting(s: Site, g: nat, why: string): Site
    requires s.Proper() && g < |s.board.goes|
  {
    var r := s.board.goes[g].runner;
    var name := s.board.made[r].src.name;
    s.(board := Phased(s.board, g, Leaving), open := s.open + {name},
       log := s.log + [Report(Failure(r, why), name, true, true)])
  }

  lemma ReportsIt(s: Site, g: nat)
    requires s.Proper() && g < |s.board.goes| && s.board.goes[g].phase.Reporting?
    requires Counts(s, s.board.goes[g].runner) && s.board.made[s.board.goes[g].runner].Faulted()
    ensures Moved(s, g) == AfterReporting(s, g, s.board.goes[g].phase.why)
  {
    MarkedIsFaulty(s.(board := Phased(s.board, g, Leaving)), s.board.goes[g].runner);
  }

  lemma ThenReports(from: Site, s: Site, g: nat)
    requires from.Proper() && s.Proper() && Leads(from, s) && g < |s.board.goes| && s.board.goes[g].phase.Reporting?
    requires Counts(s, s.board.goes[g].runner) && s.board.made[s.board.goes[g].runner].Faulted()
    ensures var t := AfterReporting(s, g, s.board.goes[g].phase.why);
            t.Proper() && Leads(from, t)
  {
    ReportsIt(s, g);
    Then(from, s, Goes(g));
  }

  /** A replacement that dropped one source, which is gone, and starts nothing. */
  predicate DroppedOne(s: Site, r: nat, begun: bool)
    requires s.Proper()
  {
    s.replacing == Busy([r], [], 0, Join, begun) && r < |s.board.made| && Done(s.board, r)
  }

  lemma Joins(s: Site, r: nat, begun: bool)
    requires s.Proper() && DroppedOne(s, r, begun)
    ensures Next(Next(s, Onward), Onward) == s.(replacing := Busy([r], [], 0, Look, begun))
  {
    assert Next(s, Onward) == s.(replacing := Busy([r], [], 1, Join, begun));
  }

  lemma Returns(s: Site, r: nat, begun: bool)
    requires s.Proper() && s.replacing == Busy([r], [], 1, Look, begun)
    ensures Next(s, Onward) == s.(replacing := Idle, log := s.log + [Returned([r])])
  {
    assert AllStarted(s.board, []) == s.board;
  }

  lemma ThenLookedAt(from: Site, s: Site, r: nat, begun: bool)
    requires from.Proper() && s.Proper() && Leads(from, s) && DroppedOne(s, r, begun)
    ensures var t := s.(replacing := Busy([r], [], 0, Look, begun));
            t.Proper() && Leads(from, t)
  {
    Joins(s, r, begun);
    Then(from, s, Onward);
    Then(from, Next(s, Onward), Onward);
  }

  lemma ThenFinish(from: Site, s: Site, r: nat, begun: bool)
    requires from.Proper() && s.Proper() && Leads(from, s) && s.replacing == Busy([r], [], 1, Look, begun)
    ensures var t := s.(replacing := Idle, log := s.log + [Returned([r])]);
            t.Proper() && Leads(from, t)
  {
    Returns(s, r, begun);
    Then(from, s, Onward);
  }

  lemma LooksPast(s: Site, r: nat, begun: bool)
    requires s.Proper() && s.replacing == Busy([r], [], 0, Look, begun) && r < |s.board.made|
    requires !s.board.made[r].Faulted()
    ensures Next(s, Onward) == s.(replacing := Busy([r], [], 1, Look, begun))
  {
  }

  lemma ThenLooksPast(from: Site, s: Site, r: nat, begun: bool)
    requires from.Proper() && s.Proper() && Leads(from, s) && DroppedOne(s, r, begun) && !s.board.made[r].Faulted()
    ensures var t := s.(replacing := Busy([r], [], 1, Look, begun));
            t.Proper() && Leads(from, t)
  {
    ThenLookedAt(from, s, r, begun);
    var look := s.(replacing := Busy([r], [], 0, Look, begun));
    LooksPast(look, r, begun);
    Then(from, look, Onward);
  }

  /** It left no fault: the replacement returns. */
  lemma ThenReturn(from: Site, s: Site, r: nat, begun: bool)
    requires from.Proper() && s.Proper() && Leads(from, s) && DroppedOne(s, r, begun) && !s.board.made[r].Faulted()
    ensures var t := s.(replacing := Idle, log := s.log + [Returned([r])]);
            t.Proper() && Leads(from, t)
  {
    ThenLooksPast(from, s, r, begun);
    ThenFinish(from, s.(replacing := Busy([r], [], 1, Look, begun)), r, begun);
  }

  lemma LooksThenTests(s: Site, r: nat, begun: bool)
    requires s.Proper() && r < |s.board.made| && s.board.made[r].Faulted()
    requires !WatchedAndFaulted(s.board, s.board.made[r].src.name)
    ensures var look := s.(replacing := Busy([r], [], 0, Look, begun));
            var test := s.(replacing := Busy([r], [], 0, Test, begun));
            && look.Proper() && Next(look, Onward) == test
            && Next(test, Onward) == s.(replacing := Busy([r], [], 0, Resolve, begun))
  {
  }

  /** It left one, and nobody else reports: its resolve is due. */
  lemma ThenResolveIsDue(from: Site, s: Site, r: nat, begun: bool)
    requires from.Proper() && s.Proper() && Leads(from, s) && DroppedOne(s, r, begun) && s.board.made[r].Faulted()
    requires !WatchedAndFaulted(s.board, s.board.made[r].src.name)
    ensures var t := s.(replacing := Busy([r], [], 0, Resolve, begun));
            t.Proper() && Leads(from, t)
  {
    ThenLookedAt(from, s, r, begun);
    LooksThenTests(s, r, begun);
    Then(from, s.(replacing := Busy([r], [], 0, Look, begun)), Onward);
    Then(from, s.(replacing := Busy([r], [], 0, Test, begun)), Onward);
  }

  lemma NobodyReports(s: Site, t: Site, name: string)
    requires s.Proper() && t.Proper() && Settled(s) && |t.board.goes| == |s.board.goes|
    requires t.replacing.Idle? && t.check.Resting?
    requires forall k :: 0 <= k < |s.board.goes| && t.board.goes[k].phase.Reporting? ==>
               s.board.goes[k].phase.Reporting?
    ensures !Due(t, name)
  {
    if k: nat :| FailureDue(t, k, name) {
      assert FailureDue(s, k, s.board.made[s.board.goes[k].runner].src.name);
      assert Due(s, s.board.made[s.board.goes[k].runner].src.name);
    }
  }

  lemma StaysSettled(s: Site, t: Site)
    requires s.Proper() && t.Proper() && Settled(s) && |t.board.goes| == |s.board.goes|
    requires t.replacing.Idle? && t.check.Resting?
    requires forall k :: 0 <= k < |s.board.goes| && t.board.goes[k].phase.Reporting? ==>
               s.board.goes[k].phase.Reporting?
    ensures Settled(t)
  {
    forall n
      ensures !Due(t, n)
    {
      NobodyReports(s, t, n);
    }
  }

  // ---- One source, dropped while the deadman holds its copy of the list ----------------

  /** This goroutine serves for the record, which knows it. */
  predicate ServesFor(s: Site, r: nat, g: nat)
    requires s.Proper() && r < |s.board.made|
  {
    && s.board.made[r].go == Some(g) && g < |s.board.goes| && g !in s.board.closed
    && s.board.goes[g].runner == r && s.board.goes[g].phase == Serving
  }

  /** The only source running serves, as the goroutine last started for it, and has
      no fault. */
  predicate OneServes(s: Site, r: nat, g: nat)
    requires s.Proper()
  {
    && s.replacing.Idle? && s.board.began && !s.board.stopped && !s.board.crashed
    && s.board.running == [r] && r < |s.board.made| && !s.board.made[r].Faulted() && ServesFor(s, r, g)
  }

  /** A supervisor built over one source is such a one once Run has begun. */
  lemma OneServesOnceBegun(s: Site)
    requires Fresh(s) && s.Proper() && |s.board.made| == 1
    ensures exists t: Site :: t.Proper() && Leads(s, t) && Settled(t) && t.check.Resting? && OneServes(t, 0, 0)
  {
    Here(s);
    ThenBegun(s, s, 0);
    var t := s.(board := Started(s.board.(began := true), 0));
    assert OneServes(t, 0, 0);
  }

  lemma DropsTheOne(b: Board, r: nat, g: nat, now: Time)
    requires b.Proper() && b.running == [r] && r < |b.made| && b.made[r].go == Some(g)
    ensures Swapped(b, [], now) 
            == Change(b.(goes := b.goes[g := b.goes[g].(told := true)], running := []), [r], [])
  {
    assert [r][..0] == [];
    assert Chosen(b, [], now) == Choice(b.made, [], []);
    assert Dropped([r], []) == Dropped([], []) + [r];
    assert AllTold(b.made, b.goes, [r]) == Told(b.made, AllTold(b.made, b.goes, []), r);
  }

  /** The only source running, with the goroutine that its record knows. */
  predicate OnlyOne(s: Site, r: nat, g: nat)
    requires s.Proper()
  {
    && s.replacing.Idle? && s.board.began && !s.board.stopped && !s.board.crashed
    && s.board.running == [r] && r < |s.board.made| && s.board.made[r].go == Some(g) && g < |s.board.goes|
  }

  function Dropping(s: Site, r: nat, g: nat): Site
    requires s.Proper() && OnlyOne(s, r, g)
  {
    var b := s.board;
    s.(board := b.(goes := b.goes[g := b.goes[g].(told := true)], running := []),
       replacing := Busy([r], [], 0, Join, true))
  }

  lemma ItIsDropped(from: Site, s: Site, r: nat, g: nat, now: Time)
    requires from.Proper() && s.Proper() && Leads(from, s) && OnlyOne(s, r, g)
    ensures Dropping(s, r, g).Proper() && Leads(from, Dropping(s, r, g))
  {
    DropsTheOne(s.board, r, g, now);
    Then(from, s, Swap([], now));
  }

  /** Dropped, told, and gone, and the replacement has returned. */
  function DroppedFor(s: Site, r: nat, g: nat): Site
    requires s.Proper() && OneServes(s, r, g)
  {
    var b := s.board;
    s.(board := b.(goes := b.goes[g := Go(r, Gone, true)], running := [], live := b.live - {r},
                   closed := b.closed + {g}),
       log := s.log + [Returned([r])])
  }

  lemma TheReplacementReturns(from: Site, s: Site, r: nat, g: nat)
    requires from.Proper() && s.Proper() && Leads(from, s) && OneServes(s, r, g)
    ensures DroppedFor(s, r, g).Proper() && Leads(from, DroppedFor(s, r, g))
  {
    ItIsDropped(from, s, r, g, 0);
    ThenGo(from, Dropping(s, r, g), g);
    var t := AfterGoing(Dropping(s, r, g), g);
    assert t.board == DroppedFor(s, r, g).board;
    ThenReturn(from, t, r, true);
    assert t.(replacing := Idle, log := t.log + [Returned([r])]) == DroppedFor(s, r, g);
  }

  lemma TheListIsCopied(s: Site, r: nat, g: nat, now: Time)
    requires s.Proper() && OneServes(s, r, g) && s.check.Resting?
    ensures var t := s.(check := Looking(now, [r]));
            t.Proper() && Leads(s, t) && OneServes(t, r, g)
  {
    Here(s);
    Then(s, s, CheckBegins(now));
  }

  function FoundSilent(s: Site, r: nat, g: nat, now: Time): Site
    requires s.Proper() && OneServes(s, r, g)
  {
    var t := DroppedFor(s, r, g);
    t.(board := t.board.(made := t.board.made[r := t.board.made[r].(silent := true)]), check := Telling(now, [r], true))
  }

  lemma TheDeadmanFindsItSilent(s: Site, r: nat, g: nat, now: Time, window: Duration)
    requires s.Proper() && OneServes(s, r, g) && s.check.Resting?
    requires 0 < window < now - s.board.made[r].lastEventAt
    ensures FoundSilent(s, r, g, now).Proper() && Leads(s, FoundSilent(s, r, g, now))
  {
    TheListIsCopied(s, r, g, now);
    var copied := s.(check := Looking(now, [r]));
    TheReplacementReturns(s, copied, r, g);
    ThenLook(s, DroppedFor(copied, r, g), window, None);
    assert AfterLook(DroppedFor(copied, r, g), window, None) == FoundSilent(s, r, g, now);
  }

  lemma NobodyRunsThere(t: Site, name: string)
    requires t.Proper() && t.replacing.Idle? && t.board.running == []
    ensures !Faulty(t, name)
  {
  }

  /** From any such supervisor at rest: the source is dropped while the deadman
      holds its copy of the list, and found silent after the replacement
      returned. Its incident is open, nothing runs under its name, and no later
      look will see it. */
  lemma ADroppedSourceCanBeRaised(s: Site, r: nat, g: nat, now: Time, window: Duration)
    requires s.Proper() && Settled(s) && OneServes(s, r, g) && s.check.Resting?
    requires 0 < window < now - s.board.made[r].lastEventAt
    ensures exists t: Site :: t.Proper() && Leads(s, t)
              && Settled(t) && t.board.running == [] && s.board.made[r].src.name in t.open
              && t.log == s.log + [Returned([r]), Report(Deadman(r), s.board.made[r].src.name, true, false)]
  {
    TheDeadmanFindsItSilent(s, r, g, now, window);
    var t, name := FoundSilent(s, r, g, now), s.board.made[r].src.name;
    NobodyRunsThere(t, name);
    ThenTell(s, t, false);
    var told := t.(check := Looking(now, []), open := t.open + {name},
                   log := t.log + [Report(Deadman(r), name, true, false)]);
    ThenRest(s, told);
    var end := told.(check := Resting);
    StaysSettled(s, end);
  }

  // ---- One source, failing while the deadman looks at it ---------------------------------

  /** The only source running is silent, and otherwise well. */
  predicate OneIsSilent(s: Site, r: nat, g: nat)
    requires s.Proper()
  {
    && s.replacing.Idle? && s.check.Resting? && s.board.began && !s.board.stopped && !s.board.crashed && !s.board.over
    && s.board.running == [r] && r < |s.board.made| && s.board.made[r].silent && s.board.made[r].fatal == ""
    && ServesFor(s, r, g) && !s.board.goes[g].told
    && forall h :: 0 <= h < |s.board.goes| && s.board.goes[h].runner == r && h != g ==> s.board.goes[h].phase.Gone?
  }

  /** The deadman has seen that nothing was recorded against it. */
  function FirstLookTaken(s: Site, r: nat, now: Time, window: Duration): Site
    requires r < |s.board.made|
  {
    s.(check := Looked(now, [r], window, s.board.made[r].lastEventAt))
  }

  lemma TheFirstLookIsTaken(s: Site, r: nat, g: nat, now: Time, window: Duration)
    requires s.Proper() && OneIsSilent(s, r, g) && window > 0
    ensures FirstLookTaken(s, r, now, window).Proper() && Leads(s, FirstLookTaken(s, r, now, window))
  {
    Here(s);
    Then(s, s, CheckBegins(now));
    var looking := s.(check := Looking(now, [r]));
    assert Next(s, CheckBegins(now)) == looking;
    Then(s, looking, Looks(window));
  }

  /** Now its run breaks, and that is recorded and reported. */
  function FailedMeanwhile(s: Site, r: nat, g: nat, now: Time, window: Duration): Site
    requires s.Proper() && OneIsSilent(s, r, g)
  {
    AfterReporting(AfterBreaking(FirstLookTaken(s, r, now, window), g, "cannot run"), g, "cannot run")
  }

  lemma ItFailsMeanwhile(s: Site, r: nat, g: nat, now: Time, window: Duration)
    requires s.Proper() && OneIsSilent(s, r, g) && window > 0
    ensures FailedMeanwhile(s, r, g, now, window).Proper() && Leads(s, FailedMeanwhile(s, r, g, now, window))
  {
    TheFirstLookIsTaken(s, r, g, now, window);
    ThenBreaks(s, FirstLookTaken(s, r, now, window), g, "cannot run");
    ThenReports(s, AfterBreaking(FirstLookTaken(s, r, now, window), g, "cannot run"), g);
  }

  /** The deadman, which does not look at that again, finds that it was heard. */
  function FoundHeard(s: Site, r: nat, g: nat, now: Time, window: Duration): Site
    requires s.Proper() && OneIsSilent(s, r, g)
  {
    var t := FailedMeanwhile(s, r, g, now, window);
    t.(board := t.board.(made := t.board.made[r := t.board.made[r].(silent := false)]),
       check := Telling(now, [r], false))
  }

  lemma TheDeadmanFindsItHeard(s: Site, r: nat, g: nat, now: Time, window: Duration)
    requires s.Proper() && OneIsSilent(s, r, g) && window > 0
    ensures FoundHeard(s, r, g, now, window).Proper() && Leads(s, FoundHeard(s, r, g, now, window))
  {
    ItFailsMeanwhile(s, r, g, now, window);
    var t := FailedMeanwhile(s, r, g, now, window);
    assert LastHeard(s.board.made[r].lastEventAt, Some(now)) >= now;
    ThenJudged(s, t, Some(now));
    assert Checked(t, Judges(Some(now))) == FoundHeard(s, r, g, now, window);
  }

  function ClosedOver(s: Site, r: nat, g: nat, now: Time, window: Duration): Site
    requires s.Proper() && OneIsSilent(s, r, g)
  {
    var t, name := FoundHeard(s, r, g, now, window), s.board.made[r].src.name;
    t.(check := Resting, open := t.open - {name}, log := t.log + [Report(Deadman(r), name, false, false)])
  }

  lemma TheIncidentIsClosed(s: Site, r: nat, g: nat, now: Time, window: Duration)
    requires s.Proper() && OneIsSilent(s, r, g) && window > 0
    ensures ClosedOver(s, r, g, now, window).Proper() && Leads(s, ClosedOver(s, r, g, now, window))
  {
    TheDeadmanFindsItHeard(s, r, g, now, window);
    var t := FoundHeard(s, r, g, now, window);
    assert Counts(t, r) && t.board.made[r].Faulted();
    MarkedIsFaulty(t, r);
    ThenTell(s, t, false);
    ThenRest(s, ClosedOver(s, r, g, now, window).(check := Looking(now, [])));
  }

  lemma CannotRunThen(s: Site, r: nat, g: nat, now: Time, window: Duration)
    requires s.Proper() && OneIsSilent(s, r, g) && window > 0
    ensures ClosedOver(s, r, g, now, window).Proper() && CannotRun(ClosedOver(s, r, g, now, window), r)
  {
    TheIncidentIsClosed(s, r, g, now, window);
  }

  /** From any such supervisor at rest: the only source, silent, fails between the
      deadman's two turns on it, and has been heard from. The failure is reported,
      and then the incident is closed over a source that is running and cannot run;
      and the deadman never reports about it again (Misses.AFailedSourceIsPassedOver). */
  lemma ALookCanHideAFailure(s: Site, r: nat, g: nat, now: Time, window: Duration)
    requires s.Proper() && Settled(s) && OneIsSilent(s, r, g) && window > 0
    ensures exists t: Site :: t.Proper() && Leads(s, t)
              && Settled(t) && t.board.running == [r] && r < |t.board.made| && t.board.made[r].fatal == "cannot run"
              && CannotRun(t, r) && t.board.made[r].src.name !in t.open
              && t.log == s.log + [Report(Failure(r, "cannot run"), s.board.made[r].src.name, true, true),
                                   Report(Deadman(r), s.board.made[r].src.name, false, false)]
  {
    TheIncidentIsClosed(s, r, g, now, window);
    StaysSettled(s, ClosedOver(s, r, g, now, window));
    CannotRunThen(s, r, g, now, window);
  }

  // ---- Two sources of one name ------------------------------------------------------------

  /** The first is silent and the second is not; nothing else is under way. */
  predicate FirstIsSilent(s: Site, a: nat, g: nat, b: nat)
    requires s.Proper()
  {
    && s.replacing.Idle? && s.check.Resting? && s.board.began && !s.board.stopped && !s.board.crashed
    && s.board.running == [a, b] && a != b && a < |s.board.made| && b < |s.board.made|
    && s.board.made[a].src.name == s.board.made[b].src.name && s.board.made[a].silent && !s.board.made[b].Faulted()
    && ServesFor(s, a, g)
  }

  lemma DropsTheFirst(d: Board, a: nat, g: nat, b: nat, now: Time)
    requires d.Proper() && d.running == [a, b] && a != b && a < |d.made| && b < |d.made| && d.made[a].go == Some(g)
    ensures Swapped(d, [Some(d.made[b].src)], now)
            == Change(d.(goes := d.goes[g := d.goes[g].(told := true)], running := [b]), [a], [])
  {
    var next := [Some(d.made[b].src)];
    assert next[..0] == [] && [a][..0] == [] && [a, b][..1] == [a];
    assert Chosen(d, [], now) == Choice(d.made, [], []);
    assert Chosen(d, next, now) == Choice(d.made, [b], []);
    assert Dropped([a], [b]) == Dropped([], [b]) + [a];
    assert Dropped([a, b], [b]) == Dropped([a], [b]);
    assert AllTold(d.made, d.goes, [a]) == Told(d.made, AllTold(d.made, d.goes, []), a);
  }

  function FirstDropped(s: Site, a: nat, g: nat, b: nat): Site
    requires s.Proper() && FirstIsSilent(s, a, g, b)
  {
    var d := s.board;
    s.(board := d.(goes := d.goes[g := d.goes[g].(told := true)], running := [b]),
       replacing := Busy([a], [], 0, Join, true))
  }

  lemma TheFirstIsDropped(s: Site, a: nat, g: nat, b: nat)
    requires s.Proper() && FirstIsSilent(s, a, g, b)
    ensures FirstDropped(s, a, g, b).Proper() && Leads(s, FirstDropped(s, a, g, b))
  {
    Here(s);
    DropsTheFirst(s.board, a, g, b, 0);
    Then(s, s, Swap([Some(s.board.made[b].src)], 0));
  }

  /** It is gone, nobody else was found to report, and its resolve is due. */
  function AboutToResolve(s: Site, a: nat, g: nat, b: nat): Site
    requires s.Proper() && FirstIsSilent(s, a, g, b)
  {
    var d := s.board;
    s.(board := d.(goes := d.goes[g := Go(a, Gone, true)], running := [b], live := d.live - {a},
                   closed := d.closed + {g}),
       replacing := Busy([a], [], 0, Resolve, true))
  }

  lemma NobodyElseIsFound(s: Site, a: nat, g: nat, b: nat)
    requires s.Proper() && FirstIsSilent(s, a, g, b)
    ensures AboutToResolve(s, a, g, b).Proper() && Leads(s, AboutToResolve(s, a, g, b))
  {
    TheFirstIsDropped(s, a, g, b);
    ThenGo(s, FirstDropped(s, a, g, b), g);
    var t := AfterGoing(FirstDropped(s, a, g, b), g);
    assert t.board == AboutToResolve(s, a, g, b).board;
    ThenResolveIsDue(s, t, a, true);
    assert t.(replacing := Busy([a], [], 0, Resolve, true)) == AboutToResolve(s, a, g, b);
  }

  /** Now the second falls silent. */
  function BothSilent(s: Site, a: nat, g: nat, b: nat, now: Time): Site
    requires s.Proper() && FirstIsSilent(s, a, g, b)
  {
    var t := AboutToResolve(s, a, g, b);
    t.(board := t.board.(made := t.board.made[b := t.board.made[b].(silent := true)]), check := Telling(now, [b], true))
  }

  lemma TheSecondFallsSilent(s: Site, a: nat, g: nat, b: nat, now: Time, window: Duration)
    requires s.Proper() && FirstIsSilent(s, a, g, b) && 0 < window < now - s.board.made[b].lastEventAt
    ensures BothSilent(s, a, g, b, now).Proper() && Leads(s, BothSilent(s, a, g, b, now))
  {
    NobodyElseIsFound(s, a, g, b);
    var t := AboutToResolve(s, a, g, b);
    Then(s, t, CheckBegins(now));
    var looking := t.(check := Looking(now, [b]));
    assert Next(t, CheckBegins(now)) == looking;
    ThenLook(s, looking, window, None);
    assert AfterLook(looking, window, None) == BothSilent(s, a, g, b, now);
  }

  lemma TheSecondIsFaulty(t: Site, b: nat)
    requires t.Proper() && t.board.running == [b] && b < |t.board.made| && t.board.made[b].silent
    ensures Faulty(t, t.board.made[b].src.name)
  {
    assert b in t.board.running;
    MarkedIsFaulty(t, b);
  }

  function Raised(s: Site, a: nat, g: nat, b: nat, now: Time): Site
    requires s.Proper() && FirstIsSilent(s, a, g, b)
  {
    var t, name := BothSilent(s, a, g, b, now), s.board.made[b].src.name;
    t.(check := Resting, open := t.open + {name}, log := t.log + [Report(Deadman(b), name, true, true)])
  }

  lemma ItsIncidentIsRaised(s: Site, a: nat, g: nat, b: nat, now: Time, window: Duration)
    requires s.Proper() && FirstIsSilent(s, a, g, b) && 0 < window < now - s.board.made[b].lastEventAt
    ensures Raised(s, a, g, b, now).Proper() && Leads(s, Raised(s, a, g, b, now))
  {
    TheSecondFallsSilent(s, a, g, b, now, window);
    TheSecondIsFaulty(BothSilent(s, a, g, b, now), b);
    ThenTell(s, BothSilent(s, a, g, b, now), true);
    ThenRest(s, Raised(s, a, g, b, now).(check := Looking(now, [])));
  }

  lemma Resolves(s: Site, a: nat, begun: bool, fits: bool)
    requires s.Proper() && s.replacing == Busy([a], [], 0, Resolve, begun)
    requires a < |s.board.made| && fits == !Faulty(s, s.board.made[a].src.name)
    ensures var name := s.board.made[a].src.name;
            Replaced(s) == s.(replacing := Busy([a], [], 1, Look, begun), open := s.open - {name},
                              log := s.log + [Report(Replacing(a), name, false, fits)])
  {
    SameFaulty(s, s.(replacing := Busy([a], [], 1, Look, begun)), s.board.made[a].src.name);
  }

  /** Whatever is due is resolved ... */
  lemma ThenResolve(from: Site, s: Site, a: nat, begun: bool, fits: bool)
    requires from.Proper() && s.Proper() && Leads(from, s) && s.replacing == Busy([a], [], 0, Resolve, begun)
    requires a < |s.board.made| && fits == !Faulty(s, s.board.made[a].src.name)
    ensures var name := s.board.made[a].src.name;
            var t := s.(replacing := Busy([a], [], 1, Look, begun), open := s.open - {name},
                        log := s.log + [Report(Replacing(a), name, false, fits)]);
            t.Proper() && Leads(from, t)
  {
    Resolves(s, a, begun, fits);
    Then(from, s, Onward);
  }

  /** ... and the replacement returns. */
  lemma ThenResolved(from: Site, s: Site, a: nat, begun: bool, fits: bool)
    requires from.Proper() && s.Proper() && Leads(from, s) && s.replacing == Busy([a], [], 0, Resolve, begun)
    requires a < |s.board.made| && fits == !Faulty(s, s.board.made[a].src.name)
    ensures var name := s.board.made[a].src.name;
            var t := s.(replacing := Idle, open := s.open - {name},
                        log := s.log + [Report(Replacing(a), name, false, fits)] + [Returned([a])]);
            t.Proper() && Leads(from, t)
  {
    ThenResolve(from, s, a, begun, fits);
    var name := s.board.made[a].src.name;
    var t := s.(replacing := Busy([a], [], 1, Look, begun), open := s.open - {name},
                log := s.log + [Report(Replacing(a), name, false, fits)]);
    ThenFinish(from, t, a, begun);
  }

  function ResolvedAll(s: Site, a: nat, g: nat, b: nat, now: Time): Site
    requires s.Proper() && FirstIsSilent(s, a, g, b)
  {
    var t, name := Raised(s, a, g, b, now), s.board.made[b].src.name;
    t.(replacing := Idle, open := t.open - {name},
       log := t.log + [Report(Replacing(a), name, false, false)] + [Returned([a])])
  }

  lemma TheResolveLands(s: Site, a: nat, g: nat, b: nat, now: Time, window: Duration)
    requires s.Proper() && FirstIsSilent(s, a, g, b) && 0 < window < now - s.board.made[b].lastEventAt
    ensures ResolvedAll(s, a, g, b, now).Proper() && Leads(s, ResolvedAll(s, a, g, b, now))
  {
    ItsIncidentIsRaised(s, a, g, b, now, window);
    var t := Raised(s, a, g, b, now);
    TheSecondIsFaulty(t, b);
    ThenResolved(s, t, a, true, false);
  }

  /** From any such supervisor at rest: a replacement drops the silent one of two
      namesakes, finds the other without a fault, and before it resolves, the
      other falls silent and is raised. The resolve closes the incident they
      share: the other runs on silent, and its edge is already taken. */
  lemma AResolveCanHideAFault(s: Site, a: nat, g: nat, b: nat, now: Time, window: Duration)
    requires s.Proper() && Settled(s) && FirstIsSilent(s, a, g, b)
    requires 0 < window < now - s.board.made[b].lastEventAt
    ensures exists t: Site :: t.Proper() && Leads(s, t)
              && Settled(t) && t.board.running == [b] && b < |t.board.made| && t.board.made[b].silent
              && t.board.made[b].src.name !in t.open
              && t.log == s.log + [Report(Deadman(b), s.board.made[b].src.name, true, true),
                                   Report(Replacing(a), s.board.made[b].src.name, false, false), Returned([a])]
  {
    TheResolveLands(s, a, g, b, now, window);
    StaysSettled(s, ResolvedAll(s, a, g, b, now));
  }

  /** Both are silent, and nothing is under way. */
  predicate BothAreSilent(s: Site, a: nat, b: nat)
    requires s.Proper()
  {
    && s.replacing.Idle? && s.check.Resting? && s.board.began && !s.board.stopped && !s.board.crashed
    && s.board.running == [a, b] && a != b && a < |s.board.made| && b < |s.board.made|
    && s.board.made[a].src.name == s.board.made[b].src.name && s.board.made[a].silent && s.board.made[b].silent
    && s.board.made[a].fatal == "" && s.board.made[b].fatal == ""
  }

  function Recovered(s: Site, a: nat, b: nat, now: Time): Site
    requires s.Proper() && BothAreSilent(s, a, b)
  {
    s.(board := s.board.(made := s.board.made[a := s.board.made[a].(silent := false)]),
       check := Telling(now, [a, b], false))
  }

  lemma TheFirstIsHeard(s: Site, a: nat, b: nat, now: Time, window: Duration)
    requires s.Proper() && BothAreSilent(s, a, b) && window > 0
    ensures Recovered(s, a, b, now).Proper() && Leads(s, Recovered(s, a, b, now))
  {
    Here(s);
    Then(s, s, CheckBegins(now));
    var looking := s.(check := Looking(now, [a, b]));
    assert Next(s, CheckBegins(now)) == looking;
    ThenLook(s, looking, window, Some(now));
    assert LastHeard(s.board.made[a].lastEventAt, Some(now)) >= now;
    assert AfterLook(looking, window, Some(now)) == Recovered(s, a, b, now);
  }

  lemma TheOtherStaysSilent(s: Site, t: Site, a: nat, b: nat, now: Time, window: Duration)
    requires s.Proper() && t.Proper() && Leads(s, t) && t.check == Looking(now, [b])
    requires b < |t.board.made| && t.board.made[b].silent && t.board.made[b].fatal == ""
    requires 0 < window < now - t.board.made[b].lastEventAt
    ensures t.(check := Resting).Proper() && Leads(s, t.(check := Resting))
  {
    ThenLook(s, t, window, None);
    assert AfterLook(t, window, None) == t.(check := Looking(now, [])) by {
      assert t.board.made[b := t.board.made[b].(silent := true)] == t.board.made;
    }
    ThenRest(s, t.(check := Looking(now, [])));
  }

  /** From any such supervisor at rest: one of two silent namesakes is heard again.
      The deadman closes the incident they share, and taking a look at the other,
      which stays silent, does not open it again. */
  lemma ARecoveryCanHideAFault(s: Site, a: nat, b: nat, now: Time, window: Duration)
    requires s.Proper() && Settled(s) && BothAreSilent(s, a, b)
    requires 0 < window < now - s.board.made[b].lastEventAt
    ensures exists t: Site :: t.Proper() && Leads(s, t)
              && Settled(t) && t.board.running == [a, b] && b < |t.board.made| && t.board.made[b].silent
              && t.board.made[b].src.name !in t.open
              && t.log == s.log + [Report(Deadman(a), s.board.made[a].src.name, false, false)]
  {
    TheFirstIsHeard(s, a, b, now, window);
    var t, name := Recovered(s, a, b, now), s.board.made[a].src.name;
    assert b in t.board.running && t.board.made[b].Faulted();
    MarkedIsFaulty(t, b);
    ThenTell(s, t, false);
    var told := t.(check := Looking(now, [b]), open := t.open - {name},
                   log := t.log + [Report(Deadman(a), name, false, false)]);
    TheOtherStaysSilent(s, told, a, b, now, window);
    var end := told.(check := Resting);
    StaysSettled(s, end);
  }

  /** Another running source of this one's name is faulted. */
  ghost predicate NamesakeFaulted(s: Site, r: nat)
    requires s.Proper() && r < |s.board.made|
  {
    exists i :: 0 <= i < |s.board.running| && s.board.running[i] != r
                && RunsFaulted(s.board, i, s.board.made[r].src.name)
  }

  predicate RunsFaulted(b: Board, i: nat, name: string)
    requires b.Proper() && i < |b.running|
  {
    b.made[b.running[i]].src.name == name && b.made[b.running[i]].Faulted()
  }

  /** What the deadman has done with the first source left once it has looked and
      told, nobody else coming in between. */
  ghost function AfterOne(s: Site, window: Duration, contact: Option<Time>): Site
    requires s.Proper() && s.check.Looking? && s.check.left != []
  {
    var t := AfterLook(s, window, contact);
    if t.check.Telling? then Next(t, Tells) else t
  }

  lemma OtherNamesSeeNothing(s: Site, t: Site, r: nat, name: string)
    requires s.Proper() && t.Proper() && r < |s.board.made| && r < |t.board.made| && name != s.board.made[r].src.name
    requires t.board == s.board.(made := s.board.made[r := s.board.made[r].(silent := t.board.made[r].silent)])
    ensures WatchedAndFaulted(t.board, name) <==> WatchedAndFaulted(s.board, name)
  {
    forall i | 0 <= i < |s.board.running|
      ensures RunsFaulted(t.board, i, name) <==> RunsFaulted(s.board, i, name)
    {
    }
    if i: nat :| i < |s.board.running| && RunsFaulted(s.board, i, name) {
      assert RunsFaulted(t.board, i, name);
    }
    if i: nat :| i < |s.board.running| && RunsFaulted(t.board, i, name) {
      assert RunsFaulted(s.board, i, name);
    }
  }

  lemma ItsOwnNameSees(s: Site, t: Site, r: nat)
    requires s.Proper() && t.Proper() && r < |s.board.made| && r < |t.board.made|
    requires r in s.board.running && s.board.made[r].fatal == ""
    requires t.board == s.board.(made := s.board.made[r := s.board.made[r].(silent := t.board.made[r].silent)])
    ensures WatchedAndFaulted(t.board, s.board.made[r].src.name)
            <==> t.board.made[r].silent || NamesakeFaulted(s, r)
  {
    var name := s.board.made[r].src.name;
    if t.board.made[r].silent {
      var i :| 0 <= i < |s.board.running| && s.board.running[i] == r;
      assert RunsFaulted(t.board, i, name);
    }
    if i: nat :| i < |s.board.running| && s.board.running[i] != r && RunsFaulted(s.board, i, name) {
      assert RunsFaulted(t.board, i, name);
    }
    if i: nat :| i < |s.board.running| && RunsFaulted(t.board, i, name) {
      assert s.board.running[i] != r ==> RunsFaulted(s.board, i, name);
    }
  }

  lemma WhatOneLookDoes(s: Site, window: Duration, contact: Option<Time>)
    requires s.Proper() && s.check.Looking? && s.check.left != []
    ensures var r := s.check.left[0];
            var u, t := AfterLook(s, window, contact), AfterOne(s, window, contact);
            var name := s.board.made[r].src.name;
            && t.Proper() && t.board == u.board
            && t.open == (if !u.check.Telling? then s.open
                          else if u.check.raise then s.open + {name} else s.open - {name})
  {
  }

  /** Exactly when the deadman's look at one running source keeps the incidents
      true, if nobody comes in between: unless it hears again a source of which a
      namesake is still faulted. */
  lemma ALookKeepsTruthExactlyWhen(s: Site, window: Duration, contact: Option<Time>)
    requires s.Proper() && s.check.Looking? && s.check.left != [] && s.check.left[0] in s.board.running
    requires s.board.made[s.check.left[0]].fatal == "" && Truthful(s)
    ensures AfterOne(s, window, contact).Proper()
    ensures var u := AfterLook(s, window, contact);
            Truthful(AfterOne(s, window, contact))
            <==> !(u.check.Telling? && !u.check.raise && NamesakeFaulted(s, s.check.left[0]))
  {
    var r := s.check.left[0];
    var u, t := AfterLook(s, window, contact), AfterOne(s, window, contact);
    var name := s.board.made[r].src.name;
    WhatOneLookDoes(s, window, contact);
    ItsOwnNameSees(s, t, r);
    ItsOwnNameSees(s, s, r);
    forall n | n != name
      ensures n in t.open <==> WatchedAndFaulted(t.board, n)
    {
      OtherNamesSeeNothing(s, t, r, n);
    }
    assert Truthful(t) <==> (name in t.open <==> WatchedAndFaulted(t.board, name));
  }

  // ---- Run begins in the middle of a replacement ----------------------------------------

  /** Nothing is configured yet and Run has not begun. */
  function Empty(): Site {
    Site(Board([], [], [], {}, false, false, false, {}, false), Idle, Resting, None, {}, [])
  }

  function Listed(src: Source): Site {
    Empty().(board := Board([NewRunner(src, 0)], [], [0], {}, false, false, false, {}, false),
             replacing := Busy([], [0], 0, Join, false))
  }

  lemma TheListIsNew(src: Source)
    ensures Empty().board.Proper()
    ensures Swapped(Empty().board, [Some(src)], 0) == Change(Listed(src).board, [], [0])
  {
    var b, next := Empty().board, [Some(src)];
    assert next[..0] == [] && Chosen(b, [], 0) == Choice([], [], []);
    assert Chosen(b, next, 0) == Choice([NewRunner(src, 0)], [0], [0]);
  }

  lemma ItIsListed(src: Source)
    ensures Empty().Proper() && Listed(src).Proper() && Leads(Empty(), Listed(src))
  {
    TheListIsNew(src);
    Here(Empty());
    Then(Empty(), Empty(), Swap([Some(src)], 0));
  }

  lemma StartsOne(b: Board, r: nat)
    requires b.Proper() && r < |b.made|
    ensures AllStarted(b, [r]) == Started(b, r)
  {
    assert [r][..0] == [] && AllStarted(b, []) == b;
  }

  lemma ThenBegun(from: Site, s: Site, r: nat)
    requires from.Proper() && s.Proper() && Leads(from, s) && !s.board.began && s.board.running == [r]
    ensures r < |s.board.made|
    ensures var t := s.(board := Started(s.board.(began := true), r));
            t.Proper() && Leads(from, t)
  {
    assert s.board.running[0] == r;
    StartsOne(s.board.(began := true), r);
    Then(from, s, Begin);
  }

  lemma NothingToWaitFor(s: Site, r: nat, begun: bool)
    requires s.Proper() && s.replacing == Busy([], [r], 0, Join, begun)
    requires s.board.began && !s.board.stopped && r < |s.board.made|
    ensures var look := s.(replacing := Busy([], [r], 0, Look, begun));
            && Next(s, Onward) == look
            && Next(look, Onward)
               == s.(board := Started(s.board, r), replacing := Idle, log := s.log + [Returned([])])
  {
    StartsOne(s.board, r);
  }

  lemma ThenStarted(from: Site, s: Site, r: nat, begun: bool)
    requires from.Proper() && s.Proper() && Leads(from, s) && s.replacing == Busy([], [r], 0, Join, begun)
    requires s.board.began && !s.board.stopped && r < |s.board.made|
    ensures var t := s.(board := Started(s.board, r), replacing := Idle, log := s.log + [Returned([])]);
            t.Proper() && Leads(from, t)
  {
    NothingToWaitFor(s, r, begun);
    Then(from, s, Onward);
    Then(from, s.(replacing := Busy([], [r], 0, Look, begun)), Onward);
  }

  /** Run starts it, for it is on the list ... */
  function StartedByRun(src: Source): Site {
    Listed(src).(board := Board([Runner(src, 0, false, "", Some(0))], [Go(0, Serving, false)], [0], {0},
                                true, false, false, {}, false))
  }

  lemma RunsBoard(src: Source)
    ensures Listed(src).Proper()
    ensures Started(Listed(src).board.(began := true), 0) == StartedByRun(src).board
  {
  }

  lemma RunStartsIt(src: Source)
    ensures Empty().Proper() && StartedByRun(src).Proper() && Leads(Empty(), StartedByRun(src))
  {
    ItIsListed(src);
    RunsBoard(src);
    ThenBegun(Empty(), Listed(src), 0);
  }

  /** ... and the replacement starts it again. */
  function StartedTwice(src: Source): Site {
    Site(Board([Runner(src, 0, false, "", Some(1))], [Go(0, Serving, false), Go(0, Serving, false)], [0], {0},
               true, false, false, {}, false),
         Idle, Resting, None, {}, [Returned([])])
  }

  lemma ReplacementsBoard(src: Source)
    ensures StartedByRun(src).Proper()
    ensures Started(StartedByRun(src).board, 0) == StartedTwice(src).board
  {
  }

  lemma TheReplacementStartsItToo(src: Source)
    ensures Empty().Proper() && StartedTwice(src).Proper() && Leads(Empty(), StartedTwice(src))
  {
    RunStartsIt(src);
    ReplacementsBoard(src);
    ThenStarted(Empty(), StartedByRun(src), 0, false);
  }

  /** Run begins between the two turns of the first replacement, and the source has
      two goroutines, of which its record knows the later. The next replacement
      drops the source, waits for that one, and returns with the other serving
      on, never told to stop. */
  lemma ADroppedSourceCanServeOn(src: Source)
    ensures Empty().Proper()
    ensures exists t: Site :: t.Proper() && Leads(Empty(), t)
              && t.log == [Returned([]), Returned([0])] && t.board.running == []
              && t.board.goes == [Go(0, Serving, false), Go(0, Gone, true)]
  {
    TheReplacementStartsItToo(src);
    TheReplacementReturns(Empty(), StartedTwice(src), 0, 1);
    var t := DroppedFor(StartedTwice(src), 0, 1);
    assert t.log == [Returned([]), Returned([0])];
    assert t.board.goes == [Go(0, Serving, false), Go(0, Gone, true)];
  }

  // ---- A channel closed by the wrong goroutine ------------------------------------------

  /** The goroutine that Run started has failed and closed the channel of the one that
      the replacement started. */
  function FirstHasFailed(src: Source): Site {
    Site(Board([Runner(src, 0, false, "cannot run", Some(1))], [Go(0, Gone, false), Go(0, Serving, false)], [0], {},
               true, false, false, {1}, false),
         Idle, Resting, None, {src.name},
         [Returned([]), Report(Failure(0, "cannot run"), src.name, true, true)])
  }

  function FirstHasReported(src: Source): Site
    requires StartedTwice(src).Proper() && AfterBreaking(StartedTwice(src), 0, "cannot run").Proper()
  {
    AfterReporting(AfterBreaking(StartedTwice(src), 0, "cannot run"), 0, "cannot run")
  }

  lemma TheFirstReports(src: Source)
    ensures Empty().Proper() && StartedTwice(src).Proper() && AfterBreaking(StartedTwice(src), 0, "cannot run").Proper()
    ensures FirstHasReported(src).Proper() && Leads(Empty(), FirstHasReported(src))
  {
    TheReplacementStartsItToo(src);
    ThenBreaks(Empty(), StartedTwice(src), 0, "cannot run");
    ThenReports(Empty(), AfterBreaking(StartedTwice(src), 0, "cannot run"), 0);
  }

  lemma TheFirstsBoard(src: Source)
    ensures StartedTwice(src).Proper() && AfterBreaking(StartedTwice(src), 0, "cannot run").Proper()
    ensures FirstHasReported(src).Proper() && AfterGoing(FirstHasReported(src), 0) == FirstHasFailed(src)
  {
    assert FirstHasReported(src).log == FirstHasFailed(src).log;
    assert AfterGoing(FirstHasReported(src), 0).board == FirstHasFailed(src).board;
  }

  lemma TheFirstFails(src: Source)
    ensures Empty().Proper() && FirstHasFailed(src).Proper() && Leads(Empty(), FirstHasFailed(src))
  {
    TheFirstReports(src);
    TheFirstsBoard(src);
    ThenGone(Empty(), FirstHasReported(src), 0);
  }

  function SecondDropped(src: Source): Site {
    FirstHasFailed(src).(board := Board([Runner(src, 0, false, "cannot run", Some(1))],
                                        [Go(0, Gone, false), Go(0, Serving, true)], [], {},
                                        true, false, false, {1}, false),
                         replacing := Busy([0], [], 0, Join, true))
  }

  lemma WhatTheSecondIs(src: Source)
    ensures FirstHasFailed(src).Proper() && OnlyOne(FirstHasFailed(src), 0, 1)
    ensures Dropping(FirstHasFailed(src), 0, 1) == SecondDropped(src)
  {
    assert Dropping(FirstHasFailed(src), 0, 1).board == SecondDropped(src).board;
  }

  lemma TheSecondIsDropped(src: Source)
    ensures Empty().Proper() && SecondDropped(src).Proper() && Leads(Empty(), SecondDropped(src))
  {
    TheFirstFails(src);
    WhatTheSecondIs(src);
    ItIsDropped(Empty(), FirstHasFailed(src), 0, 1, 0);
  }

  function SecondDue(src: Source): Site {
    SecondDropped(src).(replacing := Busy([0], [], 0, Resolve, true))
  }

  lemma ItsResolveIsDue(src: Source)
    ensures Empty().Proper() && SecondDue(src).Proper() && Leads(Empty(), SecondDue(src))
  {
    TheSecondIsDropped(src);
    ThenResolveIsDue(Empty(), SecondDropped(src), 0, true);
  }

  function ReturnedEarly(src: Source): Site {
    SecondDropped(src).(replacing := Idle, open := {},
                        log := [Returned([]), Report(Failure(0, "cannot run"), src.name, true, true),
                                Report(Replacing(0), src.name, false, true), Returned([0])])
  }

  lemma NobodyCounts(src: Source)
    ensures SecondDue(src).Proper() && !Faulty(SecondDue(src), src.name)
  {
    assert Unsettled(SecondDue(src)) == [];
  }

  lemma TheChannelIsClosedAlready(src: Source)
    ensures Empty().Proper() && ReturnedEarly(src).Proper() && Leads(Empty(), ReturnedEarly(src))
  {
    ItsResolveIsDue(src);
    NobodyCounts(src);
    ThenResolved(Empty(), SecondDue(src), 0, true, true);
  }

  /** After a start twice the replacement that drops the source can find its channel
      closed by the earlier goroutine, and return while the one it told to stop is
      still at work. */
  lemma AReplacementCanReturnTooEarly(src: Source)
    ensures Empty().Proper()
    ensures exists t: Site :: t.Proper() && Leads(Empty(), t)
              && t.log == [Returned([]), Report(Failure(0, "cannot run"), src.name, true, true),
                           Report(Replacing(0), src.name, false, true), Returned([0])]
              && t.board.running == [] && t.board.goes == [Go(0, Gone, false), Go(0, Serving, true)]
  {
    TheChannelIsClosedAlready(src);
  }

  function SecondHasLeft(src: Source): Site {
    ReturnedEarly(src).(board := ReturnedEarly(src).board.(goes := [Go(0, Gone, false), Go(0, Left, true)]))
  }

  lemma TheSecondsMoves(src: Source)
    ensures var s := ReturnedEarly(src);
            && s.Proper() && Moved(s, 1) == s.(board := Phased(s.board, 1, Leaving))
            && Moved(Moved(s, 1), 1) == SecondHasLeft(src)
  {
    assert Moved(Moved(ReturnedEarly(src), 1), 1).board == SecondHasLeft(src).board;
  }

  lemma TheSecondLeaves(src: Source)
    ensures Empty().Proper() && SecondHasLeft(src).Proper() && Leads(Empty(), SecondHasLeft(src))
  {
    TheChannelIsClosedAlready(src);
    TheSecondsMoves(src);
    Then(Empty(), ReturnedEarly(src), Goes(1));
    Then(Empty(), Moved(ReturnedEarly(src), 1), Goes(1));
  }

  /** ... and when that one ends, it closes a closed channel, and the process comes
      down. */
  lemma ASecondCloseBringsTheProcessDown(src: Source)
    ensures Empty().Proper() && exists ls :: Exec(Empty(), ls).board.crashed
  {
    TheSecondLeaves(src);
    ToTheNext(Empty(), SecondHasLeft(src), Goes(1));
    assert Next(SecondHasLeft(src), Goes(1)).board.crashed;
  }
}
