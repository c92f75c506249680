/** Replacement, failure and the deadman at once: every turn at the lock, and every
    report between two turns, interleaved in any order. */
module Supervising {
  import opened Base
  import opened Supervision

  datatype Stage = Join | Look | Test | Resolve

  /** Where the one replacement at a time is. It awaits everything it dropped, in
      order; then, in order again, it looks whether each left a fault, tests
      whether another of its name reports one, and if not resolves; then it
      starts what is new. The count n is of those behind it at this stage;
      begun is whether Run had begun at its first turn. */
  datatype Replacement = Idle | Busy(removed: seq<nat>, started: seq<nat>, n: nat, stage: Stage, begun: bool)

  /** Where the deadman is on the list it copied: about to look at the first one
      left, between its two turns on that one, or about to report its edge. */
  datatype Check =
    | Resting
    | Looking(now: Time, left: seq<nat>)
    | Looked(now: Time, left: seq<nat>, window: Duration, last: Time)
    | Telling(now: Time, left: seq<nat>, raise: bool)

  datatype Teller = Failure(r: nat, why: string) | Deadman(r: nat) | Replacing(r: nat)

  /** What has happened. A report fits if it says what was so when it landed. */
  datatype Event =
    | Report(teller: Teller, name: string, raise: bool, fits: bool)
    | Returned(removed: seq<nat>)
    | RunReturned

  datatype Site = Site(
    board: Board, replacing: Replacement, check: Check, ending: Option<set<nat>>,
    open: set<string>, log: seq<Event>)
  {
    ghost predicate Proper() {
      && board.Proper()
      && (replacing.Busy? ==>
            && (forall i :: 0 <= i < |replacing.removed| ==> replacing.removed[i] < |board.made|)
            && (forall i :: 0 <= i < |replacing.started| ==> replacing.started[i] < |board.made|)
            && replacing.n <= |replacing.removed|
            && (replacing.stage.Test? || replacing.stage.Resolve? ==> replacing.n < |replacing.removed|))
      && (!check.Resting? ==> forall i :: 0 <= i < |check.left| ==> check.left[i] < |board.made|)
      && (check.Looked? || check.Telling? ==> check.left != [])
      && (ending.Some? ==> forall r :: r in ending.value ==> r < |board.made|)
    }
  }

  datatype Label =
    | Begin
    | Over
    | Stops
    | RunReturns
    | Swap(next: seq<Option<Source>>, now: Time)
    | Onward
    | Goes(g: nat)
    | Breaks(g: nat, why: string)
    | Hears(g: nat, now: Time)
    | CheckBegins(now: Time)
    | Looks(window: Duration)
    | Judges(contact: Option<Time>)
    | Tells

  // ---- What is so, and what is said ----------------------------------------------

  /** What a replacement dropped and has not dealt with yet. */
  function Unsettled(s: Site): seq<nat>
    requires s.Proper()
  {
    match s.replacing
    case Idle => []
    case Busy(removed, _, n, stage, _) =>
      match stage
      case Join => removed
      case Resolve => removed[n + 1..]
      case _ => removed[n..]
  }

  /** It runs, or was dropped and not dealt with yet. */
  predicate Counts(s: Site, r: nat)
    requires s.Proper()
  {
    r < |s.board.made| && (r in s.board.running || r in Unsettled(s))
  }

  /** A source of this name that counts is faulted. */
  predicate FaultOf(s: Site, r: nat, name: string)
    requires s.Proper()
  {
    && Counts(s, r) && s.board.made[r].src.name == name && s.board.made[r].Faulted()
  }

  ghost predicate Faulty(s: Site, name: string)
    requires s.Proper()
  {
    exists r :: FaultOf(s, r, name)
  }

  /** The engine is told, by name, and opens or closes that incident. */
  ghost function Reported(s: Site, teller: Teller, name: string, raise: bool): (t: Site)
    requires s.Proper()
    ensures t.Proper()
  {
    s.(open := if raise then s.open + {name} else s.open - {name},
       log := s.log + [Report(teller, name, raise, raise == Faulty(s, name))])
  }

  // ---- The steps -------------------------------------------------------------------

  /** The replacement's next step. */
  ghost function Replaced(s: Site): (t: Site)
    requires s.Proper() && s.replacing.Busy?
    ensures t.Proper()
  {
    var p, b := s.replacing, s.board;
    match p.stage
    case Join =>
      if p.n == |p.removed| then s.(replacing := p.(n := 0, stage := Look))
      else if Done(b, p.removed[p.n]) then s.(replacing := p.(n := p.n + 1))
      else s
    case Look =>
      if p.n == |p.removed| then
        s.(board := if b.began && !b.stopped then AllStarted(b, p.started) else b, replacing := Idle,
           log := s.log + [Returned(p.removed)])
      else if b.made[p.removed[p.n]].Faulted() then s.(replacing := p.(stage := Test))
      else s.(replacing := p.(n := p.n + 1))
    case Test =>
      if WatchedAndFaulted(b, b.made[p.removed[p.n]].src.name) then s.(replacing := p.(n := p.n + 1, stage := Look))
      else s.(replacing := p.(stage := Resolve))
    case Resolve =>
      var r := p.removed[p.n];
      Reported(s.(replacing := p.(n := p.n + 1, stage := Look)), Replacing(r), b.made[r].src.name, false)
  }

  /** Its own context, or everybody's, is done. */
  predicate ToldToStop(b: Board, g: nat)
    requires g < |b.goes|
  {
    b.goes[g].told || b.over
  }

  function Boarded(s: Site, b: Board): (t: Site)
    requires s.Proper() && b.Proper() && |b.made| == |s.board.made|
    ensures t.Proper()
  {
    s.(board := b)
  }

  /** The goroutine's next step. */
  ghost function Moved(s: Site, g: nat): (t: Site)
    requires s.Proper() && g < |s.board.goes|
    ensures t.Proper()
  {
    var b := s.board;
    var r := b.goes[g].runner;
    match b.goes[g].phase
    case Serving => if ToldToStop(b, g) then Boarded(s, Phased(b, g, Leaving)) else s
    case Breaking(why) =>
      Boarded(s, Phased(b.(made := b.made[r := b.made[r].(fatal := why)]), g, Reporting(why)))
    case Reporting(why) =>
      Reported(Boarded(s, Phased(b, g, Leaving)), Failure(r, why), b.made[r].src.name, true)
    case Leaving => Boarded(s, Phased(b.(live := b.live - {r}), g, Left))
    case Left => Boarded(s, Closing(b, g))
    case Gone => s
  }

  /** The deadman's next step on the first source left. */
  ghost function Checked(s: Site, l: Label): (t: Site)
    requires s.Proper() && (l.Looks? || l.Judges? || l.Tells?)
    ensures t.Proper()
  {
    var b, c := s.board, s.check;
    match l
    case Looks(window) =>
      if !c.Looking? then s
      else if c.left == [] then s.(check := Resting)
      else if window <= 0 || b.made[c.left[0]].fatal != "" then s.(check := Looking(c.now, c.left[1..]))
      else s.(check := Looked(c.now, c.left, window, b.made[c.left[0]].lastEventAt))
    case Judges(contact) =>
      if !c.Looked? then s
      else
        var Judgement(next, edge) := Judged(b, c.left[0], c.now, c.window, LastHeard(c.last, contact));
        s.(board := next,
           check := if edge == Stays then Looking(c.now, c.left[1..]) else Telling(c.now, c.left, edge == FellSilent))
    case Tells =>
      if !c.Telling? then s
      else
        Reported(s.(check := Looking(c.now, c.left[1..])), Deadman(c.left[0]), b.made[c.left[0]].src.name, c.raise)
  }

  /** Run itself: it begins, its context is done, it stops once the deadman is at
      rest, and it returns once everything then live is gone. */
  ghost function Ran(s: Site, l: Label): (t: Site)
    requires s.Proper() && (l.Begin? || l.Over? || l.Stops? || l.RunReturns?)
    ensures t.Proper()
  {
    var b := s.board;
    match l
    case Begin => if b.began then s else s.(board := Begun(b))
    case Over => s.(board := b.(over := true))
    case Stops =>
      if b.began && b.over && !b.stopped && s.check == Resting then
        s.(board := b.(stopped := true), ending := Some(b.live))
      else s
    case RunReturns =>
      if s.ending.Some? && forall r :: r in s.ending.value ==> Done(b, r) then
        s.(ending := None, log := s.log + [RunReturned])
      else s
  }

  /** A replacement's first turn. */
  ghost function SwapBegins(s: Site, next: seq<Option<Source>>, now: Time): (t: Site)
    requires s.Proper()
    ensures t.Proper()
  {
    if s.replacing.Busy? || s.board.stopped || !Listable(next) then s
    else
      var Change(after, removed, started) := Swapped(s.board, next, now);
      assert forall i :: 0 <= i < |removed| ==> removed[i] in removed;
      assert forall i :: 0 <= i < |started| ==> started[i] in started;
      s.(board := after, replacing := Busy(removed, started, 0, Join, s.board.began))
  }

  /** What else befalls a goroutine: its run breaks though it was not told to
      stop, or something arrives. */
  ghost function Befallen(s: Site, l: Label): (t: Site)
    requires s.Proper() && (l.Breaks? || l.Hears?)
    ensures t.Proper()
  {
    var b := s.board;
    if l.g >= |b.goes| || !b.goes[l.g].phase.Serving? then s
    else
      match l
      case Breaks(g, why) => if ToldToStop(b, g) then s else s.(board := Phased(b, g, Breaking(why)))
      case Hears(g, now) =>
        var r := b.goes[g].runner;
        s.(board := b.(made := b.made[r := b.made[r].(lastEventAt := now)]))
  }

  /** One step of anybody's. One whose moment has not come changes nothing, so
      every sequence of labels is a run. */
  ghost function Next(s: Site, l: Label): (t: Site)
    requires s.Proper()
    ensures t.Proper()
  {
    match l
    case Begin => Ran(s, l)
    case Over => Ran(s, l)
    case Stops => Ran(s, l)
    case RunReturns => Ran(s, l)
    case Swap(next, now) => SwapBegins(s, next, now)
    case Onward => if s.replacing.Busy? then Replaced(s) else s
    case Goes(g) => if g < |s.board.goes| then Moved(s, g) else s
    case Breaks(_, _) => Befallen(s, l)
    case Hears(_, _) => Befallen(s, l)
    case CheckBegins(now) =>
      if s.board.began && !s.board.stopped && s.check == Resting then s.(check := Looking(now, s.board.running))
      else s
    case _ => Checked(s, l)
  }

  /** A run ends where the process crashed. */
  ghost function Exec(s: Site, ls: seq<Label>): (t: Site)
    requires s.Proper()
    ensures t.Proper()
    decreases ls
  {
    if ls == [] || s.board.crashed then s else Exec(Next(s, ls[0]), ls[1..])
  }
}
