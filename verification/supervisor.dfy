/** Live replacement of event sources: what the supervisor keeps under its lock.

    A source is a value with an identity; its name is the application it serves
    and may be shared. Everything here happens within one turn at the lock; the
    runs that are made of such turns are in the module Supervising. */
module Supervision {
  import opened Base

  datatype Source = Source(id: nat, name: string)

  /** The record of one source: what has been heard and reported of it, and the
      goroutine last started for it. */
  datatype Runner = Runner(src: Source, lastEventAt: Time, silent: bool, fatal: string, go: Option<nat>) {
    predicate Faulted() {
      silent || fatal != ""
    }
  }

  function NewRunner(src: Source, now: Time): Runner {
    Runner(src, now, false, "", None)
  }

  /** How far a source's goroutine has come: it serves; its run broke and it is
      about to record why, then to report it; it is on its way out; it is off
      the list of the live; it is gone. */
  datatype Phase = Serving | Breaking(why: string) | Reporting(why: string) | Leaving | Left | Gone

  /** One goroutine, with whether it has been told to stop. */
  datatype Go = Go(runner: nat, phase: Phase, told: bool)

  /** Everything under the lock. Records and goroutines are known by the order
      in which they were made; running is the current set, in the order the
      caller gave it; live holds the records whose goroutine has not left. Each
      start makes a channel that says its goroutine is gone, known by the same
      number, and a record holds the channel made last. Closing a channel twice
      brings the process down. */
  datatype Board = Board(
    made: seq<Runner>, goes: seq<Go>, running: seq<nat>, live: set<nat>,
    began: bool, over: bool, stopped: bool, closed: set<nat>, crashed: bool)
  {
    ghost predicate Proper() {
      && (forall i :: 0 <= i < |running| ==> running[i] < |made|)
      && (forall g :: 0 <= g < |goes| ==> goes[g].runner < |made|)
      && (forall r :: 0 <= r < |made| && made[r].go.Some? ==> made[r].go.value < |goes|)
      && (forall r :: r in live ==> r < |made|)
      && (forall c :: c in closed ==> c < |goes|)
    }
  }

  /** The channel that the record holds, if any, is closed. */
  predicate Done(b: Board, r: nat)
    requires b.Proper() && r < |b.made|
  {
    b.made[r].go.Some? ==> b.made[r].go.value in b.closed
  }

  function Phased(b: Board, g: nat, phase: Phase): (t: Board)
    requires b.Proper() && g < |b.goes|
    ensures t.Proper() && t.made == b.made
  {
    b.(goes := b.goes[g := b.goes[g].(phase := phase)])
  }

  /** A goroutine's last act: it closes the channel that its record holds by then,
      which need not be the one made with it. */
  function Closing(b: Board, g: nat): (t: Board)
    requires b.Proper() && g < |b.goes|
    ensures t.Proper() && t.made == b.made
  {
    var held := b.made[b.goes[g].runner].go;
    if held.None? || held.value in b.closed then b.(crashed := true)
    else Phased(b.(closed := b.closed + {held.value}), g, Gone)
  }

  datatype Refusal = Stopped | NilSource | ListedTwice(src: Source)

  /** A list Replace can take: every entry a source, none of them twice. */
  predicate Listable(next: seq<Option<Source>>) {
    && (forall i :: 0 <= i < |next| ==> next[i].Some?)
    && (forall i, j :: 0 <= i < j < |next| ==> next[i] != next[j])
  }

  // ---- One replacement's first turn --------------------------------------------

  /** The last of the running records that carries this source. */
  function Current(made: seq<Runner>, running: seq<nat>, src: Source): (r: Option<nat>)
    requires forall i :: 0 <= i < |running| ==> running[i] < |made|
    ensures match r
            case None => forall i :: 0 <= i < |running| ==> made[running[i]].src != src
            case Some(k) => k in running && made[k].src == src
  {
    if running == [] then None
    else
      var last := running[|running| - 1];
      if made[last].src == src then Some(last) else Current(made, running[..|running| - 1], src)
  }

  /** The records chosen for a list, and those made for it. */
  datatype Choice = Choice(made: seq<Runner>, chosen: seq<nat>, started: seq<nat>)

  function Picked(b: Board, c: Choice, src: Source, now: Time): Choice
    requires b.Proper()
  {
    match Current(b.made, b.running, src)
    case Some(r) => c.(chosen := c.chosen + [r])
    case None => Choice(c.made + [NewRunner(src, now)], c.chosen + [|c.made|], c.started + [|c.made|])
  }

  function Chosen(b: Board, next: seq<Option<Source>>, now: Time): (c: Choice)
    requires b.Proper() && forall i :: 0 <= i < |next| ==> next[i].Some?
    ensures |c.chosen| == |next| && b.made <= c.made
    ensures forall i :: 0 <= i < |next| ==> c.chosen[i] < |c.made|
    ensures forall i :: 0 <= i < |c.started| ==> |b.made| <= c.started[i] < |c.made|
    ensures forall r :: |b.made| <= r < |c.made| ==> c.made[r] == NewRunner(c.made[r].src, now)
  {
    if next == [] then Choice(b.made, [], [])
    else
      var n := |next| - 1;
      Picked(b, Chosen(b, next[..n], now), next[n].value, now)
  }

  function Dropped(running: seq<nat>, chosen: seq<nat>): (removed: seq<nat>)
    ensures forall r :: r in removed <==> r in running && r !in chosen
  {
    if running == [] then []
    else
      var n := |running| - 1;
      assert running == running[..n] + [running[n]];
      if running[n] in chosen then Dropped(running[..n], chosen)
      else Dropped(running[..n], chosen) + [running[n]]
  }

  /** Tells the goroutine last started for this source to stop. */
  function Told(made: seq<Runner>, goes: seq<Go>, r: nat): seq<Go>
    requires r < |made| && (made[r].go.Some? ==> made[r].go.value < |goes|)
  {
    match made[r].go
    case None => goes
    case Some(g) => goes[g := goes[g].(told := true)]
  }

  function AllTold(made: seq<Runner>, goes: seq<Go>, removed: seq<nat>): (after: seq<Go>)
    requires forall i :: 0 <= i < |removed| ==> removed[i] < |made|
    requires forall r :: 0 <= r < |made| && made[r].go.Some? ==> made[r].go.value < |goes|
    ensures |after| == |goes|
    ensures forall g :: 0 <= g < |goes| ==>
              && after[g].runner == goes[g].runner && after[g].phase == goes[g].phase
              && (after[g].told <==> goes[g].told || exists i :: 0 <= i < |removed| && made[removed[i]].go == Some(g))
  {
    if removed == [] then goes
    else
      var n := |removed| - 1;
      Told(made, AllTold(made, goes, removed[..n]), removed[n])
  }

  /** The board after the turn, what it dropped, and what is to be started. */
  datatype Change = Change(board: Board, removed: seq<nat>, started: seq<nat>)

  function Swapped(b: Board, next: seq<Option<Source>>, now: Time): (out: Change)
    requires b.Proper() && forall i :: 0 <= i < |next| ==> next[i].Some?
    ensures out.board.Proper()
    ensures forall r :: r in out.removed ==> r < |b.made|
    ensures forall r :: r in out.started ==> |b.made| <= r < |out.board.made|
  {
    var c := Chosen(b, next, now);
    var removed := Dropped(b.running, c.chosen);
    assert forall i :: 0 <= i < |removed| ==> removed[i] in b.running;
    Change(b.(made := c.made, running := c.chosen, goes := AllTold(b.made, b.goes, removed)), removed, c.started)
  }

  // ---- What one replacement's first turn gives -----------------------------------

  lemma {:induction false} EachIsChosen(b: Board, next: seq<Option<Source>>, now: Time, i: nat)
    requires b.Proper() && (forall j :: 0 <= j < |next| ==> next[j].Some?) && i < |next|
    ensures var c := Chosen(b, next, now);
            && (match Current(b.made, b.running, next[i].value)
                case Some(r) => c.chosen[i] == r
                case None => c.chosen[i] >= |b.made| && c.chosen[i] in c.started)
            && c.made[c.chosen[i]].src == next[i].value
  {
    var n := |next| - 1;
    var c, before := Chosen(b, next, now), Chosen(b, next[..n], now);
    assert before.made <= c.made;
    if i < n {
      EachIsChosen(b, next[..n], now, i);
      assert c.chosen[i] == before.chosen[i];
    } else if Current(b.made, b.running, next[n].value).None? {
      assert c.started[|before.started|] == c.chosen[n];
    }
  }

  lemma {:induction false} StartedAreChosen(b: Board, next: seq<Option<Source>>, now: Time)
    requires b.Proper() && forall j :: 0 <= j < |next| ==> next[j].Some?
    ensures var c := Chosen(b, next, now);
            && (forall r :: r in c.started ==> r in c.chosen)
            && (forall i, j :: 0 <= i < j < |c.started| ==> c.started[i] < c.started[j])
            && |c.made| == |b.made| + |c.started|
  {
    if next != [] {
      var n := |next| - 1;
      StartedAreChosen(b, next[..n], now);
      var c, before := Chosen(b, next, now), Chosen(b, next[..n], now);
      forall r | r in c.started
        ensures r in c.chosen
      {
        if r in before.started {
          assert r in before.chosen;
        } else {
          assert c.chosen[n] == r;
        }
      }
    }
  }

  /** The i-th place of the new list goes to the record that already carries its
      source, untouched, or to a fresh one that is to be started. */
  predicate Seated(b: Board, next: seq<Option<Source>>, now: Time, t: Board, started: seq<nat>, i: nat)
    requires b.Proper() && t.Proper() && i < |next| == |t.running| && next[i].Some?
  {
    match Current(b.made, b.running, next[i].value)
    case Some(r) => t.running[i] == r && t.made[r] == b.made[r]
    case None => t.running[i] in started && t.made[t.running[i]] == NewRunner(next[i].value, now)
  }

  lemma EachIsSeated(b: Board, next: seq<Option<Source>>, now: Time, i: nat)
    requires b.Proper() && (forall j :: 0 <= j < |next| ==> next[j].Some?) && i < |next|
    ensures var Change(t, removed, started) := Swapped(b, next, now);
            && Seated(b, next, now, t, started, i) && t.made[t.running[i]].src == next[i].value
            && (t.running[i] >= |b.made| ==> t.running[i] in started)
  {
    EachIsChosen(b, next, now, i);
  }

  lemma DroppedAreTold(b: Board, next: seq<Option<Source>>, now: Time, r: nat)
    requires b.Proper() && forall j :: 0 <= j < |next| ==> next[j].Some?
    requires r in Swapped(b, next, now).removed
    ensures var t := Swapped(b, next, now).board;
            t.made[r] == b.made[r] && (t.made[r].go.Some? ==> t.goes[t.made[r].go.value].told)
  {
    var Change(t, removed, _) := Swapped(b, next, now);
    var k :| 0 <= k < |removed| && removed[k] == r;
    assert t.made[r] == b.made[r];
    if b.made[r].go.Some? {
      assert b.made[removed[k]].go == Some(b.made[r].go.value);
    }
  }

  /** A replacement makes the listed sources the running ones, in the order given.
      One that was running keeps its very record, untouched; one that is new has
      a fresh record, to be started; and exactly those that were running and are
      not kept are dropped, each told to stop. */
  lemma SwapGivesTheList(b: Board, next: seq<Option<Source>>, now: Time)
    requires b.Proper() && Listable(next)
    ensures var Change(t, removed, started) := Swapped(b, next, now);
            && |t.running| == |next| && Base.Distinct(t.running) && b.made <= t.made
            && (forall i :: 0 <= i < |next| ==>
                  Seated(b, next, now, t, started, i) && t.made[t.running[i]].src == next[i].value)
            && (forall r :: r in removed <==> r in b.running && r !in t.running)
            && (forall r :: r in started <==> r in t.running && r >= |b.made|)
            && Base.Distinct(started)
            && (forall r :: r in removed ==>
                  t.made[r] == b.made[r] && (t.made[r].go.Some? ==> t.goes[t.made[r].go.value].told))
  {
    var Change(t, removed, started) := Swapped(b, next, now);
    StartedAreChosen(b, next, now);
    forall i | 0 <= i < |next|
      ensures Seated(b, next, now, t, started, i) && t.made[t.running[i]].src == next[i].value
      ensures t.running[i] >= |b.made| ==> t.running[i] in started
    {
      EachIsSeated(b, next, now, i);
    }
    forall r | r in removed
      ensures t.made[r] == b.made[r] && (t.made[r].go.Some? ==> t.goes[t.made[r].go.value].told)
    {
      DroppedAreTold(b, next, now, r);
    }
  }

  lemma {:induction false} CurrentIsItself(made: seq<Runner>, running: seq<nat>, i: nat)
    requires i < |running| && forall j :: 0 <= j < |running| ==> running[j] < |made|
    requires forall j, k :: 0 <= j < k < |running| ==> made[running[j]].src != made[running[k]].src
    ensures Current(made, running, made[running[i]].src) == Some(running[i])
  {
    var n := |running| - 1;
    if i < n {
      assert made[running[n]].src != made[running[i]].src;
      CurrentIsItself(made, running[..n], i);
    }
  }

  /** The sources now running, in their order. */
  function Sources(b: Board): (next: seq<Option<Source>>)
    requires b.Proper()
  {
    seq(|b.running|, i requires 0 <= i < |b.running| && b.running[i] < |b.made| => Some(b.made[b.running[i]].src))
  }

  lemma SameSourcesSitStill(b: Board, now: Time)
    requires b.Proper() && Listable(Sources(b))
    ensures Swapped(b, Sources(b), now).board.running == b.running
  {
    var next := Sources(b);
    forall j, k | 0 <= j < k < |b.running|
      ensures b.made[b.running[j]].src != b.made[b.running[k]].src
    {
      assert next[j] != next[k];
    }
    forall i | 0 <= i < |next|
      ensures Swapped(b, next, now).board.running[i] == b.running[i]
    {
      CurrentIsItself(b.made, b.running, i);
      EachIsSeated(b, next, now, i);
    }
  }

  /** Handed back the sources that are running, no two of them the same, a
      replacement changes nothing at all. */
  lemma SameSourcesChangeNothing(b: Board, now: Time)
    requires b.Proper() && Listable(Sources(b))
    ensures Swapped(b, Sources(b), now) == Change(b, [], [])
  {
    var Change(t, removed, started) := Swapped(b, Sources(b), now);
    assert started != [] ==> started[0] in started;
    assert removed != [] ==> removed[0] in removed;
    SameSourcesSitStill(b, now);
    SwapGivesTheList(b, Sources(b), now);
    assert started == [] && removed == [];
    assert t.made == b.made by {
      StartedAreChosen(b, Sources(b), now);
    }
  }

  // ---- Starting ----------------------------------------------------------------

  function Started(b: Board, r: nat): (t: Board)
    requires b.Proper() && r < |b.made|
    ensures t.Proper()
  {
    b.(made := b.made[r := b.made[r].(go := Some(|b.goes|))], goes := b.goes + [Go(r, Serving, false)],
       live := b.live + {r})
  }

  function AllStarted(b: Board, rs: seq<nat>): (t: Board)
    requires b.Proper() && forall i :: 0 <= i < |rs| ==> rs[i] < |b.made|
    ensures t.Proper() && |t.made| == |b.made|
  {
    if rs == [] then b else Started(AllStarted(b, rs[..|rs| - 1]), rs[|rs| - 1])
  }

  /** A running source under this name has an open fault of its own. */
  predicate WatchedAndFaulted(b: Board, name: string)
    requires b.Proper()
  {
    exists i :: 0 <= i < |b.running| && b.made[b.running[i]].src.name == name && b.made[b.running[i]].Faulted()
  }

  // ---- The deadman's second turn on one source -------------------------------------

  /** What a look at a source came to: it has fallen silent, it is heard again, or
      nothing changed. */
  datatype Edge = Stays | FellSilent | HeardAgain

  /** The later of what the source says of its contact and of what it emitted. */
  function LastHeard(emitted: Time, contact: Option<Time>): Time {
    if contact.Some? && contact.value > emitted then contact.value else emitted
  }

  datatype Judgement = Judgement(board: Board, edge: Edge)

  function Judged(b: Board, r: nat, now: Time, window: Duration, last: Time): (t: Judgement)
    requires b.Proper() && r < |b.made|
    ensures t.board.Proper()
  {
    var silent := now - last > window;
    Judgement(b.(made := b.made[r := b.made[r].(silent := silent)]),
              if silent && !b.made[r].silent then FellSilent
              else if !silent && b.made[r].silent then HeardAgain
              else Stays)
  }

  /** A source is silent exactly if neither what it emitted nor, where it says so, its
      last contact lies within the window; there is an edge exactly when that has
      changed since the last look; and nothing else of any record does. */
  lemma SilentExactlyWhen(b: Board, r: nat, now: Time, window: Duration, emitted: Time, contact: Option<Time>)
    requires b.Proper() && r < |b.made|
    ensures var Judgement(t, edge) := Judged(b, r, now, window, LastHeard(emitted, contact));
            var silent := now - emitted > window && (contact.Some? ==> now - contact.value > window);
            && t == b.(made := b.made[r := b.made[r].(silent := silent)])
            && (edge == FellSilent <==> silent && !b.made[r].silent)
            && (edge == HeardAgain <==> !silent && b.made[r].silent)
            && (edge == Stays <==> silent == b.made[r].silent)
  {
  }

  // ---- The supervisor itself ---------------------------------------------------------

  function Begun(b: Board): Board
    requires b.Proper()
  {
    AllStarted(b.(began := true), b.running)
  }

  /** The sources of a listable prefix. */
  ghost predicate SeenExactly(listed: seq<Option<Source>>, seen: set<Source>) {
    Listable(listed) && forall s :: s in seen <==> Some(s) in listed
  }

  lemma OneMoreListed(next: seq<Option<Source>>, i: nat, seen: set<Source>)
    requires i < |next| && next[i].Some? && SeenExactly(next[..i], seen)
    ensures next[i].value in seen ==> !Listable(next)
    ensures next[i].value !in seen ==> SeenExactly(next[..i + 1], seen + {next[i].value})
  {
    var before := next[..i];
    assert next[..i + 1] == before + [next[i]];
    if next[i].value in seen {
      var j :| 0 <= j < i && before[j] == next[i];
      assert next[j] == next[i];
    }
  }

  lemma OneMorePicked(b: Board, next: seq<Option<Source>>, now: Time, i: nat)
    requires b.Proper() && i < |next| && forall j :: 0 <= j <= i ==> next[j].Some?
    ensures Chosen(b, next[..i + 1], now) == Picked(b, Chosen(b, next[..i], now), next[i].value, now)
  {
    assert next[..i + 1][..i] == next[..i];
  }

  /** Exactly those of the running ones that were not chosen are dropped and told. */
  predicate DroppedSo(made: seq<Runner>, before: seq<Go>, running: seq<nat>, chosen: seq<nat>, removed: seq<nat>,
                      goes: seq<Go>)
  {
    && (forall k :: 0 <= k < |made| && made[k].go.Some? ==> made[k].go.value < |before|)
    && (forall j :: 0 <= j < |removed| ==> removed[j] < |made|)
    && removed == Dropped(running, chosen) && goes == AllTold(made, before, removed)
  }

  lemma OneMoreDropped(made: seq<Runner>, before: seq<Go>, running: seq<nat>, chosen: seq<nat>, removed: seq<nat>,
                       goes: seq<Go>, i: nat)
    requires i < |running| && running[i] < |made| && DroppedSo(made, before, running[..i], chosen, removed, goes)
    ensures if running[i] in chosen then DroppedSo(made, before, running[..i + 1], chosen, removed, goes)
            else DroppedSo(made, before, running[..i + 1], chosen, removed + [running[i]],
                           Told(made, goes, running[i]))
  {
    assert running[..i + 1][..i] == running[..i];
    assert (removed + [running[i]])[..|removed|] == removed;
  }

  class Supervisor {
    var made: seq<Runner>
    var goes: seq<Go>
    var running: seq<nat>
    var live: set<nat>
    var began: bool
    var over: bool
    var stopped: bool
    var closed: set<nat>
    var crashed: bool

    function View(): Board
      reads this
    {
      Board(made, goes, running, live, began, over, stopped, closed, crashed)
    }

    /** Nothing is started before Run, and nothing is asked of a list but that
        every entry is a source. */
    constructor (sources: seq<Source>, now: Time)
      ensures View().Proper() && goes == [] && live == {} && !began && !over && !stopped
      ensures closed == {} && !crashed
      ensures |running| == |made| == |sources|
      ensures forall i :: 0 <= i < |sources| ==> running[i] == i && made[i] == NewRunner(sources[i], now)
    {
      made := seq(|sources|, i requires 0 <= i < |sources| => NewRunner(sources[i], now));
      running := seq(|sources|, i => i);
      goes, live, began, over, stopped := [], {}, false, false, false;
      closed, crashed := {}, false;
    }

    /** Replace's first turn: choose what is kept and make what is new, drop the
        rest and tell it to stop. A refusal changes nothing. */
    method SwapTo(next: seq<Option<Source>>, now: Time)
      returns (r: Result<Change, Refusal>)
      requires View().Proper()
      modifies this
      ensures r.Ok? <==> !old(stopped) && Listable(next)
      ensures r.Ok? ==> r.value == Swapped(old(View()), next, now) && View() == r.value.board
      ensures r.Err? ==> View() == old(View())
    {
      if stopped {
        return Err(Stopped);
      }
      var c := Pick(next, now);
      if c.Err? {
        return Err(c.error);
      }
      var removed := Drop(c.value.chosen);
      made, running := c.value.made, c.value.chosen;
      return Ok(Change(View(), removed, c.value.started));
    }

    method Pick(next: seq<Option<Source>>, now: Time) returns (r: Result<Choice, Refusal>)
      requires View().Proper()
      ensures r.Ok? <==> Listable(next)
      ensures r.Ok? ==> r.value == Chosen(View(), next, now)
    {
      var c := Choice(made, [], []);
      var seen: set<Source> := {};
      for i := 0 to |next|
        invariant SeenExactly(next[..i], seen)
        invariant c == Chosen(View(), next[..i], now)
      {
        if next[i].None? {
          return Err(NilSource);
        }
        var src := next[i].value;
        OneMoreListed(next, i, seen);
        if src in seen {
          return Err(ListedTwice(src));
        }
        seen := seen + {src};
        OneMorePicked(View(), next, now, i);
        c := Picked(View(), c, src, now);
      }
      assert next[..|next|] == next;
      return Ok(c);
    }

    method Drop(chosen: seq<nat>) returns (removed: seq<nat>)
      requires View().Proper()
      modifies this`goes
      ensures DroppedSo(made, old(goes), running, chosen, removed, goes)
    {
      removed := [];
      for i := 0 to |running|
        invariant DroppedSo(made, old(goes), running[..i], chosen, removed, goes)
      {
        OneMoreDropped(made, old(goes), running, chosen, removed, goes, i);
        var r := running[i];
        if r !in chosen {
          goes := Told(made, goes, r);
          removed := removed + [r];
        }
      }
      assert running[..|running|] == running;
    }

    method ReportsAFault(name: string) returns (yes: bool)
      requires View().Proper()
      ensures yes <==> WatchedAndFaulted(View(), name)
    {
      for i := 0 to |running|
        invariant forall j :: 0 <= j < i ==> !(made[running[j]].src.name == name && made[running[j]].Faulted())
      {
        var r := made[running[i]];
        if r.src.name == name && r.Faulted() {
          return true;
        }
      }
      return false;
    }

    /** Launches a goroutine for each of these, one after another. */
    method Start(rs: seq<nat>)
      requires View().Proper() && forall i :: 0 <= i < |rs| ==> rs[i] < |made|
      modifies this`made, this`goes, this`live
      ensures View() == AllStarted(old(View()), rs)
    {
      for i := 0 to |rs|
        invariant |made| == |old(made)| && View() == AllStarted(old(View()), rs[..i])
      {
        assert rs[..i + 1][..i] == rs[..i];
        var r := rs[i];
        made := made[r := made[r].(go := Some(|goes|))];
        goes := goes + [Go(r, Serving, false)];
        live := live + {r};
      }
      assert rs[..|rs|] == rs;
    }

    /** The end of a goroutine that is off the list of the live. */
    method Close(g: nat)
      requires View().Proper() && g < |goes|
      modifies this`goes, this`closed, this`crashed
      ensures View() == Closing(old(View()), g)
    {
      var held := made[goes[g].runner].go;
      if held.None? || held.value in closed {
        crashed := true;
        return;
      }
      closed := closed + {held.value};
      goes := goes[g := goes[g].(phase := Gone)];
    }

    /** Run's first turn. It refuses to begin twice. */
    method Begin() returns (ok: bool)
      requires View().Proper()
      modifies this
      ensures ok == !old(began)
      ensures View() == if ok then Begun(old(View())) else old(View())
    {
      if began {
        return false;
      }
      began := true;
      Start(running);
      return true;
    }

    method Judge(r: nat, now: Time, window: Duration, last: Time) returns (edge: Edge)
      requires View().Proper() && r < |made|
      modifies this`made
      ensures Judgement(View(), edge) == Judged(old(View()), r, now, window, last)
    {
      var wasSilent, nowSilent := made[r].silent, now - last > window;
      made := made[r := made[r].(silent := nowSilent)];
      if nowSilent && !wasSilent {
        return FellSilent;
      }
      return if !nowSilent && wasSilent then HeardAgain else Stays;
    }
  }

  // ---- What a reload keeps -------------------------------------------------------------

  /** A source as the configuration describes it, freshly built. */
  datatype Keyed = Keyed(key: string, source: Source)

  predicate FirstOfItsKey(keyed: seq<Keyed>, i: nat)
    requires i < |keyed|
  {
    forall j :: 0 <= j < i ==> keyed[j].key != keyed[i].key
  }

  /** What the i-th configured source runs as. */
  function Wanted(live: map<string, Source>, keyed: seq<Keyed>, i: nat): Source
    requires i < |keyed|
  {
    if keyed[i].key in live && FirstOfItsKey(keyed, i) then live[keyed[i].key] else keyed[i].source
  }

  /** The last source configured under this key. */
  predicate LastOfItsKey(keyed: seq<Keyed>, i: nat)
    requires i < |keyed|
  {
    forall j :: i < j < |keyed| ==> keyed[j].key != keyed[i].key
  }

  /** What the sources running after one load are kept under. */
  ghost predicate KeptUnder(live: map<string, Source>, keyed: seq<Keyed>, running: seq<Source>) {
    && |running| == |keyed|
    && (forall k :: k in live <==> exists i :: 0 <= i < |keyed| && keyed[i].key == k)
    && (forall i :: 0 <= i < |keyed| && LastOfItsKey(keyed, i) ==> live[keyed[i].key] == running[i])
  }

  lemma OneMoreIsKept(next: map<string, Source>, keyed: seq<Keyed>, want: seq<Source>, k: Keyed, src: Source)
    requires KeptUnder(next, keyed, want)
    ensures KeptUnder(next[k.key := src], keyed + [k], want + [src])
  {
    var more, with := next[k.key := src], keyed + [k];
    assert with[|keyed|] == k;
    forall key
      ensures key in more <==> exists i :: 0 <= i < |with| && with[i].key == key
    {
      if key in next {
        var i :| 0 <= i < |keyed| && keyed[i].key == key;
        assert with[i].key == key;
      }
    }
    forall i | 0 <= i < |with| && LastOfItsKey(with, i)
      ensures more[with[i].key] == (want + [src])[i]
    {
      if i < |keyed| {
        assert with[|keyed|].key != with[i].key;
        assert forall j :: i < j < |keyed| ==> with[j] == keyed[j];
        assert LastOfItsKey(keyed, i);
      }
    }
  }

  /** The running sources whose key none of the first i entries asks for. */
  ghost predicate NotYetAskedFor(live: map<string, Source>, keyed: seq<Keyed>, i: nat, spare: map<string, Source>)
    requires i <= |keyed|
  {
    && (forall k :: k in spare <==> k in live && forall j :: 0 <= j < i ==> keyed[j].key != k)
    && forall k :: k in spare ==> spare[k] == live[k]
  }

  lemma OneMoreAsks(live: map<string, Source>, keyed: seq<Keyed>, i: nat, spare: map<string, Source>)
    requires i < |keyed| && NotYetAskedFor(live, keyed, i, spare)
    ensures keyed[i].key in spare <==> keyed[i].key in live && FirstOfItsKey(keyed, i)
    ensures keyed[i].key in spare ==> spare[keyed[i].key] == live[keyed[i].key]
    ensures NotYetAskedFor(live, keyed, i + 1, spare - {keyed[i].key})
    ensures keyed[i].key !in spare ==> NotYetAskedFor(live, keyed, i + 1, spare)
  {
  }

  /** Each running source is handed back at most once, to the first place that
      asks for its key. */
  method ReuseSources(live: map<string, Source>, keyed: seq<Keyed>)
    returns (want: seq<Source>, next: map<string, Source>)
    ensures |want| == |keyed| && forall i :: 0 <= i < |keyed| ==> want[i] == Wanted(live, keyed, i)
    ensures KeptUnder(next, keyed, want)
  {
    var spare := live;
    want, next := [], map[];
    for i := 0 to |keyed|
      invariant |want| == i && forall j :: 0 <= j < i ==> want[j] == Wanted(live, keyed, j)
      invariant NotYetAskedFor(live, keyed, i, spare)
      invariant KeptUnder(next, keyed[..i], want)
    {
      var k := keyed[i];
      var src := k.source;
      OneMoreAsks(live, keyed, i, spare);
      if k.key in spare {
        src := spare[k.key];
        spare := spare - {k.key};
      }
      OneMoreIsKept(next, keyed[..i], want, k, src);
      assert keyed[..i + 1] == keyed[..i] + [k];
      want := want + [src];
      next := next[k.key := src];
    }
    assert keyed[..|keyed|] == keyed;
  }

  /** The values a reload is given: every running one once, and the fresh ones
      different from them and from each other. */
  predicate ToldApart(live: map<string, Source>, keyed: seq<Keyed>) {
    && (forall a, b :: a in live && b in live && a != b ==> live[a] != live[b])
    && (forall i, j :: 0 <= i < j < |keyed| ==> keyed[i].source != keyed[j].source)
    && (forall a, i :: a in live && 0 <= i < |keyed| ==> live[a] != keyed[i].source)
  }

  /** No value is wanted in two places, so Replace never refuses what a reload
      hands it. */
  lemma NothingIsWantedTwice(live: map<string, Source>, keyed: seq<Keyed>, want: seq<Source>)
    requires ToldApart(live, keyed)
    requires |want| == |keyed| && forall i :: 0 <= i < |keyed| ==> want[i] == Wanted(live, keyed, i)
    ensures Distinct(want)
    ensures Listable(seq(|want|, i requires 0 <= i < |want| => Some(want[i])))
  {
    forall i, j | 0 <= i < j < |want|
      ensures want[i] != want[j]
    {
      assert FirstOfItsKey(keyed, j) ==> keyed[i].key != keyed[j].key;
    }
  }

  predicate SameKeys(a: seq<Keyed>, b: seq<Keyed>) {
    |a| == |b| && forall i :: 0 <= i < |a| ==> a[i].key == b[i].key
  }

  predicate KeysDistinct(keyed: seq<Keyed>) {
    forall i, j :: 0 <= i < j < |keyed| ==> keyed[i].key != keyed[j].key
  }

  /** Exactly when reloading an unchanged configuration keeps every source: when
      no two of its sources are configured identically. */
  lemma UnchangedReloadKeepsAllExactlyWhen(live: map<string, Source>, was: seq<Keyed>, running: seq<Source>,
                                           keyed: seq<Keyed>, want: seq<Source>)
    requires KeptUnder(live, was, running) && SameKeys(was, keyed) && Distinct(running)
    requires forall i, j :: 0 <= i < |keyed| && 0 <= j < |running| ==> keyed[i].source != running[j]
    requires |want| == |keyed| && forall i :: 0 <= i < |keyed| ==> want[i] == Wanted(live, keyed, i)
    ensures want == running <==> KeysDistinct(was)
  {
    if KeysDistinct(was) {
      forall i | 0 <= i < |want|
        ensures want[i] == running[i]
      {
        assert LastOfItsKey(was, i) && FirstOfItsKey(keyed, i);
        assert was[i].key == keyed[i].key;
      }
    } else {
      var i, j :| 0 <= i < j < |was| && was[i].key == was[j].key;
      assert keyed[i].key == keyed[j].key;
      assert !FirstOfItsKey(keyed, j);
      assert want[j] == keyed[j].source;
    }
  }
}
