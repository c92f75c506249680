/** The deadman over paired peers: who has gone quiet, judged by the window each
    peer was actually told to keep. */
module PeerLiveness {
  import opened Base
  import opened Arith

  // ---- The window and the beat --------------------------------------------------

  const DEFAULT_PEER_SILENT_AFTER: Duration := 16 * MINUTE
  const MIN_PEER_SILENT_AFTER: Duration := MINUTE
  const MAX_PEER_SILENT_AFTER: Duration := 24 * HOUR
  const SLOWEST_BEAT: Duration := 5 * MINUTE

  /** The configured window; None is a value left out or not a duration. It is
      clamped, never refused. */
  function ConfiguredSilence(silentAfter: Option<Duration>): (w: Duration)
    ensures MIN_PEER_SILENT_AFTER <= w <= MAX_PEER_SILENT_AFTER
  {
    match silentAfter
    case None => DEFAULT_PEER_SILENT_AFTER
    case Some(d) =>
      if d < MIN_PEER_SILENT_AFTER then MIN_PEER_SILENT_AFTER
      else if d > MAX_PEER_SILENT_AFTER then MAX_PEER_SILENT_AFTER
      else d
  }

  /** A third of the window, in whole seconds, never faster than every twenty
      seconds nor slower than every five minutes. */
  function HeartbeatEvery(silence: Duration): Duration
    requires silence > 0
  {
    var d := silence / 3;
    if d < 20 * SECOND then 20 * SECOND
    else if d > SLOWEST_BEAT then SLOWEST_BEAT
    else d / SECOND * SECOND
  }

  /** What is configured is what is used, between a minute and a day; the nearer of the
      two outside, and sixteen minutes when nothing is. */
  lemma WindowExactly(d: Duration)
    ensures ConfiguredSilence(None) == 960_000_000_000
    ensures ConfiguredSilence(Some(d)) == if d <= 60_000_000_000 then 60_000_000_000
                                          else if d <= 86_400_000_000_000 then d else 86_400_000_000_000
  {
  }

  /** The beat asked for: a third of the window to the whole second below, from twenty
      seconds for windows of a minute up, to five minutes for a quarter of an hour and
      more. */
  lemma BeatExactly(silence: Duration, seconds: nat)
    requires seconds * 3_000_000_000 <= silence < seconds * 3_000_000_000 + 3_000_000_000 && silence > 0
    ensures HeartbeatEvery(silence) == if seconds <= 20 then 20_000_000_000
                                       else if seconds <= 300 then seconds * 1_000_000_000 else 300_000_000_000
  {
    var d := silence / 3;
    assert seconds * 1_000_000_000 <= d < seconds * 1_000_000_000 + 1_000_000_000;
    assert d / 1_000_000_000 == seconds;
  }

  lemma BeatFits(silence: Duration)
    requires silence > 0
    ensures 3 * HeartbeatEvery(silence) <= silence <==> silence >= MINUTE
  {
    var d := silence / 3;
    assert d / SECOND * SECOND <= d;
  }

  /** Silent means at least three missed beats exactly for windows of a minute
      or more, which is every window that can be configured. */
  lemma SilentMeansThreeMissedBeats(silence: Duration, configured: Option<Duration>)
    requires silence > 0
    ensures 3 * HeartbeatEvery(silence) <= silence <==> silence >= MINUTE
    ensures 3 * HeartbeatEvery(ConfiguredSilence(configured)) <= ConfiguredSilence(configured)
  {
    BeatFits(silence);
    BeatFits(ConfiguredSilence(configured));
  }

  // ---- One peer ---------------------------------------------------------------------

  datatype Peer = Peer(last: Option<Time>, raised: bool, gap: Option<Duration>, told: Duration)

  const UNHEARD: Peer := Peer(None, false, None, 0)

  datatype Edge = Raise | Resolve

  datatype Event =
    | Contact(now: Time, window: Duration)
    | Check(now: Time, window: Duration, paired: bool)

  /** A longer gap replaces the recorded one; a shorter one halves it. */
  function NewGap(recorded: Option<Duration>, g: Duration): Duration {
    var was := if recorded.Some? then recorded.value else 0;
    if g < was then Max(g, was / 2) else g
  }

  /** The gap on record after another one: that one if it is no shorter, and never less
      than half of what was on record. */
  lemma GapExactly(recorded: Option<Duration>, g: Duration)
    requires g >= 0
    ensures var was := if recorded.Some? then recorded.value else 0;
            var half := was / 2;
            NewGap(recorded, g) == if g >= was || g >= half then g else half
  {
  }

  /** The window this peer is held to: never shorter than the one its last reply
      told it of, nor, before any reply, than the slowest beat and a minute. */
  function Judged(p: Peer, window: Duration): Duration {
    Max(window, if p.last.Some? then p.told else SLOWEST_BEAT + MINUTE)
  }

  function Quiet(p: Peer, started: Time, now: Time): Duration {
    now - if p.last.Some? then p.last.value else started
  }

  function Step(started: Time, p: Peer, e: Event): (Peer, seq<Edge>) {
    match e
    case Contact(now, window) =>
      (Peer(Some(now), false,
            if p.last.Some? && now > p.last.value then Some(NewGap(p.gap, now - p.last.value)) else p.gap,
            window),
       if p.raised then [Resolve] else [])
    case Check(now, window, paired) =>
      if !paired then
        if p.raised then (p.(raised := false, last := None), [Resolve]) else (p, [])
      else if p.raised || Quiet(p, started, now) <= Judged(p, window) then (p, [])
      else (p.(raised := true), [Raise])
  }

  function After(started: Time, p: Peer, run: seq<Event>): Peer {
    if run == [] then p
    else Step(started, After(started, p, run[..|run| - 1]), run[|run| - 1]).0
  }

  /** Every incident opened and closed about this peer, in order. */
  function Edges(started: Time, p: Peer, run: seq<Event>): seq<Edge> {
    if run == [] then []
    else
      var before := run[..|run| - 1];
      Edges(started, p, before) + Step(started, After(started, p, before), run[|run| - 1]).1
  }

  /** Raise and resolve in turn, ending as `open` says. */
  predicate Alternate(edges: seq<Edge>, open: bool) {
    if edges == [] then !open
    else edges[|edges| - 1] == (if open then Raise else Resolve) && Alternate(edges[..|edges| - 1], !open)
  }

  /** A peer is never marked silent twice nor cleared twice, whatever the contacts,
      checks, window changes and unpairings: in the order they are taken under the
      lock, edges alternate, and the mark stands exactly when the last one raised.
      Where they land is another matter (PeerLandings). */
  lemma {:induction false} EdgesAlternate(started: Time, p: Peer, run: seq<Event>)
    requires !p.raised
    ensures Alternate(Edges(started, p, run), After(started, p, run).raised)
  {
    if run != [] {
      var before := run[..|run| - 1];
      EdgesAlternate(started, p, before);
      var more := Step(started, After(started, p, before), run[|run| - 1]).1;
      var edges := Edges(started, p, before);
      if more == [] {
        assert edges + more == edges;
      } else {
        assert (edges + more)[..|edges + more| - 1] == edges;
      }
    }
  }

  // ---- A punctual peer -----------------------------------------------------------------

  /** The j-th event is the last contact before the i-th. */
  ghost predicate LastContactBefore(run: seq<Event>, j: nat, i: nat) {
    && j < i <= |run| && run[j].Contact?
    && forall k :: j < k < i ==> !run[k].Contact?
  }

  /** Nothing that happens finds the peer further from its last contact than the
      window that contact was answered with; nor, before its first contact,
      further from the start than the slowest beat and a minute. */
  ghost predicate Punctual(started: Time, run: seq<Event>) {
    && (forall i: nat, j: nat :: i < |run| && LastContactBefore(run, j, i) ==>
          run[i].now - run[j].now <= run[j].window)
    && (forall i: nat :: i < |run| && (forall k :: 0 <= k < i ==> !run[k].Contact?) ==>
          run[i].now - started <= SLOWEST_BEAT + MINUTE)
  }

  /** What the state remembers of the run. */
  ghost predicate Remembers(run: seq<Event>, p: Peer) {
    if p.last.Some? then
      exists j: nat :: LastContactBefore(run, j, |run|) && p.last == Some(run[j].now) && p.told == run[j].window
    else forall k :: 0 <= k < |run| ==> !run[k].Contact?
  }

  lemma PunctualSoFar(started: Time, run: seq<Event>)
    requires run != [] && Punctual(started, run)
    ensures Punctual(started, run[..|run| - 1])
  {
    var before := run[..|run| - 1];
    forall i: nat, j: nat | i < |before| && LastContactBefore(before, j, i)
      ensures before[i].now - before[j].now <= before[j].window
    {
      assert forall k :: 0 <= k < |before| ==> before[k] == run[k];
      assert LastContactBefore(run, j, i);
    }
    forall i: nat | i < |before| && (forall k :: 0 <= k < i ==> !before[k].Contact?)
      ensures before[i].now - started <= SLOWEST_BEAT + MINUTE
    {
      assert forall k :: 0 <= k < i ==> before[k] == run[k];
    }
  }

  lemma RemembersOneMore(run: seq<Event>, p: Peer, e: Event, started: Time)
    requires Remembers(run, p) && !p.raised && !Step(started, p, e).0.raised
    ensures Remembers(run + [e], Step(started, p, e).0)
  {
    var longer := run + [e];
    if e.Contact? {
      assert LastContactBefore(longer, |run|, |longer|);
    } else if p.last.Some? {
      var j: nat :| LastContactBefore(run, j, |run|) && p.last == Some(run[j].now) && p.told == run[j].window;
      assert LastContactBefore(longer, j, |longer|);
    } else {
      assert forall k :: 0 <= k < |run| ==> longer[k] == run[k];
    }
  }

  lemma InTime(started: Time, run: seq<Event>, p: Peer)
    requires run != [] && Punctual(started, run) && Remembers(run[..|run| - 1], p)
    ensures Quiet(p, started, run[|run| - 1].now) <= Judged(p, 0)
    ensures p.last.Some? ==> Quiet(p, started, run[|run| - 1].now) <= p.told
  {
    var n := |run| - 1;
    var before := run[..n];
    assert forall k :: 0 <= k < n ==> before[k] == run[k];
    if p.last.Some? {
      var j: nat :| LastContactBefore(before, j, n) && p.last == Some(before[j].now) && p.told == before[j].window;
      assert LastContactBefore(run, j, n);
    }
  }

  lemma PunctualStep(started: Time, run: seq<Event>, p: Peer)
    requires run != [] && Punctual(started, run) && Remembers(run[..|run| - 1], p) && !p.raised
    ensures Step(started, p, run[|run| - 1]).1 == [] && !Step(started, p, run[|run| - 1]).0.raised
    ensures Remembers(run, Step(started, p, run[|run| - 1]).0)
  {
    InTime(started, run, p);
    RemembersOneMore(run[..|run| - 1], p, run[|run| - 1], started);
    assert run[..|run| - 1] + [run[|run| - 1]] == run;
  }

  /** A run in which nothing was raised, and what its end remembers. */
  ghost predicate Unraised(started: Time, run: seq<Event>) {
    && Edges(started, UNHEARD, run) == [] && !After(started, UNHEARD, run).raised
    && Remembers(run, After(started, UNHEARD, run))
  }

  /** A peer that keeps to what it was last told is never reported silent, under
      any sequence of window changes, shortenings included. */
  lemma {:induction false} PunctualIsNeverRaised(started: Time, run: seq<Event>)
    requires Punctual(started, run)
    ensures Edges(started, UNHEARD, run) == [] && !After(started, UNHEARD, run).raised
    ensures Unraised(started, run)
  {
    if run == [] {
      assert Remembers(run, UNHEARD);
    } else {
      PunctualSoFar(started, run);
      PunctualIsNeverRaised(started, run[..|run| - 1]);
      PunctualStep(started, run, After(started, UNHEARD, run[..|run| - 1]));
    }
  }

  /** ... and one that does not is noticed: a check of a paired peer leaves its
      incident open if it has been quiet for longer than both the window now
      configured and the one it was told of. */
  lemma QuietIsNoticed(started: Time, p: Peer, now: Time, window: Duration)
    requires p.last.Some?
    ensures now - p.last.value > window && now - p.last.value > p.told ==>
              Step(started, p, Check(now, window, true)).0.raised
    ensures !p.raised && Step(started, p, Check(now, window, true)).0.raised ==>
              now - p.last.value > window && now - p.last.value > p.told
  {
  }

  // ---- The longest recent gap ------------------------------------------------------------

  function Power(k: nat): (p: nat)
    ensures p >= 1
  {
    if k == 0 then 1 else 2 * Power(k - 1)
  }

  lemma HalvedAgain(x: Duration, k: nat)
    requires x >= 0
    ensures x / Power(k) / 2 == x / Power(k + 1)
  {
    DivAtLeast(x, Power(k), 0);
    HalfQuotient(x, Power(k), x / Power(k));
  }

  /** The last contact of the run, or the one before it began. */
  function LastTime(before: Time, run: seq<Event>): Time {
    if run == [] then before
    else
      var e := run[|run| - 1];
      if e.Contact? then e.now else LastTime(before, run[..|run| - 1])
  }

  function Contacts(run: seq<Event>): nat {
    if run == [] then 0
    else Contacts(run[..|run| - 1]) + if run[|run| - 1].Contact? then 1 else 0
  }

  /** A paired peer keeps calling, never more than G after its last call; any
      number of checks come in between. */
  predicate Paced(before: Time, run: seq<Event>, G: Duration) {
    run != [] ==>
      var earlier, e := run[..|run| - 1], run[|run| - 1];
      && Paced(before, earlier, G)
      && (match e
          case Contact(now, _) => LastTime(before, earlier) < now <= LastTime(before, earlier) + G
          case Check(_, _, paired) => paired)
  }

  function GapOf(p: Peer): Duration {
    if p.gap.Some? then p.gap.value else 0
  }

  lemma NewGapShrinks(recorded: Option<Duration>, g: Duration, G: Duration)
    requires 0 <= g <= G
    ensures var was := if recorded.Some? then recorded.value else 0;
            g <= NewGap(recorded, g) <= Max(G, was / 2)
  {
  }

  /** A peer that has since started keeping to a faster rate stops being flagged
      within a few contacts: after a run with k contacts at most G apart, checks
      and window changes between them, the recorded gap is at most G or what is
      left of the old one after k halvings. */
  lemma {:induction false} GapsDecay(started: Time, p: Peer, run: seq<Event>, G: Duration)
    requires p.last.Some? && GapOf(p) >= 0 && G >= 0 && Paced(p.last.value, run, G)
    ensures var end := After(started, p, run);
            && end.last == Some(LastTime(p.last.value, run))
            && 0 <= GapOf(end) <= Max(G, GapOf(p) / Power(Contacts(run)))
  {
    if run != [] {
      var earlier, e := run[..|run| - 1], run[|run| - 1];
      GapsDecay(started, p, earlier, G);
      if e.Contact? {
        var q := After(started, p, earlier);
        HalvedAgain(GapOf(p), Contacts(earlier));
        NewGapShrinks(q.gap, e.now - q.last.value, G);
        HalvesInOrder(GapOf(q), GapOf(p) / Power(Contacts(earlier)), G);
      }
    }
  }

  lemma HalvesInOrder(x: int, y: int, G: Duration)
    requires 0 <= x <= Max(G, y) && G >= 0
    ensures Max(G, x / 2) <= Max(G, y / 2)
  {
  }

  /** A contact, field by field: it is the last one, it takes the mark off, it tells the
      window; and a gap is put on record only if the clock has moved on since the one
      before. */
  lemma ContactExactly(started: Time, p: Peer, now: Time, window: Duration)
    ensures var (q, edges) := Step(started, p, Contact(now, window));
            && q.last == Some(now) && !q.raised && q.told == window
            && (edges == [Resolve] <==> p.raised) && (edges == [] <==> !p.raised)
            && (p.last.None? || now <= p.last.value ==> q.gap == p.gap)
            && (p.last.Some? && now > p.last.value ==> q.gap == Some(NewGap(p.gap, now - p.last.value)))
  {
  }

  /** A check, exactly: a paired peer is marked when it has been quiet for longer than
      the window and, heard of, than the one it was told, or else than six minutes; an
      unpaired one that was marked is let go. */
  lemma CheckExactly(started: Time, p: Peer, now: Time, window: Duration)
    ensures var (q, edges) := Step(started, p, Check(now, window, true));
            var since := if p.last.Some? then p.last.value else started;
            var least := if p.last.Some? then p.told else 360_000_000_000;
            && (q.raised <==> p.raised || (now - since > window && now - since > least))
            && (edges == [Raise] <==> q.raised && !p.raised) && (edges == [] <==> q.raised == p.raised)
            && q == p.(raised := q.raised)
    ensures var (q, edges) := Step(started, p, Check(now, window, false));
            if p.raised then q == p.(raised := false, last := None) && edges == [Resolve] else q == p && edges == []
  {
  }

  /** ... and right after a contact the record is never below the gap that the
      contact ended. */
  lemma RecordCoversTheLastGap(started: Time, p: Peer, now: Time, window: Duration)
    requires p.last.Some? && now > p.last.value
    ensures GapOf(Step(started, p, Contact(now, window)).0) >= now - p.last.value
  {
  }

  // ---- All the peers -----------------------------------------------------------------------

  /** The edges about one peer, of a mixed list. */
  function EdgesOf(edges: seq<(string, Edge)>, slug: string): seq<Edge> {
    if edges == [] then []
    else EdgesOf(edges[..|edges| - 1], slug)
         + if edges[|edges| - 1].0 == slug then [edges[|edges| - 1].1] else []
  }

  function Tagged(slug: string, edges: seq<Edge>): seq<(string, Edge)> {
    if edges == [] then [] else [(slug, edges[0])]
  }

  lemma OneMoreEdge(edges: seq<(string, Edge)>, slug: string, more: seq<Edge>)
    requires |more| <= 1
    ensures forall other :: EdgesOf(edges + Tagged(slug, more), other)
                            == EdgesOf(edges, other) + if other == slug then more else []
  {
    var all := edges + Tagged(slug, more);
    if more == [] {
      assert all == edges;
    } else {
      assert all[..|edges|] == edges;
    }
  }

  /** What the tables say of one peer. */
  function PeerIn(last: map<string, Time>, raised: set<string>, gap: map<string, Duration>,
                  told: map<string, Duration>, slug: string): Peer {
    Peer(if slug in last then Some(last[slug]) else None, slug in raised,
         if slug in gap then Some(gap[slug]) else None,
         if slug in told then told[slug] else 0)
  }

  /** Whether a paired peer has been quiet for too long. */
  predicate Late(last: map<string, Time>, told: map<string, Duration>, started: Time, slug: string,
                 now: Time, window: Duration) {
    var p := PeerIn(last, {}, map[], told, slug);
    Quiet(p, started, now) > Judged(p, window)
  }

  /** What a pass does to the tables, peer by peer, is a check of that peer. */
  lemma PassIsAStep(last: map<string, Time>, raised: set<string>, gap: map<string, Duration>,
                    told: map<string, Duration>, started: Time, slug: string, now: Time, window: Duration,
                    paired: bool)
    ensures var p := PeerIn(last, raised, gap, told, slug);
            var late := Late(last, told, started, slug, now, window);
            Step(started, p, Check(now, window, paired))
            == if paired then (p.(raised := p.raised || late), if late && !p.raised then [Raise] else [])
               else (p.(raised := false, last := if p.raised then None else p.last),
                     if p.raised then [Resolve] else [])
  {
  }

  class Liveness {
    const started: Time
    const silentAfter: Duration
    var last: map<string, Time>
    var raised: set<string>
    var gap: map<string, Duration>
    var told: map<string, Duration>

    constructor (start: Time, silence: Duration)
      ensures started == start && silentAfter == silence
      ensures forall slug :: State(slug) == UNHEARD
    {
      started, silentAfter := start, silence;
      last, raised, gap, told := map[], {}, map[], map[];
    }

    function State(slug: string): Peer
      reads this
    {
      PeerIn(last, raised, gap, told, slug)
    }

    /** A peer's configured window, or the default. */
    function Window(windowFor: string -> Duration, slug: string): Duration {
      if windowFor(slug) > 0 then windowFor(slug) else silentAfter
    }

    method Hear(slug: string, now: Time, windowFor: string -> Duration) returns (edges: seq<Edge>)
      modifies this
      ensures (State(slug), edges) == Step(started, old(State(slug)), Contact(now, Window(windowFor, slug)))
      ensures State(slug).told == if windowFor(slug) <= 0 then silentAfter else windowFor(slug)
      ensures forall other :: other != slug ==> State(other) == old(State(other))
    {
      told := told[slug := Window(windowFor, slug)];
      if slug in last && now > last[slug] {
        var g := now - last[slug];
        var was := if slug in gap then gap[slug] else 0;
        if g < was {
          g := Max(g, was / 2);
        }
        gap := gap[slug := g];
      }
      last := last[slug := now];
      edges := if slug in raised then [Resolve] else [];
      raised := raised - {slug};
    }

    method CheckOne(slug: string, now: Time, windowFor: string -> Duration) returns (edges: seq<Edge>)
      modifies this`raised
      ensures var up := slug !in old(raised) && Late(last, told, started, slug, now, Window(windowFor, slug));
              && raised == old(raised) + (if up then {slug} else {})
              && edges == if up then [Raise] else []
    {
      if slug in raised {
        return [];
      }
      var since := if slug in last then last[slug] else started;
      var window := Window(windowFor, slug);
      if slug in last {
        var prev := if slug in told then told[slug] else 0;
        if prev > window {
          window := prev;
        }
      } else if window < SLOWEST_BEAT + MINUTE {
        window := SLOWEST_BEAT + MINUTE;
      }
      if now - since <= window {
        return [];
      }
      raised := raised + {slug};
      return [Raise];
    }

    /** Raises for every paired peer that is late. */
    method RaiseLate(paired: seq<string>, now: Time, windowFor: string -> Duration)
      returns (edges: seq<(string, Edge)>)
      modifies this`raised
      ensures forall slug :: slug in raised <==>
                slug in old(raised)
                || (slug in paired && Late(last, told, started, slug, now, Window(windowFor, slug)))
      ensures forall slug :: EdgesOf(edges, slug) == if slug in raised && slug !in old(raised) then [Raise] else []
    {
      edges := [];
      for i := 0 to |paired|
        invariant forall slug :: slug in raised <==>
                    slug in old(raised)
                    || (slug in paired[..i] && Late(last, told, started, slug, now, Window(windowFor, slug)))
        invariant forall slug :: EdgesOf(edges, slug)
                                 == if slug in raised && slug !in old(raised) then [Raise] else []
      {
        var slug := paired[i];
        assert paired[..i + 1] == paired[..i] + [slug];
        var more := CheckOne(slug, now, windowFor);
        OneMoreEdge(edges, slug, more);
        edges := edges + Tagged(slug, more);
      }
      assert paired[..|paired|] == paired;
    }

    /** Resolves for every raised peer that is no longer paired. */
    method DropUnpaired(paired: seq<string>, before: seq<(string, Edge)>) returns (edges: seq<(string, Edge)>)
      requires forall slug :: slug !in paired ==> EdgesOf(before, slug) == []
      modifies this`raised, this`last
      ensures forall slug :: slug in raised <==> slug in old(raised) && slug in paired
      ensures last == old(last) - (old(raised) - raised)
      ensures forall slug :: EdgesOf(edges, slug)
                             == if slug in old(raised) && slug !in paired then [Resolve] else EdgesOf(before, slug)
    {
      edges := before;
      var left := raised;
      ghost var gone: set<string> := {};
      while left != {}
        invariant raised == old(raised) - gone && last == old(last) - gone
        invariant forall slug :: slug in gone <==> slug in old(raised) && slug !in left && slug !in paired
        invariant left <= old(raised)
        invariant forall slug :: EdgesOf(edges, slug) == if slug in gone then [Resolve] else EdgesOf(before, slug)
        decreases left
      {
        var slug :| slug in left;
        left := left - {slug};
        if slug !in paired {
          gone := gone + {slug};
          assert last - {slug} == old(last) - gone;
          raised := raised - {slug};
          last := last - {slug};
          assert EdgesOf(edges, slug) + [Resolve] == [Resolve];
          OneMoreEdge(edges, slug, [Resolve]);
          edges := edges + Tagged(slug, [Resolve]);
        }
      }
      assert gone == old(raised) - raised;
    }

    /** One pass over the paired peers, and then over those no longer paired:
        what each peer gets of it is its own check and nothing else. */
    method CheckAll(paired: seq<string>, now: Time, windowFor: string -> Duration)
      returns (edges: seq<(string, Edge)>)
      modifies this`raised, this`last
      ensures forall slug ::
                (State(slug), EdgesOf(edges, slug))
                == Step(started, old(State(slug)), Check(now, Window(windowFor, slug), slug in paired))
    {
      var up := RaiseLate(paired, now, windowFor);
      edges := DropUnpaired(paired, up);
      forall slug
        ensures (State(slug), EdgesOf(edges, slug))
                == Step(started, old(State(slug)), Check(now, Window(windowFor, slug), slug in paired))
      {
        PassIsAStep(old(last), old(raised), gap, told, started, slug, now, Window(windowFor, slug), slug in paired);
      }
    }
  }
}
