/** Where a peer's edges land. They are taken under the lock and reported outside it,
    by the contact that took them or by the one check at a time, in any order. */
module PeerLandings {
  import opened Base
  import opened PeerLiveness

  /** A report that landed, and whether it said what was so by then. */
  datatype Landing = Landing(edge: Edge, fits: bool)

  /** One peer: what the tables say of it, what the check and the contacts have still
      to report, and whether its incident is open. */
  datatype Site = Site(p: Peer, check: Option<Edge>, pending: set<nat>, open: bool, log: seq<Landing>)

  datatype Label =
    | Hear(k: nat, now: Time, window: Duration)
    | Look(now: Time, window: Duration, paired: bool)
    | CheckLands
    | ContactLands(k: nat)

  function Landed(s: Site, e: Edge): Site {
    s.(open := e.Raise?, log := s.log + [Landing(e, e.Raise? == s.p.raised)])
  }

  function Next(started: Time, s: Site, l: Label): Site {
    match l
    case Hear(k, now, window) =>
      if k in s.pending then s
      else
        var (p, edges) := Step(started, s.p, Contact(now, window));
        s.(p := p, pending := if edges == [] then s.pending else s.pending + {k})
    case Look(now, window, paired) =>
      if s.check.Some? then s
      else
        var (p, edges) := Step(started, s.p, Check(now, window, paired));
        s.(p := p, check := if edges == [] then None else Some(edges[0]))
    case CheckLands => if s.check.Some? then Landed(s.(check := None), s.check.value) else s
    case ContactLands(k) => if k in s.pending then Landed(s.(pending := s.pending - {k}), Resolve) else s
  }

  function Exec(started: Time, s: Site, ls: seq<Label>): Site {
    if ls == [] then s else Next(started, Exec(started, s, ls[..|ls| - 1]), ls[|ls| - 1])
  }

  /** Nobody is about to report. */
  predicate Settled(s: Site) {
    s.check.None? && s.pending == {}
  }

  predicate LastFits(log: seq<Landing>) {
    log == [] || log[|log| - 1].fits
  }

  predicate Accounted(s: Site) {
    Settled(s) ==> ((s.open <==> s.p.raised) <==> LastFits(s.log))
  }

  lemma StepAccounts(started: Time, s: Site, l: Label)
    requires Accounted(s)
    ensures Accounted(Next(started, s, l))
  {
    match l
    case Hear(k, _, _) => assert k in s.pending + {k};
    case Look(_, _, _) =>
    case CheckLands =>
    case ContactLands(_) =>
  }

  /** Exactly when the incident is open for a peer that is down as silent and closed
      for one that is not, after any run that comes to rest: when the last report to
      land said what was so as it landed. */
  lemma {:induction false} OpenIsTrueExactlyWhen(started: Time, s: Site, ls: seq<Label>)
    requires Accounted(s)
    ensures Accounted(Exec(started, s, ls))
    ensures Settled(Exec(started, s, ls)) ==>
              ((Exec(started, s, ls).open <==> Exec(started, s, ls).p.raised) <==> LastFits(Exec(started, s, ls).log))
  {
    if ls != [] {
      OpenIsTrueExactlyWhen(started, s, ls[..|ls| - 1]);
      StepAccounts(started, Exec(started, s, ls[..|ls| - 1]), ls[|ls| - 1]);
    }
  }

  // ---- Which reports come too late -----------------------------------------------------------

  /** A contact is taken in. */
  predicate Heard(s: Site, l: Label) {
    l.Hear? && l.k !in s.pending
  }

  /** A look finds a paired peer quiet for longer than it is held to. */
  predicate FindsLate(started: Time, s: Site, l: Label) {
    && l.Look? && s.check.None? && l.paired && !s.p.raised
    && Quiet(s.p, started, l.now) > Judged(s.p, l.window)
  }

  /** A look finds a raised peer no longer paired. */
  predicate FindsUnpaired(s: Site, l: Label) {
    l.Look? && s.check.None? && !l.paired && s.p.raised
  }

  /** The tables' mark goes up with a late peer, and down with a contact or an
      unpairing. */
  lemma MarkMovesExactlyWhen(started: Time, s: Site, l: Label)
    ensures Next(started, s, l).p.raised
            <==> FindsLate(started, s, l) || (s.p.raised && !Heard(s, l) && !FindsUnpaired(s, l))
  {
  }

  ghost predicate HeardIn(started: Time, s: Site, ls: seq<Label>) {
    exists i :: 0 <= i < |ls| && Heard(Exec(started, s, ls[..i]), ls[i])
  }

  lemma HeardInOneMore(started: Time, s: Site, ls: seq<Label>)
    requires ls != []
    ensures HeardIn(started, s, ls)
            <==> HeardIn(started, s, ls[..|ls| - 1]) || Heard(Exec(started, s, ls[..|ls| - 1]), ls[|ls| - 1])
  {
    var before := ls[..|ls| - 1];
    assert forall i :: 0 <= i < |before| ==> before[..i] == ls[..i] && before[i] == ls[i];
  }

  predicate NoneIs(ls: seq<Label>, l: Label) {
    forall i :: 0 <= i < |ls| ==> ls[i] != l
  }

  /** Exactly when the check's raise lands too late: when the peer has been heard since
      the check took it. */
  lemma {:induction false} ARaiseIsLateExactlyWhen(started: Time, s: Site, ls: seq<Label>)
    requires s.check == Some(Raise) && s.p.raised && NoneIs(ls, CheckLands)
    ensures var t := Exec(started, s, ls);
            && t.check == Some(Raise)
            && Next(started, t, CheckLands).log == t.log + [Landing(Raise, !HeardIn(started, s, ls))]
            && (t.p.raised <==> !HeardIn(started, s, ls))
  {
    if ls != [] {
      var before, l := ls[..|ls| - 1], ls[|ls| - 1];
      ARaiseIsLateExactlyWhen(started, s, before);
      HeardInOneMore(started, s, ls);
      MarkMovesExactlyWhen(started, Exec(started, s, before), l);
      assert l != CheckLands;
    }
  }

  /** The check's resolve, of a peer that is no longer paired, never does. */
  lemma {:induction false} AnUnpairingIsNeverLate(started: Time, s: Site, ls: seq<Label>)
    requires s.check == Some(Resolve) && !s.p.raised && NoneIs(ls, CheckLands)
    ensures var t := Exec(started, s, ls);
            t.check == Some(Resolve) && !t.p.raised
            && Next(started, t, CheckLands).log == t.log + [Landing(Resolve, true)]
  {
    if ls != [] {
      var before, l := ls[..|ls| - 1], ls[|ls| - 1];
      AnUnpairingIsNeverLate(started, s, before);
      MarkMovesExactlyWhen(started, Exec(started, s, before), l);
      assert l != CheckLands;
    }
  }

  /** Step `i` of the run finds the peer late. */
  predicate LateAt(started: Time, s: Site, ls: seq<Label>, i: nat)
    requires i < |ls|
  {
    FindsLate(started, Exec(started, s, ls[..i]), ls[i])
  }

  /** Step `i` of the run hears the peer, or finds it raised and unpaired. */
  predicate TakenBackAt(started: Time, s: Site, ls: seq<Label>, i: nat)
    requires i < |ls|
  {
    Heard(Exec(started, s, ls[..i]), ls[i]) || FindsUnpaired(Exec(started, s, ls[..i]), ls[i])
  }

  /** A look found the peer late, and since then it was neither heard nor unpaired. */
  ghost predicate LateAgain(started: Time, s: Site, ls: seq<Label>) {
    exists i :: 0 <= i < |ls| && LateAt(started, s, ls, i)
                && (forall j :: i < j < |ls| ==> !TakenBackAt(started, s, ls, j))
  }

  lemma EarlierSteps(started: Time, s: Site, ls: seq<Label>)
    requires ls != []
    ensures var before := ls[..|ls| - 1];
            forall i :: 0 <= i < |before| ==>
              && LateAt(started, s, before, i) == LateAt(started, s, ls, i)
              && TakenBackAt(started, s, before, i) == TakenBackAt(started, s, ls, i)
  {
    var before := ls[..|ls| - 1];
    forall i | 0 <= i < |before|
      ensures LateAt(started, s, before, i) == LateAt(started, s, ls, i)
      ensures TakenBackAt(started, s, before, i) == TakenBackAt(started, s, ls, i)
    {
      assert before[..i] == ls[..i] && before[i] == ls[i];
    }
  }

  lemma LateAgainOneMore(started: Time, s: Site, ls: seq<Label>)
    requires ls != []
    ensures LateAgain(started, s, ls)
            <==> || LateAt(started, s, ls, |ls| - 1)
                 || (LateAgain(started, s, ls[..|ls| - 1]) && !TakenBackAt(started, s, ls, |ls| - 1))
  {
    EarlierSteps(started, s, ls);
  }

  /** Exactly when a contact's resolve lands too late: when a check has found the peer
      late again since, and nothing has taken that back. */
  lemma {:induction false} AResolveIsLateExactlyWhen(started: Time, s: Site, ls: seq<Label>, k: nat)
    requires k in s.pending && !s.p.raised && NoneIs(ls, ContactLands(k))
    ensures var t := Exec(started, s, ls);
            && k in t.pending
            && Next(started, t, ContactLands(k)).log == t.log + [Landing(Resolve, !LateAgain(started, s, ls))]
            && (t.p.raised <==> LateAgain(started, s, ls))
  {
    if ls != [] {
      var before, l := ls[..|ls| - 1], ls[|ls| - 1];
      AResolveIsLateExactlyWhen(started, s, before, k);
      LateAgainOneMore(started, s, ls);
      MarkMovesExactlyWhen(started, Exec(started, s, before), l);
      assert l != ContactLands(k);
    }
  }

  // ---- A healthy peer whose incident stays open ---------------------------------------------

  function AtRest(p: Peer): Site {
    Site(p, None, {}, false, [])
  }

  /** The peer is found late; before that is reported it is heard, and its resolve
      lands; then the raise does. The incident is open for a peer that is well and
      that the tables do not have down as silent. */
  lemma AHealthyPeerCanBeLeftOpen(started: Time, p: Peer, now: Time, window: Duration, later: Duration)
    requires !p.raised && Quiet(p, started, now) > Judged(p, window)
    ensures var ls := [Look(now, window, true), Hear(0, now, later), ContactLands(0), CheckLands];
            var t := Exec(started, AtRest(p), ls);
            && Settled(t) && t.open && !t.p.raised && t.p.last == Some(now)
            && t.log == [Landing(Resolve, true), Landing(Raise, false)]
  {
    var s := AtRest(p);
    var ls := [Look(now, window, true), Hear(0, now, later), ContactLands(0), CheckLands];
    assert ls[..3] == [Look(now, window, true), Hear(0, now, later), ContactLands(0)];
    assert ls[..3][..2] == [Look(now, window, true), Hear(0, now, later)];
    assert ls[..3][..2][..1] == [Look(now, window, true)] && ls[..3][..2][..1][..0] == [];
    var s1 := Next(started, s, ls[0]);
    assert s1 == s.(p := p.(raised := true), check := Some(Raise));
    assert Exec(started, s, ls[..3][..2][..1]) == s1;
    var s2 := Next(started, s1, ls[1]);
    assert s2.pending == {0} && s2.check == Some(Raise) && !s2.p.raised;
    assert Exec(started, s, ls[..3][..2]) == s2;
    var s3 := Next(started, s2, ls[2]);
    assert Exec(started, s, ls[..3]) == s3;
    assert s3.log == [Landing(Resolve, true)];
  }

  /** ... and it stays open, whatever is heard from the peer, until a check finds it
      late once more. */
  lemma {:induction false} NoContactClosesIt(started: Time, s: Site, ls: seq<Label>)
    requires Settled(s) && s.open && !s.p.raised
    requires forall i :: 0 <= i < |ls| ==> !FindsLate(started, Exec(started, s, ls[..i]), ls[i])
    ensures var t := Exec(started, s, ls);
            Settled(t) && t.open && !t.p.raised
  {
    if ls != [] {
      var before := ls[..|ls| - 1];
      forall i | 0 <= i < |before|
        ensures !FindsLate(started, Exec(started, s, before[..i]), before[i])
      {
        assert before[..i] == ls[..i];
      }
      NoContactClosesIt(started, s, before);
      MarkMovesExactlyWhen(started, Exec(started, s, before), ls[|ls| - 1]);
    }
  }
}
