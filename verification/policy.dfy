/** When an incident should be alerted again, and through which channels.

    Every decision is a function of the row's persisted stamps and the policy,
    so a restart loses nothing. */
module Policies {
  import opened Base
  import opened Incidents

  datatype Stage = Stage(after: Duration, channels: seq<string>)

  datatype Policy = Policy(
    name: string, stages: seq<Stage>, repeatEvery: Duration, giveUpAfter: Duration,
    respectQuietHours: bool)

  datatype PolicyError =
    | NoStages
    | StagesUnordered(i: nat)
    | NoChannels(i: nat)
    | CriticalQuietHours
    | CriticalGivesUp

  // ---- What a ladder may look like ----------------------------------------

  /** The first n rungs are in strictly increasing order of their offsets. */
  ghost predicate OrderedTo(stages: seq<Stage>, n: nat)
    requires n <= |stages|
  {
    && (forall i :: 0 <= i < n ==> 0 <= stages[i].after)
    && (forall i, j :: 0 <= i < j < n ==> stages[i].after < stages[j].after)
  }

  /** Each of the first n rungs has somewhere to go. */
  ghost predicate HeardTo(stages: seq<Stage>, n: nat)
    requires n <= |stages|
  {
    forall i :: 0 <= i < n ==> stages[i].channels != []
  }

  ghost predicate WellFormed(stages: seq<Stage>) {
    stages != [] && OrderedTo(stages, |stages|) && HeardTo(stages, |stages|)
  }

  /** A ladder that can express itself: rungs in order, each with somewhere to
      go, and a critical one that can be neither muted nor given up on. */
  ghost predicate Valid(p: Policy, sev: Severity) {
    && WellFormed(p.stages)
    && (sev == Critical ==> !p.respectQuietHours && p.giveUpAfter == 0)
  }

  /** What each refusal says about the ladder it refused. */
  ghost predicate Explains(e: PolicyError, p: Policy, sev: Severity) {
    match e
    case NoStages => p.stages == []
    case StagesUnordered(i) =>
      && i < |p.stages| && OrderedTo(p.stages, i) && HeardTo(p.stages, i)
      && p.stages[i].after <= (if i == 0 then -1 else p.stages[i - 1].after)
    case NoChannels(i) =>
      && i < |p.stages| && OrderedTo(p.stages, i + 1) && HeardTo(p.stages, i)
      && p.stages[i].channels == []
    case CriticalQuietHours =>
      && WellFormed(p.stages) && sev == Critical && p.respectQuietHours
    case CriticalGivesUp =>
      && WellFormed(p.stages) && sev == Critical && !p.respectQuietHours && p.giveUpAfter != 0
  }

  lemma NextRungInOrder(stages: seq<Stage>, n: nat)
    requires n < |stages| && OrderedTo(stages, n)
    requires stages[n].after > (if n == 0 then -1 else stages[n - 1].after)
    ensures OrderedTo(stages, n + 1)
  {
    forall i | 0 <= i < n
      ensures stages[i].after < stages[n].after
    {
      assert stages[i].after <= stages[n - 1].after;
    }
  }

  /** A policy is accepted exactly when it is valid, and a refusal names the
      first thing wrong with it. */
  method Validate(p: Policy, sev: Severity) returns (err: Option<PolicyError>)
    ensures err.None? <==> Valid(p, sev)
    ensures err.Some? ==> Explains(err.value, p, sev)
  {
    if |p.stages| == 0 {
      return Some(NoStages);
    }
    var last: Duration := -1;
    for i := 0 to |p.stages|
      invariant OrderedTo(p.stages, i) && HeardTo(p.stages, i)
      invariant last == if i == 0 then -1 else p.stages[i - 1].after
    {
      var s := p.stages[i];
      if s.after <= last {
        return Some(StagesUnordered(i));
      }
      NextRungInOrder(p.stages, i);
      last := s.after;
      if |s.channels| == 0 {
        return Some(NoChannels(i));
      }
    }
    if sev == Critical {
      if p.respectQuietHours {
        return Some(CriticalQuietHours);
      }
      if p.giveUpAfter != 0 {
        return Some(CriticalGivesUp);
      }
    }
    return None;
  }

  /** Exactly which ladders pass, rung by rung: the first comes no earlier than the
      incident, each next one strictly later than the one before, and each names a
      channel; and a critical ladder neither respects quiet hours nor gives up. */
  lemma ValidExactlyWhen(p: Policy, sev: Severity)
    ensures Valid(p, sev) <==>
              && |p.stages| > 0 && p.stages[0].after >= 0
              && (forall i :: 0 < i < |p.stages| ==> p.stages[i - 1].after < p.stages[i].after)
              && (forall i :: 0 <= i < |p.stages| ==> |p.stages[i].channels| > 0)
              && (sev == Critical ==> !p.respectQuietHours && p.giveUpAfter == 0)
  {
    if |p.stages| > 0 && p.stages[0].after >= 0
       && forall i :: 0 < i < |p.stages| ==> p.stages[i - 1].after < p.stages[i].after {
      forall i, j | 0 <= i < j < |p.stages|
        ensures 0 <= p.stages[i].after < p.stages[j].after
      {
        StepByStep(p.stages, i, j);
        if i > 0 {
          StepByStep(p.stages, 0, i);
        }
      }
    }
  }

  lemma {:induction false} StepByStep(stages: seq<Stage>, i: nat, j: nat)
    requires i < j < |stages| && forall k :: 0 < k < |stages| ==> stages[k - 1].after < stages[k].after
    ensures stages[i].after < stages[j].after
    decreases j - i
  {
    if i + 1 < j {
      StepByStep(stages, i, j - 1);
      assert stages[j - 1].after < stages[j].after;
    }
  }

  // ---- When the next alert is due -----------------------------------------

  datatype Due = Never | DueAt(at: Time, stage: int)

  /** The first rung at or after i whose time is strictly after t; the number
      of rungs when there is none. */
  function RungAfter(stages: seq<Stage>, openedAt: Time, t: Time, i: nat): (k: nat)
    requires i <= |stages|
    ensures i <= k <= |stages|
    ensures forall j :: i <= j < k ==> openedAt + stages[j].after <= t
    ensures k < |stages| ==> openedAt + stages[k].after > t
    decreases |stages| - i
  {
    if i == |stages| then i
    else if openedAt + stages[i].after > t then i
    else RungAfter(stages, openedAt, t, i + 1)
  }

  /** A ladder with no rungs, which never passes validation, repeats its last
      alert on a stage before the first. */
  function NextDue(p: Policy, r: Record): (d: Due)
    ensures d.DueAt? ==> -1 <= d.stage < |p.stages| && (p.stages != [] ==> d.stage >= 0)
  {
    if r.Terminal() || r.ackedAt.Some? || r.resolvedAt.Some? then Never
    else if r.lastAlertAt.None? then
      if |p.stages| == 0 then Never else DueAt(r.openedAt + p.stages[0].after, 0)
    else
      var last := r.lastAlertAt.value;
      var k := RungAfter(p.stages, r.openedAt, last, 0);
      if k < |p.stages| then DueAt(r.openedAt + p.stages[k].after, k)
      else if p.repeatEvery <= 0 then Never
      else DueAt(last + p.repeatEvery, |p.stages| - 1)
  }

  method ComputeNextDue(p: Policy, r: Record) returns (d: Due)
    ensures d == NextDue(p, r)
  {
    if r.Terminal() || r.ackedAt.Some? || r.resolvedAt.Some? {
      return Never;
    }
    if r.lastAlertAt.None? {
      if |p.stages| == 0 {
        return Never;
      }
      return DueAt(r.openedAt + p.stages[0].after, 0);
    }
    for i := 0 to |p.stages|
      invariant RungAfter(p.stages, r.openedAt, r.lastAlertAt.value, 0)
                == RungAfter(p.stages, r.openedAt, r.lastAlertAt.value, i)
    {
      var t := r.openedAt + p.stages[i].after;
      if t > r.lastAlertAt.value {
        return DueAt(t, i);
      }
    }
    if p.repeatEvery <= 0 {
      return Never;
    }
    return DueAt(r.lastAlertAt.value + p.repeatEvery, |p.stages| - 1);
  }

  // ---- Which channels ------------------------------------------------------

  function AddNew(out: seq<string>, channels: seq<string>): seq<string>
    decreases channels
  {
    if channels == [] then out
    else AddNew(if channels[0] in out then out else out + [channels[0]], channels[1..])
  }

  /** Every channel named on these rungs, in ladder order, each once. */
  function Union(stages: seq<Stage>): seq<string> {
    if stages == [] then []
    else AddNew(Union(stages[..|stages| - 1]), stages[|stages| - 1].channels)
  }

  function ChannelsUpTo(p: Policy, st: nat): seq<string> {
    Union(if st < |p.stages| then p.stages[..st + 1] else p.stages)
  }

  lemma {:induction false} AddNewAddsEachOnce(out: seq<string>, channels: seq<string>)
    requires Distinct(out)
    ensures var all := AddNew(out, channels);
            && Distinct(all) && IsPrefix(out, all)
            && forall c :: c in all <==> c in out || c in channels
    decreases channels
  {
    if channels != [] {
      var next := if channels[0] in out then out else out + [channels[0]];
      AddNewAddsEachOnce(next, channels[1..]);
      assert channels == [channels[0]] + channels[1..];
    }
  }

  lemma {:induction false} UnionNamesEachOnce(stages: seq<Stage>)
    ensures Distinct(Union(stages))
    ensures forall c :: c in Union(stages) <==>
              exists i :: 0 <= i < |stages| && c in stages[i].channels
  {
    if stages != [] {
      var n := |stages| - 1;
      UnionNamesEachOnce(stages[..n]);
      AddNewAddsEachOnce(Union(stages[..n]), stages[n].channels);
      forall c
        ensures c in Union(stages) <==> exists i :: 0 <= i < |stages| && c in stages[i].channels
      {
        if c in Union(stages[..n]) {
          var i :| 0 <= i < n && c in stages[..n][i].channels;
          assert c in stages[i].channels;
        }
        if i :| 0 <= i < |stages| && c in stages[i].channels {
          if i < n {
            assert c in stages[..n][i].channels;
          }
        }
      }
    }
  }

  lemma {:induction false} UnionGrows(stages: seq<Stage>, m: nat)
    requires m <= |stages|
    ensures IsPrefix(Union(stages[..m]), Union(stages))
  {
    if m == |stages| {
      assert stages[..m] == stages;
    } else {
      var n := |stages| - 1;
      UnionGrows(stages[..n], m);
      assert stages[..n][..m] == stages[..m];
      UnionNamesEachOnce(stages[..n]);
      AddNewAddsEachOnce(Union(stages[..n]), stages[n].channels);
    }
  }

  method ComputeChannelsUpTo(p: Policy, st: nat) returns (out: seq<string>)
    ensures out == ChannelsUpTo(p, st)
  {
    var seen: set<string> := {};
    out := [];
    var i := 0;
    while i <= st && i < |p.stages|
      invariant i <= |p.stages| && i <= st + 1
      invariant out == Union(p.stages[..i])
      invariant forall c :: c in seen <==> c in out
    {
      var channels := p.stages[i].channels;
      for j := 0 to |channels|
        invariant AddNew(out, channels[j..]) == AddNew(Union(p.stages[..i]), channels)
        invariant forall c :: c in seen <==> c in out
      {
        var c := channels[j];
        if c !in seen {
          seen := seen + {c};
          out := out + [c];
        }
      }
      assert p.stages[..i + 1][..i] == p.stages[..i];
      i := i + 1;
    }
    assert p.stages[..|p.stages|] == p.stages;
  }

  function HighestRungDue(stages: seq<Stage>, openedAt: Time, now: Time): (st: nat)
    ensures stages != [] ==> st < |stages|
    ensures forall j :: st < j < |stages| ==> openedAt + stages[j].after > now
    ensures 0 < st < |stages| ==> openedAt + stages[st].after <= now
  {
    if stages == [] then 0
    else if openedAt + stages[|stages| - 1].after <= now then |stages| - 1
    else HighestRungDue(stages[..|stages| - 1], openedAt, now)
  }

  method ComputeHighestRungDue(p: Policy, openedAt: Time, now: Time) returns (st: nat)
    ensures st == HighestRungDue(p.stages, openedAt, now)
  {
    st := 0;
    for i := 0 to |p.stages|
      invariant st == HighestRungDue(p.stages[..i], openedAt, now)
    {
      if openedAt + p.stages[i].after <= now {
        st := i;
      }
      assert p.stages[..i + 1][..i] == p.stages[..i];
    }
    assert p.stages[..|p.stages|] == p.stages;
  }

  datatype Decision = NotDue | Fire(stage: nat, channels: seq<string>)

  /** With no rungs there is nothing to fire; the source has no answer there. */
  function DueNow(p: Policy, r: Record, now: Time): Decision {
    match NextDue(p, r)
    case Never => NotDue
    case DueAt(at, st) =>
      if at > now || st < 0 then NotDue
      else if r.lastAlertAt.None? then
        var rung := HighestRungDue(p.stages, r.openedAt, now);
        Fire(rung, ChannelsUpTo(p, rung))
      else Fire(st, p.stages[st].channels)
  }

  /** The one delivery owed to an incident that cleared before anybody was
      told. */
  function OwedFinalDelivery(p: Policy, r: Record): Decision {
    if |p.stages| == 0 || r.Terminal() || r.ackedAt.Some? || r.resolvedAt.None?
       || r.firstAlertAt.Some?
    then NotDue
    else Fire(0, ChannelsUpTo(p, 0))
  }

  predicate ShouldGiveUp(p: Policy, r: Record, now: Time) {
    && p.giveUpAfter > 0 && !r.Terminal() && r.ackedAt.None?
    && r.firstAlertAt.Some?
    && now - r.openedAt > p.giveUpAfter
  }

  // ---- What the schedule promises ------------------------------------------

  /** The row is a live obligation nobody has been reached about. */
  predicate Unheard(r: Record) {
    !r.Terminal() && r.ackedAt.None? && r.resolvedAt.None? && r.lastAlertAt.None?
  }

  /** Until somebody has been reached, the ladder climbs by age alone: the
      channels due are exactly those of every rung whose time has come, each
      named once, so rung i's channels are in from its own offset on. */
  lemma WidestNetBeforeSuccess(p: Policy, sev: Severity, r: Record, now: Time)
    requires Valid(p, sev) && Unheard(r)
    ensures DueNow(p, r, now).Fire? <==> r.openedAt + p.stages[0].after <= now
    ensures DueNow(p, r, now).Fire? ==>
              && Distinct(DueNow(p, r, now).channels)
              && forall c :: c in DueNow(p, r, now).channels <==>
                   exists i :: 0 <= i < |p.stages| && r.openedAt + p.stages[i].after <= now
                               && c in p.stages[i].channels
  {
    if r.openedAt + p.stages[0].after <= now {
      var st := HighestRungDue(p.stages, r.openedAt, now);
      var due := p.stages[..st + 1];
      UnionNamesEachOnce(due);
      forall c
        ensures c in Union(due) <==>
                exists i :: 0 <= i < |p.stages| && r.openedAt + p.stages[i].after <= now
                            && c in p.stages[i].channels
      {
        if c in Union(due) {
          var i :| 0 <= i < |due| && c in due[i].channels;
          assert due[i] == p.stages[i];
          assert p.stages[i].after <= p.stages[st].after;
        }
        if i :| 0 <= i < |p.stages| && r.openedAt + p.stages[i].after <= now
                && c in p.stages[i].channels {
          assert i <= st && due[i] == p.stages[i];
        }
      }
    }
  }

  /** ... and the set of channels only ever grows with time, the earlier list
      being the beginning of the later one. */
  lemma NetOnlyGrows(p: Policy, sev: Severity, r: Record, now: Time, later: Time)
    requires Valid(p, sev) && Unheard(r) && now <= later
    requires DueNow(p, r, now).Fire?
    ensures DueNow(p, r, later).Fire?
    ensures DueNow(p, r, now).stage <= DueNow(p, r, later).stage
    ensures IsPrefix(DueNow(p, r, now).channels, DueNow(p, r, later).channels)
  {
    var a := HighestRungDue(p.stages, r.openedAt, now);
    var b := HighestRungDue(p.stages, r.openedAt, later);
    var up := p.stages[..b + 1];
    UnionGrows(up, a + 1);
    assert up[..a + 1] == p.stages[..a + 1];
  }

  /** Once somebody has been told, the ladder goes on one rung at a time: due is
      the first rung that lay ahead of the last alert, through its own channels
      alone; and past the last rung, that rung again every repeat interval. */
  lemma OneRungAtATimeAfterSuccess(p: Policy, sev: Severity, r: Record, now: Time, st: nat)
    requires Valid(p, sev) && r.lastAlertAt.Some? && st < |p.stages|
    requires !r.Terminal() && r.ackedAt.None? && r.resolvedAt.None?
    ensures var last, n := r.lastAlertAt.value, |p.stages|;
            DueNow(p, r, now) == Fire(st, p.stages[st].channels) <==>
              || (last < r.openedAt + p.stages[st].after <= now
                  && (st == 0 || r.openedAt + p.stages[st - 1].after <= last))
              || (st == n - 1 && r.openedAt + p.stages[st].after <= last
                  && p.repeatEvery > 0 && last + p.repeatEvery <= now)
    ensures DueNow(p, r, now).Fire? ==>
              DueNow(p, r, now).channels == p.stages[DueNow(p, r, now).stage].channels
  {
    var k := RungAfter(p.stages, r.openedAt, r.lastAlertAt.value, 0);
    assert k < |p.stages| && k < st ==> p.stages[k].after <= p.stages[st - 1].after;
    assert st < k ==> p.stages[st].after <= p.stages[k - 1].after;
  }

  /** The final delivery is owed exactly to an incident that cleared untold and
      unanswered, on the first rung's channels, each named once. */
  lemma OwedExactlyWhen(p: Policy, r: Record)
    ensures OwedFinalDelivery(p, r).Fire? <==>
              p.stages != [] && r.resolvedAt.Some? && r.closedAt.None? && r.ackedAt.None? && r.firstAlertAt.None?
    ensures OwedFinalDelivery(p, r).Fire? ==>
              && OwedFinalDelivery(p, r).stage == 0 && Distinct(OwedFinalDelivery(p, r).channels)
              && forall c :: c in OwedFinalDelivery(p, r).channels <==> c in p.stages[0].channels
  {
    if p.stages != [] {
      UnionNamesEachOnce(p.stages[..1]);
      assert p.stages[..1][0] == p.stages[0];
    }
  }

  /** Mutations that are not a success, an answer, a clear or a close. */
  predicate TellsNobody(m: Mutation) {
    m.DeliveryFailure? || m.Occurrence?
  }

  /** However many deliveries fail and however many repeats arrive, the ladder
      is not pinned: what is due at any instant is unchanged. */
  lemma {:induction false} FailuresNeverPinTheLadder(p: Policy, r: Record, ms: seq<Mutation>, now: Time)
    requires forall m :: m in ms ==> TellsNobody(m)
    requires Unheard(r)
    ensures Unheard(ApplyAll(ms, r))
    ensures DueNow(p, ApplyAll(ms, r), now) == DueNow(p, r, now)
    decreases ms
  {
    if ms != [] {
      assert TellsNobody(ms[0]);
      FailuresNeverPinTheLadder(p, Apply(ms[0], r), ms[1..], now);
    }
  }

  /** No burst: once an alert is recorded the next obligation lies strictly in
      the future, so however late a tick comes it fires once. */
  lemma NoBurst(p: Policy, r: Record, now: Time, st: int)
    requires !r.Terminal()
    ensures var after := r.RecordAlert(now, st);
            && (NextDue(p, after).DueAt? ==> NextDue(p, after).at > now)
            && DueNow(p, after, now) == NotDue
  {
  }

  /** A momentary incident that cleared before anybody was told stays owed its
      one delivery through every mutation that is not an acknowledgement, a
      close or a recorded alert, and is never given up on meanwhile. */
  lemma {:induction false} OwedUntilSettled(p: Policy, r: Record, ms: seq<Mutation>, now: Time)
    requires OwedFinalDelivery(p, r).Fire?
    requires forall m :: m in ms ==> !m.Ack? && !m.Close? && !m.Alert?
    ensures OwedFinalDelivery(p, ApplyAll(ms, r)) == OwedFinalDelivery(p, r)
    ensures DueNow(p, ApplyAll(ms, r), now) == NotDue
    ensures !ShouldGiveUp(p, ApplyAll(ms, r), now)
    decreases ms
  {
    if ms != [] {
      var m := ms[0];
      assert !m.Ack? && !m.Close? && !m.Alert?;
      OwedUntilSettled(p, Apply(m, r), ms[1..], now);
    }
  }

  /** ... and once one delivery is recorded on a cleared incident, nothing is
      due or owed for it again, whatever happens to it next. */
  lemma {:induction false} OnceToldNeverAgain(p: Policy, r: Record, ms: seq<Mutation>, now: Time)
    requires r.resolvedAt.Some? && r.firstAlertAt.Some?
    ensures DueNow(p, ApplyAll(ms, r), now) == NotDue
    ensures OwedFinalDelivery(p, ApplyAll(ms, r)) == NotDue
    decreases ms
  {
    if ms != [] {
      ApplyKeeps(ms[0], r);
      OnceToldNeverAgain(p, Apply(ms[0], r), ms[1..], now);
    }
  }
}
