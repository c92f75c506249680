/** One peer's hold on a capability: lost at once, regained with hysteresis. */
module Claims {
  import opened Base

  const DEFAULT_RESUME_AFTER: Duration := 2 * MINUTE

  /** What the claim hears. An edge is that of a condition the operator approved
      as demoting; any other condition moves nothing. */
  datatype Event = Beat(at: Time) | Raised(condition: string, at: Time) | Cleared(condition: string, at: Time)

  datatype Verdict =
    | NotHeardYet
    | Silent(quiet: Duration)
    | Reporting(conditions: set<string>)
    | WaitingToRecover
    | Recovering(wait: Duration)
    | Held

  datatype Hold = Hold(demoting: set<string>, lastBeat: Option<Time>, healthySince: Option<Time>) {
    function MarkHealthy(now: Time): Hold {
      if demoting == {} && healthySince.None? then this.(healthySince := Some(now)) else this
    }

    function Hears(e: Event): Hold {
      match e
      case Beat(at) => this.(lastBeat := Some(at)).MarkHealthy(at)
      case Raised(c, at) => this.(demoting := demoting + {c}, healthySince := None)
      case Cleared(c, at) => this.(demoting := demoting - {c}).MarkHealthy(at)
    }

    function Judged(resumeAfter: Duration, silentAfter: Duration, now: Time): Verdict {
      if lastBeat.None? then NotHeardYet
      else if silentAfter > 0 && now - lastBeat.value > silentAfter then Silent(now - lastBeat.value)
      else if demoting != {} then Reporting(demoting)
      else if healthySince.None? then WaitingToRecover
      else if resumeAfter - (now - healthySince.value) > 0 then
        Recovering(resumeAfter - (now - healthySince.value))
      else Verdict.Held
    }
  }

  const UNHEARD: Hold := Hold({}, None, None)

  /** The claim after everything heard so far. */
  function After(trace: seq<Event>): Hold {
    if trace == [] then UNHEARD else After(trace[..|trace| - 1]).Hears(trace[|trace| - 1])
  }

  // ---- What the claim means, said of the trace alone -----------------------------

  /** The condition was raised and has not been cleared since. */
  ghost predicate StillRaised(trace: seq<Event>, c: string) {
    exists i :: 0 <= i < |trace| && trace[i].Raised? && trace[i].condition == c
                && NotClearedSince(trace, i, c)
  }

  ghost predicate NotClearedSince(trace: seq<Event>, i: nat, c: string) {
    forall j :: i < j < |trace| ==> trace[j] != Cleared(c, trace[j].at)
  }

  ghost predicate AllCleared(trace: seq<Event>) {
    forall c :: !StillRaised(trace, c)
  }

  ghost predicate LastContact(trace: seq<Event>, t: Time) {
    exists i :: 0 <= i < |trace| && trace[i] == Beat(t) && forall j :: i < j < |trace| ==> !trace[j].Beat?
  }

  /** Recovery could have begun with the k-th event: a contact or a clear that
      left nothing raised, and nothing was raised from then on. */
  ghost predicate Recovers(trace: seq<Event>, k: nat) {
    && k < |trace| && !trace[k].Raised?
    && AllCleared(trace[..k + 1])
    && forall j :: k <= j < |trace| ==> !trace[j].Raised?
  }

  /** ... and did, no earlier one would do. */
  ghost predicate RecoveryBeganAt(trace: seq<Event>, t: Time) {
    exists k: nat :: Recovers(trace, k) && trace[k].at == t && forall j: nat :: j < k ==> !Recovers(trace, j)
  }

  // ---- The fields are that meaning -------------------------------------------------

  lemma {:induction false} DemotingIsStillRaised(trace: seq<Event>)
    ensures forall c :: c in After(trace).demoting <==> StillRaised(trace, c)
  {
    if trace != [] {
      var n := |trace| - 1;
      var before := trace[..n];
      DemotingIsStillRaised(before);
      forall c
        ensures StillRaised(trace, c) <==>
                trace[n] == Raised(c, trace[n].at)
                || (StillRaised(before, c) && trace[n] != Cleared(c, trace[n].at))
      {
        OneMoreEdge(before, trace[n], c);
        assert before + [trace[n]] == trace;
      }
    }
  }

  lemma OneMoreEdge(before: seq<Event>, e: Event, c: string)
    ensures StillRaised(before + [e], c) <==>
              e == Raised(c, e.at) || (StillRaised(before, c) && e != Cleared(c, e.at))
  {
    var trace := before + [e];
    if StillRaised(trace, c) {
      var i :| 0 <= i < |trace| && trace[i].Raised? && trace[i].condition == c && NotClearedSince(trace, i, c);
      if i < |before| {
        assert before[i] == trace[i];
        assert NotClearedSince(before, i, c) by {
          forall j | i < j < |before|
            ensures before[j] != Cleared(c, before[j].at)
          {
            assert before[j] == trace[j];
          }
        }
        assert trace[|before|] == e;
      }
    }
    if e == Raised(c, e.at) {
      assert trace[|before|] == e && NotClearedSince(trace, |before|, c);
    } else if StillRaised(before, c) && e != Cleared(c, e.at) {
      var i :| 0 <= i < |before| && before[i].Raised? && before[i].condition == c && NotClearedSince(before, i, c);
      assert trace[i] == before[i] && NotClearedSince(trace, i, c);
    }
  }

  lemma ClearedTogether(trace: seq<Event>)
    ensures After(trace).demoting == {} <==> AllCleared(trace)
  {
    DemotingIsStillRaised(trace);
    if AllCleared(trace) {
      assert forall c :: c !in After(trace).demoting;
    }
  }

  lemma {:induction false} LastBeatIsLastContact(trace: seq<Event>)
    ensures forall t :: After(trace).lastBeat == Some(t) <==> LastContact(trace, t)
  {
    if trace != [] {
      var n := |trace| - 1;
      LastBeatIsLastContact(trace[..n]);
      forall t
        ensures After(trace).lastBeat == Some(t) <==> LastContact(trace, t)
      {
        if trace[n].Beat? {
          if trace[n].at == t {
            assert trace[n] == Beat(t);
          }
        } else {
          if LastContact(trace[..n], t) {
            var i :| 0 <= i < n && trace[..n][i] == Beat(t) && forall j :: i < j < n ==> !trace[..n][j].Beat?;
            assert trace[i] == Beat(t);
            assert forall j :: i < j < n ==> trace[..n][j] == trace[j];
          }
          if LastContact(trace, t) {
            var i :| 0 <= i < |trace| && trace[i] == Beat(t) && forall j :: i < j < |trace| ==> !trace[j].Beat?;
            assert trace[..n][i] == Beat(t);
          }
        }
      }
    }
  }

  lemma RecoversLonger(before: seq<Event>, e: Event, k: nat)
    requires k < |before|
    ensures Recovers(before + [e], k) <==> Recovers(before, k) && !e.Raised?
  {
    var trace := before + [e];
    assert trace[..k + 1] == before[..k + 1];
    assert trace[|before|] == e;
    if Recovers(trace, k) {
      assert forall j :: k <= j < |before| ==> before[j] == trace[j];
    }
  }

  lemma RecoversNow(before: seq<Event>, e: Event)
    ensures Recovers(before + [e], |before|) <==> !e.Raised? && AllCleared(before + [e])
  {
    assert (before + [e])[..|before| + 1] == before + [e];
  }

  /** The recovery clock is unset exactly when recovery has not begun. */
  lemma {:induction false} ClockIsTheRecovery(trace: seq<Event>)
    ensures match After(trace).healthySince
            case Some(t) => RecoveryBeganAt(trace, t)
            case None => forall k: nat :: !Recovers(trace, k)
    decreases |trace|
  {
    if trace != [] {
      var before, e := trace[..|trace| - 1], trace[|trace| - 1];
      assert before + [e] == trace;
      ClockIsTheRecovery(before);
      ClearedTogether(trace);
      RecoversNow(before, e);
      forall k: nat | k < |before|
        ensures Recovers(trace, k) <==> Recovers(before, k) && !e.Raised?
      {
        RecoversLonger(before, e, k);
      }
      if e.Raised? {
        NotRecovering(before, e, trace);
      } else if After(before).healthySince.Some? {
        StillRecovering(before, e, trace, After(before).healthySince.value);
      } else if AllCleared(trace) {
        RecoveringFromNow(before, e, trace);
      } else {
        NotRecovering(before, e, trace);
      }
    }
  }

  /** How recovery steps, as the two lemmas above find it. */
  ghost predicate RecoverySteps(before: seq<Event>, e: Event, trace: seq<Event>) {
    && trace == before + [e]
    && (forall k: nat :: k < |before| ==> (Recovers(trace, k) <==> Recovers(before, k) && !e.Raised?))
    && (Recovers(trace, |before|) <==> !e.Raised? && AllCleared(trace))
  }

  lemma StillRecovering(before: seq<Event>, e: Event, trace: seq<Event>, t: Time)
    requires RecoverySteps(before, e, trace) && RecoveryBeganAt(before, t) && !e.Raised?
    ensures RecoveryBeganAt(trace, t)
  {
    var k: nat :| Recovers(before, k) && before[k].at == t && forall j: nat :: j < k ==> !Recovers(before, j);
    assert Recovers(trace, k) && trace[k].at == t;
  }

  lemma NotRecovering(before: seq<Event>, e: Event, trace: seq<Event>)
    requires RecoverySteps(before, e, trace)
    requires e.Raised? || ((forall k: nat :: !Recovers(before, k)) && !AllCleared(trace))
    ensures forall k: nat :: !Recovers(trace, k)
  {
    forall k: nat
      ensures !Recovers(trace, k)
    {
      assert k >= |trace| ==> !Recovers(trace, k);
    }
  }

  lemma RecoveringFromNow(before: seq<Event>, e: Event, trace: seq<Event>)
    requires RecoverySteps(before, e, trace) && !e.Raised? && AllCleared(trace)
    requires forall k: nat :: !Recovers(before, k)
    ensures RecoveryBeganAt(trace, e.at)
  {
    assert Recovers(trace, |before|) && trace[|before|].at == e.at;
  }

  // ---- The claim --------------------------------------------------------------------

  /** While anything demotes it the recovery clock is unset; and a peer that has
      been heard from with nothing raised is already on the clock, so no run
      ends in the source's "waiting to recover" answer. */
  lemma {:induction false} NeverWaitingToRecover(trace: seq<Event>, resumeAfter: Duration,
                                                 silentAfter: Duration, now: Time)
    ensures var c := After(trace);
            && (c.demoting != {} ==> c.healthySince.None?)
            && (c.demoting == {} && c.lastBeat.Some? ==> c.healthySince.Some?)
            && c.Judged(resumeAfter, silentAfter, now) != WaitingToRecover
    decreases trace
  {
    if trace != [] {
      NeverWaitingToRecover(trace[..|trace| - 1], resumeAfter, silentAfter, now);
    }
  }

  /** The claim is held exactly when the peer was last heard from within the
      window, everything demoting it ever raised has been cleared since, and
      recovery from the last of those began at least resumeAfter ago. */
  lemma HeldExactlyWhen(trace: seq<Event>, resumeAfter: Duration, silentAfter: Duration, now: Time)
    ensures After(trace).Judged(resumeAfter, silentAfter, now).Held? <==>
              && (exists t :: LastContact(trace, t) && (silentAfter > 0 ==> now - t <= silentAfter))
              && AllCleared(trace)
              && (exists t :: RecoveryBeganAt(trace, t) && now - t >= resumeAfter)
  {
    var c := After(trace);
    LastBeatIsLastContact(trace);
    ClearedTogether(trace);
    ClockIsTheRecovery(trace);
    if c.lastBeat.Some? {
      assert LastContact(trace, c.lastBeat.value);
    }
    if c.healthySince.Some? {
      OneRecovery(trace, c.healthySince.value);
    }
  }

  /** The reason given for a claim that is not held is the true one. */
  lemma ReasonsAreTrue(trace: seq<Event>, resumeAfter: Duration, silentAfter: Duration, now: Time)
    ensures match After(trace).Judged(resumeAfter, silentAfter, now)
            case NotHeardYet => forall t :: !LastContact(trace, t)
            case Silent(quiet) => quiet > silentAfter > 0 && LastContact(trace, now - quiet)
            case Reporting(conditions) => conditions != {} && forall c :: c in conditions <==> StillRaised(trace, c)
            case WaitingToRecover => false
            case Recovering(wait) =>
              AllCleared(trace) && wait > 0 && RecoveryBeganAt(trace, now - resumeAfter + wait)
            case Held => AllCleared(trace)
  {
    LastBeatIsLastContact(trace);
    DemotingIsStillRaised(trace);
    ClearedTogether(trace);
    ClockIsTheRecovery(trace);
    NeverWaitingToRecover(trace, resumeAfter, silentAfter, now);
  }

  lemma OneRecovery(trace: seq<Event>, t: Time)
    requires RecoveryBeganAt(trace, t)
    ensures forall u :: RecoveryBeganAt(trace, u) ==> u == t
  {
    var k: nat :| Recovers(trace, k) && trace[k].at == t && forall j: nat :: j < k ==> !Recovers(trace, j);
    forall u | RecoveryBeganAt(trace, u)
      ensures u == t
    {
      var l: nat :| Recovers(trace, l) && trace[l].at == u && forall j: nat :: j < l ==> !Recovers(trace, j);
      assert k == l;
    }
  }

  ghost predicate InOrder(trace: seq<Event>) {
    forall i, j :: 0 <= i < j < |trace| ==> trace[i].at <= trace[j].at
  }

  /** Losing the claim is immediate and regaining it is not: once demoted at t,
      a peer holds nothing before t + resumeAfter, whatever it says next. */
  lemma NoFlapping(trace: seq<Event>, i: nat, resumeAfter: Duration, silentAfter: Duration, now: Time)
    requires InOrder(trace) && i < |trace| && trace[i].Raised?
    requires After(trace).Judged(resumeAfter, silentAfter, now).Held?
    ensures now >= trace[i].at + resumeAfter
  {
    HeldExactlyWhen(trace, resumeAfter, silentAfter, now);
    var t :| RecoveryBeganAt(trace, t) && now - t >= resumeAfter;
    var k: nat :| Recovers(trace, k) && trace[k].at == t && forall j: nat :: j < k ==> !Recovers(trace, j);
    assert i < k;
  }

  /** The delay is for demotions only: a peer that held its claim and then fell
      silent holds it again from its first contact, with no time to serve. */
  lemma SilenceCostsNothingAfterwards(trace: seq<Event>, resumeAfter: Duration, silentAfter: Duration,
                                      before: Time, back: Time)
    requires After(trace).Judged(resumeAfter, silentAfter, before).Held? && before <= back
    ensures After(trace + [Beat(back)]).Judged(resumeAfter, silentAfter, back).Held?
  {
    assert (trace + [Beat(back)])[..|trace|] == trace;
  }

  class Claim {
    const resumeAfter: Duration
    var demoting: set<string>
    var lastBeat: Option<Time>
    var healthySince: Option<Time>

    constructor (configured: Duration)
      ensures Value() == UNHEARD
      ensures resumeAfter == if configured > 0 then configured else DEFAULT_RESUME_AFTER
    {
      resumeAfter := if configured > 0 then configured else DEFAULT_RESUME_AFTER;
      demoting, lastBeat, healthySince := {}, None, None;
    }

    function Value(): Hold
      reads this
    {
      Hold(demoting, lastBeat, healthySince)
    }

    method MarkHealthy(now: Time)
      modifies this`healthySince
      ensures Value() == old(Value()).MarkHealthy(now)
    {
      if demoting == {} && healthySince.None? {
        healthySince := Some(now);
      }
    }

    method Heartbeat(now: Time)
      modifies this
      ensures Value() == old(Value()).Hears(Beat(now))
    {
      lastBeat := Some(now);
      MarkHealthy(now);
    }

    method Observe(condition: string, demotes: bool, cleared: bool, now: Time)
      modifies this
      ensures Value() == if !demotes then old(Value())
                         else old(Value()).Hears(if cleared then Cleared(condition, now) else Raised(condition, now))
    {
      if !demotes {
        return;
      }
      if cleared {
        demoting := demoting - {condition};
        MarkHealthy(now);
        return;
      }
      demoting := demoting + {condition};
      healthySince := None;
    }

    method JudgedNow(now: Time, silentAfter: Duration) returns (v: Verdict)
      ensures v == Value().Judged(resumeAfter, silentAfter, now)
    {
      if lastBeat.None? {
        return NotHeardYet;
      }
      if silentAfter > 0 && now - lastBeat.value > silentAfter {
        return Silent(now - lastBeat.value);
      }
      if |demoting| > 0 {
        return Reporting(demoting);
      }
      if healthySince.None? {
        return WaitingToRecover;
      }
      var wait := resumeAfter - (now - healthySince.value);
      if wait > 0 {
        return Recovering(wait);
      }
      return Verdict.Held;
    }
  }
}
