/** A live row is a summary of its history: every fact on it can be read off the
    list of what happened to it, and nothing else is on it. */
module Histories {
  import opened Base
  import opened Incidents

  datatype Kind = Told | Failed | Answered | Cleared | Closing | Arrived

  function KindOf(m: Mutation): Kind {
    match m
    case Alert(_, _) => Told
    case DeliveryFailure(_, _) => Failed
    case Ack(_, _) => Answered
    case Resolution(_) => Cleared
    case Close(_, _) => Closing
    case Occurrence(_, _, _, _) => Arrived
  }

  function CountOf(ms: seq<Mutation>, k: Kind): nat {
    if ms == [] then 0 else (if KindOf(ms[0]) == k then 1 else 0) + CountOf(ms[1..], k)
  }

  function First(ms: seq<Mutation>, k: Kind): (i: Option<nat>)
    ensures i.None? ==> forall j :: 0 <= j < |ms| ==> KindOf(ms[j]) != k
    ensures i.Some? ==> i.value < |ms| && KindOf(ms[i.value]) == k
                        && forall j :: 0 <= j < i.value ==> KindOf(ms[j]) != k
  {
    if ms == [] then None
    else if KindOf(ms[0]) == k then Some(0)
    else
      match First(ms[1..], k)
      case None => None
      case Some(i) => Some(i + 1)
  }

  function Last(ms: seq<Mutation>, k: Kind): (i: Option<nat>)
    ensures i.None? ==> forall j :: 0 <= j < |ms| ==> KindOf(ms[j]) != k
    ensures i.Some? ==> i.value < |ms| && KindOf(ms[i.value]) == k
                        && forall j :: i.value < j < |ms| ==> KindOf(ms[j]) != k
  {
    if ms == [] then None
    else
      match Last(ms[1..], k)
      case Some(i) => Some(i + 1)
      case None => if KindOf(ms[0]) == k then Some(0) else None
  }

  lemma LiveThroughout(ms: seq<Mutation>, r: Record)
    requires !ApplyAll(ms, r).Terminal()
    ensures !r.Terminal()
    ensures ms != [] ==> !Apply(ms[0], r).Terminal()
  {
    if r.Terminal() {
      ClosedIsAbsorbing(ms, r);
    }
    if ms != [] && Apply(ms[0], r).Terminal() {
      ClosedIsAbsorbing(ms[1..], Apply(ms[0], r));
    }
  }

  /** Every alert is counted, and the first and the last keep their stamps. */
  predicate AlertsSummed(ms: seq<Mutation>, r: Record, end: Record) {
    && end.alertCount == r.alertCount + CountOf(ms, Told)
    && end.lastAlertAt == (match Last(ms, Told)
                           case None => r.lastAlertAt
                           case Some(i) => Some(ms[i].at))
    && end.firstAlertAt == (if r.firstAlertAt.Some? then r.firstAlertAt
                            else
                              match First(ms, Told)
                              case None => None
                              case Some(i) => Some(ms[i].at))
  }

  /** The highest stage reached stands. */
  predicate StageSummed(ms: seq<Mutation>, r: Record, end: Record) {
    && r.stage <= end.stage
    && (forall i :: 0 <= i < |ms| && ms[i].Alert? ==> ms[i].stage <= end.stage)
    && (end.stage == r.stage || exists i :: 0 <= i < |ms| && ms[i].Alert? && ms[i].stage == end.stage)
  }

  /** The first answer stands. */
  predicate AnswersSummed(ms: seq<Mutation>, r: Record, end: Record) {
    (end.ackedAt, end.ackVia) == (if r.ackedAt.Some? then (r.ackedAt, r.ackVia)
                                  else
                                    match First(ms, Answered)
                                    case None => (None, r.ackVia)
                                    case Some(i) => (Some(ms[i].at), ms[i].via))
  }

  /** The first clear stands, and nothing closed it. */
  predicate ClearsSummed(ms: seq<Mutation>, r: Record, end: Record) {
    && end.resolvedAt == (if r.resolvedAt.Some? then r.resolvedAt
                          else
                            match First(ms, Cleared)
                            case None => None
                            case Some(i) => Some(ms[i].at))
    && First(ms, Closing).None? && end.closedAt.None?
  }

  /** Every arrival is counted, and the last one's detail is shown. */
  predicate ArrivalsSummed(ms: seq<Mutation>, r: Record, end: Record) {
    && end.occurrences == (if CountOf(ms, Arrived) == 0 then r.occurrences
                           else Max(1, r.occurrences) + CountOf(ms, Arrived))
    && end.detail == (match Last(ms, Arrived)
                      case None => r.detail
                      case Some(i) => ms[i].detail)
  }

  /** The severity is the worst there was. */
  predicate SeveritySummed(ms: seq<Mutation>, r: Record, end: Record) {
    && r.severity.Rank() <= end.severity.Rank()
    && (forall i :: 0 <= i < |ms| && ms[i].Occurrence? ==> ms[i].severity.Rank() <= end.severity.Rank())
    && (end.severity == r.severity
        || exists i :: 0 <= i < |ms| && ms[i].Occurrence? && ms[i].severity == end.severity)
  }

  /** The error shown is that of the last delivery, if it failed. */
  predicate ErrorsSummed(ms: seq<Mutation>, r: Record, end: Record) {
    end.lastDeliveryError ==
    match (Last(ms, Failed), Last(ms, Told))
    case (None, None) => r.lastDeliveryError
    case (None, Some(_)) => ""
    case (Some(i), None) => ms[i].err
    case (Some(i), Some(j)) => if i > j then ms[i].err else ""
  }

  lemma {:induction false} AlertsAreSummed(ms: seq<Mutation>, r: Record)
    requires !ApplyAll(ms, r).Terminal()
    ensures AlertsSummed(ms, r, ApplyAll(ms, r))
    decreases ms
  {
    LiveThroughout(ms, r);
    if ms != [] {
      AlertsAreSummed(ms[1..], Apply(ms[0], r));
    }
  }

  lemma {:induction false} AnswersAreSummed(ms: seq<Mutation>, r: Record)
    requires !ApplyAll(ms, r).Terminal()
    ensures AnswersSummed(ms, r, ApplyAll(ms, r))
    decreases ms
  {
    LiveThroughout(ms, r);
    if ms != [] {
      AnswersAreSummed(ms[1..], Apply(ms[0], r));
    }
  }

  lemma {:induction false} ClearsAreSummed(ms: seq<Mutation>, r: Record)
    requires !ApplyAll(ms, r).Terminal()
    ensures ClearsSummed(ms, r, ApplyAll(ms, r))
    decreases ms
  {
    LiveThroughout(ms, r);
    if ms != [] {
      ClearsAreSummed(ms[1..], Apply(ms[0], r));
    }
  }

  lemma {:induction false} ArrivalsAreSummed(ms: seq<Mutation>, r: Record)
    requires !ApplyAll(ms, r).Terminal()
    ensures ArrivalsSummed(ms, r, ApplyAll(ms, r))
    decreases ms
  {
    LiveThroughout(ms, r);
    if ms != [] {
      ArrivalsAreSummed(ms[1..], Apply(ms[0], r));
    }
  }

  lemma StageInTurn(m: Mutation, rest: seq<Mutation>, r: Record, next: Record, end: Record)
    requires StageSummed(rest, next, end)
    requires next.stage == if m.Alert? && m.stage > r.stage then m.stage else r.stage
    ensures StageSummed([m] + rest, r, end)
  {
    var ms := [m] + rest;
    assert forall i :: 0 < i < |ms| ==> ms[i] == rest[i - 1];
    if end.stage != next.stage {
      var i :| 0 <= i < |rest| && rest[i].Alert? && rest[i].stage == end.stage;
      assert ms[i + 1].stage == end.stage;
    } else if end.stage != r.stage {
      assert ms[0].Alert? && ms[0].stage == end.stage;
    }
  }

  lemma {:induction false} StageIsSummed(ms: seq<Mutation>, r: Record)
    requires !ApplyAll(ms, r).Terminal()
    ensures StageSummed(ms, r, ApplyAll(ms, r))
    decreases ms
  {
    LiveThroughout(ms, r);
    if ms != [] {
      StageIsSummed(ms[1..], Apply(ms[0], r));
      StageInTurn(ms[0], ms[1..], r, Apply(ms[0], r), ApplyAll(ms, r));
      assert [ms[0]] + ms[1..] == ms;
    }
  }

  lemma SeverityInTurn(m: Mutation, rest: seq<Mutation>, r: Record, next: Record, end: Record)
    requires SeveritySummed(rest, next, end)
    requires next.severity == if m.Occurrence? && m.severity.Rank() > r.severity.Rank() then m.severity
                              else r.severity
    ensures SeveritySummed([m] + rest, r, end)
  {
    var ms := [m] + rest;
    assert forall i :: 0 < i < |ms| ==> ms[i] == rest[i - 1];
    if end.severity != next.severity {
      var i :| 0 <= i < |rest| && rest[i].Occurrence? && rest[i].severity == end.severity;
      assert ms[i + 1].severity == end.severity;
    } else if end.severity != r.severity {
      assert ms[0].Occurrence? && ms[0].severity == end.severity;
    }
  }

  lemma {:induction false} SeverityIsSummed(ms: seq<Mutation>, r: Record)
    requires !ApplyAll(ms, r).Terminal()
    ensures SeveritySummed(ms, r, ApplyAll(ms, r))
    decreases ms
  {
    LiveThroughout(ms, r);
    if ms != [] {
      SeverityIsSummed(ms[1..], Apply(ms[0], r));
      SeverityInTurn(ms[0], ms[1..], r, Apply(ms[0], r), ApplyAll(ms, r));
      assert [ms[0]] + ms[1..] == ms;
    }
  }

  lemma {:induction false} ErrorsAreSummed(ms: seq<Mutation>, r: Record)
    requires !ApplyAll(ms, r).Terminal()
    ensures ErrorsSummed(ms, r, ApplyAll(ms, r))
    decreases ms
  {
    LiveThroughout(ms, r);
    if ms != [] {
      ErrorsAreSummed(ms[1..], Apply(ms[0], r));
    }
  }

  /** Whatever happened to a row and in whatever order, as long as it is still
      live it says exactly what its history says. */
  lemma ALiveRowIsItsHistory(ms: seq<Mutation>, r: Record)
    requires !ApplyAll(ms, r).Terminal()
    ensures var end := ApplyAll(ms, r);
            && AlertsSummed(ms, r, end) && StageSummed(ms, r, end)
            && AnswersSummed(ms, r, end) && ClearsSummed(ms, r, end)
            && ArrivalsSummed(ms, r, end) && SeveritySummed(ms, r, end)
            && ErrorsSummed(ms, r, end)
  {
    AlertsAreSummed(ms, r);
    StageIsSummed(ms, r);
    AnswersAreSummed(ms, r);
    ClearsAreSummed(ms, r);
    ArrivalsAreSummed(ms, r);
    SeverityIsSummed(ms, r);
    ErrorsAreSummed(ms, r);
  }
}
