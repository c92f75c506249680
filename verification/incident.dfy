/** The incident: a condition that was observed and is not yet dealt with.

    Its lifecycle position is never stored. It is computed from four nullable
    stamps, and every mutator either refuses or only adds to what is known. */
module Incidents {
  import opened Base

  datatype Severity = Critical | High | Medium | Low | Info | Other(name: string) {
    /** The engine's ranking, which only ever lets a live incident rise. */
    function Rank(): nat {
      match this
      case Critical => 5
      case High => 4
      case Medium => 3
      case Low => 2
      case Info => 1
      case Other(_) => 0
    }
  }

  datatype State = Open | Alerting | Acknowledged | Resolved | Closed

  /** One stored row. Mutators are total: where the source answers with its
      closed error, the row comes back as it was. */
  datatype Record = Record(
    id: string, dedupKey: string, severity: Severity, source: string,
    title: string, detail: string, openedAt: Time,
    firstAlertAt: Option<Time>, lastAlertAt: Option<Time>, alertCount: nat, stage: int,
    ackedAt: Option<Time>, ackVia: string, resolvedAt: Option<Time>,
    closedAt: Option<Time>, closeReason: string,
    predecessorID: string, lastDeliveryError: string,
    updatedAt: Time, occurrences: int)
  {
    function State(): State {
      if closedAt.Some? then Closed
      else if ackedAt.Some? && resolvedAt.Some? then Closed
      else if ackedAt.Some? then Acknowledged
      else if resolvedAt.Some? then Resolved
      else if firstAlertAt.Some? then Alerting
      else Open
    }

    /** Whether the incident will never alert again. */
    predicate Terminal()
      ensures Terminal() <==> State() == Closed
    {
      closedAt.Some? || (ackedAt.Some? && resolvedAt.Some?)
    }

    /** The version token only moves forward. */
    function Touch(at: Time): Time {
      if at > updatedAt then at else updatedAt
    }

    function RecordAlert(at: Time, st: int): Record {
      if Terminal() then this
      else
        this.(firstAlertAt := if firstAlertAt.None? then Some(at) else firstAlertAt,
              lastAlertAt := Some(at),
              alertCount := alertCount + 1,
              stage := if st > stage then st else stage,
              lastDeliveryError := "", updatedAt := Touch(at))
    }

    function RecordDeliveryFailure(at: Time, err: string): Record {
      this.(lastDeliveryError := err, updatedAt := Touch(at))
    }

    function Acknowledge(at: Time, via: string): Record {
      if Terminal() || ackedAt.Some? then this
      else this.(ackedAt := Some(at), ackVia := via, updatedAt := Touch(at))
    }

    function Resolve(at: Time): Record {
      if Terminal() || resolvedAt.Some? then this
      else this.(resolvedAt := Some(at), updatedAt := Touch(at))
    }

    function Close(at: Time, reason: string): Record {
      if closedAt.Some? then this
      else this.(closedAt := Some(at), closeReason := reason, updatedAt := Touch(at))
    }

    function Occur(at: Time, newTitle: string, newDetail: string): Record {
      if Terminal() then this
      else
        this.(occurrences := (if occurrences < 1 then 1 else occurrences) + 1,
              title := if newTitle != "" then newTitle else title,
              detail := newDetail, updatedAt := Touch(at))
    }

    function RaiseSeverity(to: Severity): Record {
      if to.Rank() > severity.Rank() then this.(severity := to) else this
    }

    /** Nothing `this` knows is missing from, or different in, the later row:
        a stamp once set keeps its value, counters and the version token never
        fall, and a row that is over is never alerted on again. */
    predicate KeptBy(later: Record) {
      && later.id == id && later.dedupKey == dedupKey && later.openedAt == openedAt
      && later.predecessorID == predecessorID
      && (firstAlertAt.Some? ==> later.firstAlertAt == firstAlertAt)
      && (lastAlertAt.Some? ==> later.lastAlertAt.Some?)
      && (ackedAt.Some? ==> later.ackedAt == ackedAt && later.ackVia == ackVia)
      && (resolvedAt.Some? ==> later.resolvedAt == resolvedAt)
      && (closedAt.Some? ==> later.closedAt == closedAt && later.closeReason == closeReason)
      && alertCount <= later.alertCount && stage <= later.stage
      && occurrences <= later.occurrences
      && severity.Rank() <= later.severity.Rank()
      && updatedAt <= later.updatedAt
      && (Terminal() ==> later.alertCount == alertCount && later.lastAlertAt == lastAlertAt
                         && later.occurrences == occurrences)
    }
  }

  function OpenRecord(id: string, dedupKey: string, sev: Severity, source: string, title: string,
                      detail: string, now: Time): Record {
    Record(id, dedupKey, sev, source, title, detail, now, None, None, 0, 0, None, "", None,
           None, "", "", "", now, 1)
  }

  /** The successor of a condition that cleared and came back. */
  function Recur(r: Record, newID: string, now: Time): Record {
    OpenRecord(newID, r.dedupKey, r.severity, r.source, r.title, r.detail, now).(predecessorID := r.id)
  }

  /** Every way a row is changed by incident.go's own methods. */
  datatype Mutation =
    | Alert(at: Time, stage: int)
    | DeliveryFailure(at: Time, err: string)
    | Ack(at: Time, via: string)
    | Resolution(at: Time)
    | Close(at: Time, reason: string)
    | Occurrence(at: Time, severity: Severity, title: string, detail: string)

  /** An arrival first lets the severity rise, as the rule engine does. */
  function Apply(m: Mutation, r: Record): Record {
    match m
    case Alert(at, stage) => r.RecordAlert(at, stage)
    case DeliveryFailure(at, err) => r.RecordDeliveryFailure(at, err)
    case Ack(at, via) => r.Acknowledge(at, via)
    case Resolution(at) => r.Resolve(at)
    case Close(at, reason) => r.Close(at, reason)
    case Occurrence(at, sev, title, detail) => r.RaiseSeverity(sev).Occur(at, title, detail)
  }

  function ApplyAll(ms: seq<Mutation>, r: Record): Record {
    if ms == [] then r else ApplyAll(ms[1..], Apply(ms[0], r))
  }

  lemma KeptByTransitive(a: Record, b: Record, c: Record)
    requires a.KeptBy(b) && b.KeptBy(c)
    ensures a.KeptBy(c)
  {
  }

  lemma ApplyKeeps(m: Mutation, r: Record)
    ensures r.KeptBy(Apply(m, r))
  {
    match m
    case Alert(at, stage) =>
    case DeliveryFailure(at, err) =>
    case Ack(at, via) =>
    case Resolution(at) =>
    case Close(at, reason) =>
    case Occurrence(at, sev, title, detail) =>
  }

  lemma ApplyKeepsIdentity(m: Mutation, r: Record)
    ensures Apply(m, r).id == r.id && Apply(m, r).dedupKey == r.dedupKey
  {
    ApplyKeeps(m, r);
  }

  /** No history of mutators, in any order and with any stamps, ever takes back
      a fact: a first stamp stays, a counter never falls, the token never
      falls. */
  lemma {:induction false} MutationsKeep(ms: seq<Mutation>, r: Record)
    ensures r.KeptBy(ApplyAll(ms, r))
  {
    if ms != [] {
      var next := Apply(ms[0], r);

      ApplyKeeps(ms[0], r);
      MutationsKeep(ms[1..], next);
      KeptByTransitive(r, next, ApplyAll(ms[1..], next));
    }
  }

  /** How a row that is over may still differ later: a first explicit close
      can be written on it, and so can a late delivery error. Everything a
      person was told, answered or cleared stays as it was. */
  predicate SettledAs(r: Record, end: Record) {
    && end.Terminal()
    && end.firstAlertAt == r.firstAlertAt && end.lastAlertAt == r.lastAlertAt
    && end.alertCount == r.alertCount && end.stage == r.stage
    && end.ackedAt == r.ackedAt && end.ackVia == r.ackVia
    && end.resolvedAt == r.resolvedAt && end.occurrences == r.occurrences
    && end.title == r.title && end.detail == r.detail
    && (r.closedAt.Some? ==> end.closedAt == r.closedAt && end.closeReason == r.closeReason)
  }

  lemma ApplyOnClosed(m: Mutation, r: Record)
    requires r.Terminal()
    ensures SettledAs(r, Apply(m, r))
  {
  }

  /** Closed is absorbing, by an explicit close or by being both acknowledged
      and resolved: no later history of mutators revives the row. */
  lemma {:induction false} ClosedIsAbsorbing(ms: seq<Mutation>, r: Record)
    requires r.Terminal()
    ensures SettledAs(r, ApplyAll(ms, r))
  {
    if ms != [] {
      ApplyOnClosed(ms[0], r);
      ClosedIsAbsorbing(ms[1..], Apply(ms[0], r));
    }
  }

  /** A row is over exactly when it was closed, or a person answered and the
      condition ended; and which of the two orthogonal facts came first does
      not matter. */
  lemma AnsweredAndClearedIsClosed(r: Record, ackAt: Time, via: string, clearAt: Time)
    requires !r.Terminal()
    ensures r.Acknowledge(ackAt, via).Resolve(clearAt).Terminal()
    ensures r.Resolve(clearAt).Acknowledge(ackAt, via).Terminal()
    ensures r.Resolve(clearAt).Acknowledge(ackAt, via)
            == r.Acknowledge(ackAt, via).Resolve(clearAt)
    ensures r.ackedAt.None? && r.resolvedAt.None? ==>
              !r.Acknowledge(ackAt, via).Terminal() && !r.Resolve(clearAt).Terminal()
  {
  }

  /** The stations of an incident, as what happens to it brings it there: opened, told
      of, answered, cleared, and over once it is both or has been closed; and what has
      been answered or cleared is not taken back to alerting by a later alert. */
  lemma TheStations(id: string, key: string, sev: Severity, source: string, title: string, detail: string,
                    at: Time, t: Time, st: int, u: Time, via: string, v: Time, reason: string)
    ensures var r := OpenRecord(id, key, sev, source, title, detail, at);
            && r.State() == Open
            && r.RecordAlert(t, st).State() == Alerting
            && r.Acknowledge(u, via).State() == Acknowledged
            && r.RecordAlert(t, st).Acknowledge(u, via).State() == Acknowledged
            && r.Resolve(v).State() == Resolved
            && r.RecordAlert(t, st).Resolve(v).State() == Resolved
            && r.Resolve(v).RecordAlert(t, st).State() == Resolved
            && r.Acknowledge(u, via).RecordAlert(t, st).State() == Acknowledged
            && r.Acknowledge(u, via).Resolve(v).State() == Closed
            && r.Close(v, reason).State() == Closed
  {
  }

  /** An arrival on a row that is not over, field by field. */
  lemma AnArrival(r: Record, at: Time, title: string, detail: string)
    requires !r.Terminal()
    ensures var next := r.Occur(at, title, detail);
            && next.occurrences == (if r.occurrences <= 1 then 2 else r.occurrences + 1)
            && next.detail == detail && next.title == (if title == "" then r.title else title)
            && next.updatedAt == (if at > r.updatedAt then at else r.updatedAt)
            && next == r.(occurrences := next.occurrences, detail := detail, title := next.title,
                          updatedAt := next.updatedAt)
  {
  }

  /** A recurrence starts with nothing recorded: no acknowledgement given for
      the earlier incident reaches an event its giver never saw. */
  lemma RecurrenceCarriesNothing(r: Record, newID: string, now: Time)
    ensures var n := Recur(r, newID, now);
            && n.State() == Open && n.predecessorID == r.id && n.dedupKey == r.dedupKey
            && n.openedAt == now && n.updatedAt == now && n.alertCount == 0 && n.occurrences == 1
            && n.firstAlertAt == None && n.lastAlertAt == None && n.ackedAt == None && n.resolvedAt == None
            && n.id == newID && n.severity == r.severity && n.source == r.source
            && n.title == r.title && n.detail == r.detail
  {
  }

  /** The in-memory copy a caller holds between reading a row and writing it
      back. Its methods update it in place. */
  class Incident {
    const id: string
    const dedupKey: string
    var severity: Severity
    const source: string
    var title: string
    var detail: string
    const openedAt: Time
    var firstAlertAt: Option<Time>
    var lastAlertAt: Option<Time>
    var alertCount: nat
    var stage: int
    var ackedAt: Option<Time>
    var ackVia: string
    var resolvedAt: Option<Time>
    var closedAt: Option<Time>
    var closeReason: string
    const predecessorID: string
    var lastDeliveryError: string
    var updatedAt: Time
    var occurrences: int

    function Value(): Record
      reads this
    {
      Record(id, dedupKey, severity, source, title, detail, openedAt, firstAlertAt, lastAlertAt, alertCount,
             stage, ackedAt, ackVia, resolvedAt, closedAt, closeReason, predecessorID,
             lastDeliveryError, updatedAt, occurrences)
    }

    constructor (r: Record)
      ensures Value() == r
    {
      id, dedupKey, severity, source := r.id, r.dedupKey, r.severity, r.source;
      title, detail := r.title, r.detail;
      openedAt, firstAlertAt, lastAlertAt := r.openedAt, r.firstAlertAt, r.lastAlertAt;
      alertCount, stage := r.alertCount, r.stage;
      ackedAt, ackVia, resolvedAt := r.ackedAt, r.ackVia, r.resolvedAt;
      closedAt, closeReason := r.closedAt, r.closeReason;
      predecessorID, lastDeliveryError := r.predecessorID, r.lastDeliveryError;
      updatedAt, occurrences := r.updatedAt, r.occurrences;
    }

    predicate IsTerminal()
      reads this
    {
      closedAt.Some? || (ackedAt.Some? && resolvedAt.Some?)
    }

    method Touch(at: Time)
      modifies this`updatedAt
      ensures Value() == old(Value()).(updatedAt := old(Value()).Touch(at))
    {
      if at > updatedAt {
        updatedAt := at;
      }
    }

    method RecordAlert(at: Time, st: int) returns (ok: bool)
      modifies this
      ensures ok == !old(Value()).Terminal()
      ensures Value() == old(Value()).RecordAlert(at, st)
    {
      if IsTerminal() {
        return false;
      }
      ghost var before := Value();
      if firstAlertAt.None? {
        firstAlertAt := Some(at);
      }
      lastAlertAt := Some(at);
      alertCount := alertCount + 1;
      assert Value() == before.(firstAlertAt := firstAlertAt, lastAlertAt := Some(at),
                                alertCount := before.alertCount + 1);
      if st > stage {
        stage := st;
      }
      lastDeliveryError := "";
      assert Value() == before.(firstAlertAt := firstAlertAt, lastAlertAt := Some(at),
                                alertCount := before.alertCount + 1, stage := stage,
                                lastDeliveryError := "");
      Touch(at);
      return true;
    }

    method RecordDeliveryFailure(at: Time, err: string)
      modifies this
      ensures Value() == old(Value()).RecordDeliveryFailure(at, err)
    {
      lastDeliveryError := err;
      Touch(at);
    }

    method Acknowledge(at: Time, via: string) returns (ok: bool)
      modifies this
      ensures ok == !old(Value()).Terminal()
      ensures Value() == old(Value()).Acknowledge(at, via)
    {
      if IsTerminal() {
        return false;
      }
      if ackedAt.Some? {
        return true;
      }
      ackedAt := Some(at);
      ackVia := via;
      Touch(at);
      return true;
    }

    method Resolve(at: Time) returns (ok: bool)
      modifies this
      ensures ok == !old(Value()).Terminal()
      ensures Value() == old(Value()).Resolve(at)
    {
      if IsTerminal() {
        return false;
      }
      if resolvedAt.Some? {
        return true;
      }
      resolvedAt := Some(at);
      Touch(at);
      return true;
    }

    method Close(at: Time, reason: string)
      modifies this
      ensures Value() == old(Value()).Close(at, reason)
    {
      if closedAt.Some? {
        return;
      }
      closedAt := Some(at);
      closeReason := reason;
      Touch(at);
    }

    /** Returns the sequence number of the arrival, or nothing when refused. */
    method Occur(at: Time, newTitle: string, newDetail: string) returns (seqNo: Option<int>)
      modifies this
      ensures Value() == old(Value()).Occur(at, newTitle, newDetail)
      ensures seqNo == if old(Value()).Terminal() then None else Some(occurrences)
    {
      if IsTerminal() {
        return None;
      }
      ghost var before := Value();
      if occurrences < 1 {
        occurrences := 1;
      }
      occurrences := occurrences + 1;
      if newTitle != "" {
        title := newTitle;
      }
      detail := newDetail;
      assert Value() == before.(occurrences := occurrences, title := title, detail := detail);
      Touch(at);
      return Some(occurrences);
    }
  }
}
