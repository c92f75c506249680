/** The compare-and-swap loop every concurrent writer of an incident runs:
    read a fresh copy, decide again from that copy, write it back only if the
    row's token is still the one that was read, and try again on a conflict. */
module CasLoops {
  import opened Base
  import opened Incidents
  import opened Policies
  import opened Stores

  const ATTEMPTS: nat := 3

  /** What a writer means to do, before it has seen the fresh copy. */
  datatype Intent =
    | RecordAlert(scanned: Record, now: Time, stage: int)
    | RecordFailure(now: Time, err: string)
    | GiveUpOn(scanned: Record, now: Time, policy: Policy)
    | Tap(via: string)
    | WebAck
    | WebClose(reason: string)
    | Dismiss(reason: string)
    | Arrival(at: Time, severity: Severity, title: string, detail: string)

  function GiveUpReason(p: Policy): string {
    "gave up without acknowledgement (policy " + p.name + ")"
  }

  /** A writer re-derives its decision from the copy it is handed. The page's own
      acknowledger and closer do not look whether there is anything to change. */
  predicate Declines(intent: Intent, copy: Record) {
    match intent
    case RecordAlert(_, _, _) => copy.Terminal()
    case RecordFailure(_, _) => false
    case GiveUpOn(_, now, p) => !ShouldGiveUp(p, copy, now)
    case Tap(_) => copy.ackedAt.Some? || copy.Terminal()
    case WebAck => copy.Terminal()
    case WebClose(_) => false
    case Dismiss(_) => copy.Terminal()
    case Arrival(_, _, _, _) => copy.Terminal() || copy.ackedAt.Some? || copy.resolvedAt.Some?
  }

  /** What it writes when it goes ahead; clock is the writer's own reading
      after the read. The scheduler stamps with the time its pass began. */
  function Change(intent: Intent, clock: Time): Mutation {
    match intent
    case RecordAlert(_, now, stage) => Alert(now, stage)
    case RecordFailure(now, err) => DeliveryFailure(now, err)
    case GiveUpOn(_, now, p) => Close(now, GiveUpReason(p))
    case Tap(via) => Ack(clock, via)
    case WebAck => Ack(clock, "web")
    case WebClose(reason) => Close(clock, reason)
    case Dismiss(reason) => Close(clock, reason)
    case Arrival(at, sev, title, detail) => Occurrence(at, sev, title, detail)
  }

  /** Where an incident has come to decides who still acts on it: an alert or a dismissal
      only until it is over, a tap only until it is answered or over, an arrival only
      while it is open, giving up only past the horizon of one somebody was told of; a
      failure and the page's closing always, and the page's answer until it is over. */
  lemma DeclinesExactlyWhen(intent: Intent, copy: Record)
    ensures match intent
            case RecordAlert(_, _, _) => Declines(intent, copy) <==> copy.State() == Closed
            case RecordFailure(_, _) => !Declines(intent, copy)
            case GiveUpOn(_, now, p) =>
              Declines(intent, copy) <==>
                || copy.State() == Closed || copy.State() == Acknowledged || copy.firstAlertAt.None?
                || p.giveUpAfter <= 0 || now <= copy.openedAt + p.giveUpAfter
            case Tap(_) => Declines(intent, copy) <==> copy.State() == Closed || copy.State() == Acknowledged
            case WebAck => Declines(intent, copy) <==> copy.State() == Closed
            case WebClose(_) => !Declines(intent, copy)
            case Dismiss(_) => Declines(intent, copy) <==> copy.State() == Closed
            case Arrival(_, _, _, _) =>
              Declines(intent, copy) <==> copy.State() != Open && copy.State() != Alerting
  {
  }

  /** What each of them leaves behind when it goes ahead. */
  lemma WhatIsWritten(intent: Intent, copy: Record, clock: Time)
    requires !Declines(intent, copy)
    ensures var row := Apply(Change(intent, clock), copy);
            && row.id == copy.id && row.dedupKey == copy.dedupKey
            && match intent
               case RecordAlert(_, now, st) =>
                 row.lastAlertAt == Some(now) && row.alertCount == copy.alertCount + 1 && row.stage >= st
                 && row.firstAlertAt == (if copy.firstAlertAt.None? then Some(now) else copy.firstAlertAt)
               case RecordFailure(_, err) => row.lastDeliveryError == err && row.alertCount == copy.alertCount
               case GiveUpOn(_, now, p) => row.closedAt == Some(now) && row.closeReason == GiveUpReason(p)
               case Tap(via) => row.ackedAt == Some(clock) && row.ackVia == via
               case WebAck => row.ackedAt == (if copy.ackedAt.None? then Some(clock) else copy.ackedAt)
               case WebClose(reason) =>
                 if copy.closedAt.None? then row.closedAt == Some(clock) && row.closeReason == reason else row == copy
               case Dismiss(reason) => row.closedAt == Some(clock) && row.closeReason == reason
               case Arrival(_, sev, title, detail) =>
                 && row.occurrences == (if copy.occurrences < 1 then 2 else copy.occurrences + 1)
                 && row.detail == detail && row.title == (if title == "" then copy.title else title)
                 && row.severity == (if sev.Rank() > copy.severity.Rank() then sev else copy.severity)
  {
  }

  datatype Outcome = Written(m: Mutation) | Declined | Gone | Contended | Refused(e: StoreError)

  /** The rest of the world, as the loop meets it: the table at each read, the
      table at each write, and the clock in between. */
  datatype World = World(atRead: nat -> Table, atWrite: nat -> Table, clock: nat -> Time)

  function LoopFrom(intent: Intent, id: string, w: World, attempt: nat): (Table, Outcome)
    requires attempt <= ATTEMPTS
    decreases ATTEMPTS - attempt
  {
    if attempt == ATTEMPTS then (w.atWrite(ATTEMPTS - 1), Contended)
    else if id !in w.atRead(attempt) then (w.atRead(attempt), Gone)
    else
      var copy := w.atRead(attempt)[id];
      if Declines(intent, copy) then (w.atRead(attempt), Declined)
      else
        var m := Change(intent, w.clock(attempt));
        match PutRowIfUnchanged(w.atWrite(attempt), Apply(m, copy), copy.updatedAt)
        case Ok(next) => (next, Written(m))
        case Err(Conflict) => LoopFrom(intent, id, w, attempt + 1)
        case Err(NotFound) => (w.atWrite(attempt), Gone)
        case Err(e) => (w.atWrite(attempt), Refused(e))
  }

  /** The k-th attempt wrote m: a decision taken on the copy it read, put on a
      row whose token had not moved since, and nothing else. */
  ghost predicate WroteAt(intent: Intent, id: string, w: World, k: nat, m: Mutation, end: Table) {
    && id in w.atRead(k) && id in w.atWrite(k)
    && !Declines(intent, w.atRead(k)[id]) && m == Change(intent, w.clock(k))
    && w.atWrite(k)[id].updatedAt == w.atRead(k)[id].updatedAt
    && end == w.atWrite(k)[id := Apply(m, w.atRead(k)[id])]
  }

  ghost predicate LeftByOthers(w: World, end: Table) {
    exists k: nat :: k < ATTEMPTS && (end == w.atRead(k) || end == w.atWrite(k))
  }

  lemma GuardedWriteOfAttempt(intent: Intent, id: string, w: World, k: nat, next: Table)
    requires Keyed(w.atRead(k)) && id in w.atRead(k) && !Declines(intent, w.atRead(k)[id])
    requires var copy := w.atRead(k)[id];
             PutRowIfUnchanged(w.atWrite(k), Apply(Change(intent, w.clock(k)), copy), copy.updatedAt)
             == Ok(next)
    ensures WroteAt(intent, id, w, k, Change(intent, w.clock(k)), next)
  {
    ApplyKeepsIdentity(Change(intent, w.clock(k)), w.atRead(k)[id]);
  }

  /** One attempt is lost to a conflict, or ends the loop. */
  lemma OneAttempt(intent: Intent, id: string, w: World, k: nat)
    requires k < ATTEMPTS && Keyed(w.atRead(k))
    ensures var (end, out) := LoopFrom(intent, id, w, k);
            || (end, out) == LoopFrom(intent, id, w, k + 1)
            || (match out
                case Written(m) => WroteAt(intent, id, w, k, m, end)
                case _ => end == w.atRead(k) || end == w.atWrite(k))
  {
    if id in w.atRead(k) && !Declines(intent, w.atRead(k)[id]) {
      var copy := w.atRead(k)[id];
      var put := PutRowIfUnchanged(w.atWrite(k), Apply(Change(intent, w.clock(k)), copy), copy.updatedAt);
      if put.Ok? {
        GuardedWriteOfAttempt(intent, id, w, k, put.value);
      }
    }
  }

  /** Whatever runs in between, the loop changes the table at most once, and
      only by a guarded write of a decision taken on a current copy; in every
      other outcome the table is one that others left. */
  lemma {:induction false} OneGuardedWrite(intent: Intent, id: string, w: World, attempt: nat)
    requires attempt <= ATTEMPTS
    requires forall k :: Keyed(w.atRead(k))
    ensures var (end, out) := LoopFrom(intent, id, w, attempt);
            match out
            case Written(m) => exists k: nat :: attempt <= k < ATTEMPTS && WroteAt(intent, id, w, k, m, end)
            case _ => LeftByOthers(w, end)
    decreases ATTEMPTS - attempt
  {
    if attempt == ATTEMPTS {
      assert LoopFrom(intent, id, w, attempt).0 == w.atWrite(ATTEMPTS - 1);
    } else {
      OneAttempt(intent, id, w, attempt);
      OneGuardedWrite(intent, id, w, attempt + 1);
    }
  }

  // ---- When it writes ------------------------------------------------------------------

  /** The k-th attempt goes ahead on the copy it reads, and finds its row there with
      another token. */
  ghost predicate Conflicts(intent: Intent, id: string, w: World, k: nat) {
    && id in w.atRead(k) && !Declines(intent, w.atRead(k)[id])
    && id in w.atWrite(k) && w.atWrite(k)[id].updatedAt != w.atRead(k)[id].updatedAt
  }

  /** It goes ahead, and finds the token it read and no other live row of the key. */
  ghost predicate Lands(intent: Intent, id: string, w: World, k: nat) {
    && id in w.atRead(k) && !Declines(intent, w.atRead(k)[id])
    && id in w.atWrite(k) && w.atWrite(k)[id].updatedAt == w.atRead(k)[id].updatedAt
    && OneLivePerKey(w.atWrite(k)[id := Apply(Change(intent, w.clock(k)), w.atRead(k)[id])])
  }

  /** What the loop meets is tables that keep the store's promises. */
  ghost predicate SoundWorld(w: World) {
    forall k :: Keyed(w.atRead(k)) && Keyed(w.atWrite(k)) && OneLivePerKey(w.atWrite(k))
  }

  /** The first attempt from a on that is not lost to a conflict is the k-th. */
  ghost predicate FirstThrough(intent: Intent, id: string, w: World, a: nat, k: nat) {
    a <= k < 3 && !Conflicts(intent, id, w, k) && forall j :: a <= j < k ==> Conflicts(intent, id, w, j)
  }

  lemma AttemptIs(intent: Intent, id: string, w: World, k: nat)
    requires SoundWorld(w) && k < ATTEMPTS
    ensures Conflicts(intent, id, w, k) ==> LoopFrom(intent, id, w, k) == LoopFrom(intent, id, w, k + 1)
    ensures !Conflicts(intent, id, w, k) ==>
              && !LoopFrom(intent, id, w, k).1.Contended?
              && (LoopFrom(intent, id, w, k).1.Written? <==> Lands(intent, id, w, k))
              && (Lands(intent, id, w, k) ==>
                    var m := Change(intent, w.clock(k));
                    LoopFrom(intent, id, w, k) == (w.atWrite(k)[id := Apply(m, w.atRead(k)[id])], Written(m)))
  {
    assert Keyed(w.atRead(k)) && Keyed(w.atWrite(k)) && OneLivePerKey(w.atWrite(k));
    if id in w.atRead(k) {
      var copy := w.atRead(k)[id];
      ApplyKeepsIdentity(Change(intent, w.clock(k)), copy);
      SwappedExactlyWhen(w.atWrite(k), Apply(Change(intent, w.clock(k)), copy), copy.updatedAt);
    }
  }

  lemma {:induction false} LoopEndsAt(intent: Intent, id: string, w: World, a: nat, k: nat)
    requires SoundWorld(w) && FirstThrough(intent, id, w, a, k)
    ensures LoopFrom(intent, id, w, a) == LoopFrom(intent, id, w, k)
    decreases k - a
  {
    if a < k {
      AttemptIs(intent, id, w, a);
      LoopEndsAt(intent, id, w, a + 1, k);
    }
  }

  lemma FirstOf(intent: Intent, id: string, w: World, k: nat) returns (first: nat)
    requires k < 3 && !Conflicts(intent, id, w, k)
    ensures FirstThrough(intent, id, w, 0, first)
  {
    first := 0;
    while Conflicts(intent, id, w, first)
      invariant first <= k && forall j :: 0 <= j < first ==> Conflicts(intent, id, w, j)
      decreases k - first
    {
      first := first + 1;
    }
  }

  lemma ThroughAt(intent: Intent, id: string, w: World, k: nat)
    requires SoundWorld(w) && FirstThrough(intent, id, w, 0, k)
    ensures var (end, out) := LoopFrom(intent, id, w, 0);
            && !out.Contended? && (out.Written? <==> Lands(intent, id, w, k))
            && (Lands(intent, id, w, k) ==>
                  var m := Change(intent, w.clock(k));
                  out == Written(m) && end == w.atWrite(k)[id := Apply(m, w.atRead(k)[id])])
  {
    LoopEndsAt(intent, id, w, 0, k);
    AttemptIs(intent, id, w, k);
  }

  lemma {:induction false} AllLost(intent: Intent, id: string, w: World, a: nat)
    requires SoundWorld(w) && a <= ATTEMPTS && forall k :: a <= k < 3 ==> Conflicts(intent, id, w, k)
    ensures LoopFrom(intent, id, w, a) == LoopFrom(intent, id, w, ATTEMPTS)
    decreases ATTEMPTS - a
  {
    if a < ATTEMPTS {
      AttemptIs(intent, id, w, a);
      AllLost(intent, id, w, a + 1);
    }
  }

  lemma OnlyOneIsFirst(intent: Intent, id: string, w: World, j: nat, k: nat)
    requires FirstThrough(intent, id, w, 0, j) && FirstThrough(intent, id, w, 0, k)
    ensures j == k
  {
    assert j < k ==> Conflicts(intent, id, w, j);
    assert k < j ==> Conflicts(intent, id, w, k);
  }

  /** Exactly when the loop writes: when the first of its three attempts that is not
      lost to a conflict lands; and it is contended exactly if all three are lost.
      What is written is the change decided on the copy that attempt read. */
  lemma WrittenExactlyWhen(intent: Intent, id: string, w: World)
    requires SoundWorld(w)
    ensures var (end, out) := LoopFrom(intent, id, w, 0);
            && (out.Written? <==> exists k: nat :: FirstThrough(intent, id, w, 0, k) && Lands(intent, id, w, k))
            && (forall k: nat :: FirstThrough(intent, id, w, 0, k) && Lands(intent, id, w, k) ==>
                  var m := Change(intent, w.clock(k));
                  out == Written(m) && end == w.atWrite(k)[id := Apply(m, w.atRead(k)[id])])
            && (out.Contended? <==> forall k :: 0 <= k < 3 ==> Conflicts(intent, id, w, k))
  {
    if forall k :: 0 <= k < 3 ==> Conflicts(intent, id, w, k) {
      AllLost(intent, id, w, 0);
    } else {
      var k: nat :| k < 3 && !Conflicts(intent, id, w, k);
      var first := FirstOf(intent, id, w, k);
      ThroughAt(intent, id, w, first);
      forall j: nat | FirstThrough(intent, id, w, 0, j)
        ensures j == first
      {
        OnlyOneIsFirst(intent, id, w, j, first);
      }
    }
  }

  /** Applies a decision to the copy in hand. */
  method Mutate(inc: Incident, intent: Intent, clock: Time) returns (changed: bool)
    modifies inc
    ensures changed == !Declines(intent, old(inc.Value()))
    ensures changed ==> inc.Value() == Apply(Change(intent, clock), old(inc.Value()))
  {
    match intent
    case RecordAlert(_, now, stage) =>
      if inc.IsTerminal() {
        return false;
      }
      changed := inc.RecordAlert(now, stage);
    case RecordFailure(now, err) =>
      inc.RecordDeliveryFailure(now, err);
      return true;
    case GiveUpOn(_, now, p) =>
      if !ShouldGiveUp(p, inc.Value(), now) {
        return false;
      }
      inc.Close(now, GiveUpReason(p));
      return true;
    case Tap(via) =>
      if inc.ackedAt.Some? {
        return false;
      }
      changed := inc.Acknowledge(clock, via);
    case WebAck =>
      changed := inc.Acknowledge(clock, "web");
    case WebClose(reason) =>
      inc.Close(clock, reason);
      return true;
    case Dismiss(reason) =>
      if inc.IsTerminal() {
        return false;
      }
      inc.Close(clock, reason);
      return true;
    case Arrival(at, sev, title, detail) =>
      if inc.ackedAt.Some? || inc.resolvedAt.Some? {
        return false;
      }
      if sev.Rank() > inc.severity.Rank() {
        inc.severity := sev;
      }
      assert inc.Value() == old(inc.Value()).RaiseSeverity(sev);
      var n := inc.Occur(at, title, detail);
      return n.Some?;
  }

  /** The loop itself, run against a store other goroutines also write. */
  method Commit(store: Store, id: string, intent: Intent, w: World) returns (out: Outcome)
    modifies store
    ensures (store.rows, out) == LoopFrom(intent, id, w, 0)
  {
    for attempt := 0 to ATTEMPTS
      invariant LoopFrom(intent, id, w, 0) == LoopFrom(intent, id, w, attempt)
      invariant attempt > 0 ==> store.rows == w.atWrite(attempt - 1)
    {
      store.Elsewhere(w.atRead(attempt));
      var got := store.Get(id);
      if got.Err? {
        return Gone;
      }
      var inc := new Incident(got.value);
      var token := inc.updatedAt;
      var changed := Mutate(inc, intent, w.clock(attempt));
      if !changed {
        return Declined;
      }
      store.Elsewhere(w.atWrite(attempt));
      var err := store.PutIfUnchanged(inc.Value(), token);
      match err
      case None =>
        return Written(Change(intent, w.clock(attempt)));
      case Some(Conflict) =>
      case Some(NotFound) =>
        return Gone;
      case Some(e) =>
        return Refused(e);
    }
    return Contended;
  }
}
