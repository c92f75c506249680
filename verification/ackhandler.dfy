/** The acknowledgement endpoint: one verb, tried at most three times. */
module AckHandling {
  import opened Base
  import opened Incidents
  import opened Stores
  import opened CasLoops

  datatype Page = Invalid | Already | Done | TryAgain | ServerError

  datatype AuditEntry = AuditEntry(id: string, at: Time, via: string)

  /** verify is the signer's verdict on the presented token for a row. */
  function TapFrom(id: string, via: string, verify: Record -> bool, w: World, attempt: nat): (Table, Page)
    requires attempt <= ATTEMPTS
    decreases ATTEMPTS - attempt
  {
    if attempt == ATTEMPTS then (w.atWrite(ATTEMPTS - 1), TryAgain)
    else if id !in w.atRead(attempt) || !verify(w.atRead(attempt)[id]) then (w.atRead(attempt), Invalid)
    else
      var copy := w.atRead(attempt)[id];
      if Declines(Tap(via), copy) then (w.atRead(attempt), Already)
      else
        match PutRowIfUnchanged(w.atWrite(attempt), copy.Acknowledge(w.clock(attempt), via), copy.updatedAt)
        case Ok(next) => (next, Done)
        case Err(Conflict) => TapFrom(id, via, verify, w, attempt + 1)
        case Err(NotFound) => (w.atWrite(attempt), Invalid)
        case Err(ActiveExists) => (w.atWrite(attempt), ServerError)
  }

  function PageOf(out: Outcome): Page {
    match out
    case Written(_) => Done
    case Declined => Already
    case Gone => Invalid
    case Contended => TryAgain
    case Refused(_) => ServerError
  }

  /** For a caller holding the right token the endpoint is the shared loop, so
      what is proved of the loop holds of it. */
  lemma {:induction false} TapIsTheLoop(id: string, via: string, verify: Record -> bool, w: World, attempt: nat)
    requires attempt <= ATTEMPTS
    requires forall k :: id in w.atRead(k) ==> verify(w.atRead(k)[id])
    ensures var (end, out) := LoopFrom(Tap(via), id, w, attempt);
            TapFrom(id, via, verify, w, attempt) == (end, PageOf(out))
    decreases ATTEMPTS - attempt
  {
    if attempt < ATTEMPTS {
      TapIsTheLoop(id, via, verify, w, attempt + 1);
    }
  }

  /** A caller without it writes nothing, whatever else is going on. */
  lemma WrongTokenChangesNothing(id: string, via: string, verify: Record -> bool, w: World)
    requires forall k :: id in w.atRead(k) ==> !verify(w.atRead(k)[id])
    ensures TapFrom(id, via, verify, w, 0) == (w.atRead(0), Invalid)
  {
  }

  /** Exactly what the page says to a caller with the right token: that the tap was
      recorded exactly if an attempt landed, and then it is the first answer on the row
      that was read; that it came second exactly if the first attempt not lost to a
      conflict read the row answered or over; and to try again exactly if all three were
      lost. */
  lemma PageExactlyWhen(id: string, via: string, verify: Record -> bool, w: World)
    requires SoundWorld(w) && forall k :: id in w.atRead(k) ==> verify(w.atRead(k)[id])
    ensures var (end, page) := TapFrom(id, via, verify, w, 0);
            && (page == Done <==>
                  exists k: nat :: FirstThrough(Tap(via), id, w, 0, k) && Lands(Tap(via), id, w, k))
            && (forall k: nat :: FirstThrough(Tap(via), id, w, 0, k) && Lands(Tap(via), id, w, k) ==>
                  end == w.atWrite(k)[id := w.atRead(k)[id].Acknowledge(w.clock(k), via)])
            && (page == TryAgain <==> forall k :: 0 <= k < 3 ==> Conflicts(Tap(via), id, w, k))
            && (page == Already <==>
                  exists k: nat :: FirstThrough(Tap(via), id, w, 0, k) && id in w.atRead(k)
                    && (w.atRead(k)[id].State() == Acknowledged || w.atRead(k)[id].State() == Closed))
  {
    TapIsTheLoop(id, via, verify, w, 0);
    WrittenExactlyWhen(Tap(via), id, w);
    if forall k :: 0 <= k < 3 ==> Conflicts(Tap(via), id, w, k) {
    } else {
      var k: nat :| k < 3 && !Conflicts(Tap(via), id, w, k);
      var first := FirstOf(Tap(via), id, w, k);
      DeclinedAt(Tap(via), id, w, first);
      forall j: nat | FirstThrough(Tap(via), id, w, 0, j)
        ensures j == first
      {
        OnlyOneIsFirst(Tap(via), id, w, j, first);
      }
      if id in w.atRead(first) {
        DeclinesExactlyWhen(Tap(via), w.atRead(first)[id]);
      }
    }
  }

  lemma DeclinedAt(intent: Intent, id: string, w: World, k: nat)
    requires SoundWorld(w) && FirstThrough(intent, id, w, 0, k)
    ensures LoopFrom(intent, id, w, 0).1 == Declined <==> id in w.atRead(k) && Declines(intent, w.atRead(k)[id])
  {
    LoopEndsAt(intent, id, w, 0, k);
    if id in w.atRead(k) {
      ApplyKeepsIdentity(Change(intent, w.clock(k)), w.atRead(k)[id]);
    }
  }

  class Handler {
    const store: Store
    /** The calls of the audit hook, oldest first. */
    var audit: seq<AuditEntry>

    constructor (s: Store)
      ensures store == s && audit == []
    {
      store, audit := s, [];
    }

    /** The hook is called exactly when the page says the tap was recorded, and
        then with the stamp and channel that were stored. */
    method Acknowledge(id: string, via: string, verify: Record -> bool, w: World) returns (page: Page)
      requires forall k :: Keyed(w.atRead(k))
      modifies this, store
      ensures (store.rows, page) == TapFrom(id, via, verify, w, 0)
      ensures page != Done ==> audit == old(audit)
      ensures page == Done ==>
                && id in store.rows && store.rows[id].ackedAt.Some? && store.rows[id].ackVia == via
                && audit == old(audit) + [AuditEntry(id, store.rows[id].ackedAt.value, via)]
    {
      for attempt := 0 to ATTEMPTS
        invariant TapFrom(id, via, verify, w, 0) == TapFrom(id, via, verify, w, attempt)
        invariant attempt > 0 ==> store.rows == w.atWrite(attempt - 1)
        invariant audit == old(audit)
      {
        assert Keyed(w.atRead(attempt));
        store.Elsewhere(w.atRead(attempt));
        var got := store.Get(id);
        if got.Err? || !verify(got.value) {
          return Invalid;
        }
        var inc := new Incident(got.value);
        if inc.ackedAt.Some? {
          return Already;
        }
        var token := inc.updatedAt;
        var ok := inc.Acknowledge(w.clock(attempt), via);
        if !ok {
          return Already;
        }
        store.Elsewhere(w.atWrite(attempt));
        var err := store.PutIfUnchanged(inc.Value(), token);
        match err
        case None =>
          audit := audit + [AuditEntry(id, w.clock(attempt), via)];
          return Done;
        case Some(Conflict) =>
        case Some(NotFound) =>
          return Invalid;
        case Some(ActiveExists) =>
          return ServerError;
      }
      return TryAgain;
    }
  }
}
