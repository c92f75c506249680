/** What the version token protects when everybody writes at once, and where
    its protection ends. */
module Races {
  import opened Base
  import opened Incidents
  import opened Policies
  import opened Stores
  import opened CasLoops
  import opened AlarmEngine

  // ---- Sane sites: no stamp from the future, no token ahead of its row -----

  /** The copy of a row that a worker may yet write back. */
  function CopyOf(w: Worker): Option<Record> {
    match w
    case Got(_, _, _, copy) => Some(copy)
    case Ready(_, _, _, copy, _) => Some(copy)
    case EngineRead(_, copy) => Some(copy)
    case _ => None
  }

  predicate CopySane(s: Site, id: string, copy: Record) {
    && copy.id == id && id in s.used && copy.updatedAt <= s.clock
    && (id in s.rows ==> copy.updatedAt <= s.rows[id].updatedAt)
  }

  predicate IntentPast(intent: Intent, clock: Time) {
    match intent
    case RecordAlert(_, now, _) => now <= clock
    case RecordFailure(now, _) => now <= clock
    case GiveUpOn(_, now, _) => now <= clock
    case Arrival(at, _, _, _) => at <= clock
    case _ => true
  }

  predicate WorkerSane(s: Site, w: Worker) {
    match w
    case Scanned(_, now) => now <= s.clock
    case Delivering(_, now, _) => now <= s.clock
    case Trying(_, intent, _) => IntentPast(intent, s.clock)
    case Got(id, intent, _, copy) => IntentPast(intent, s.clock) && CopySane(s, id, copy)
    case Ready(id, intent, _, copy, change) =>
      && CopySane(s, id, copy) && IntentPast(intent, s.clock)
      && !Declines(intent, copy) && change == Change(intent, change.at) && change.at <= s.clock
    case EngineRead(id, copy) => CopySane(s, id, copy)
  }

  ghost predicate RowsSane(s: Site) {
    forall id :: id in s.rows ==> id in s.used && s.rows[id].id == id && s.rows[id].updatedAt <= s.clock
  }

  ghost predicate Sane(s: Site) {
    && RowsSane(s)
    && forall k :: k in s.workers ==> WorkerSane(s, s.workers[k])
  }

  /** A plain write that goes through finds its row still there and does not set
      the token back. Every other write is guarded by the store itself. */
  predicate Guarded(s: Site, l: Label) {
    l.EnginePuts? && PutLands(s, l.k, l.e) ==>
      var w := s.workers[l.k];
      w.id in s.rows && s.rows[w.id].updatedAt <= EngineRow(l.e, w.copy).updatedAt
  }

  ghost predicate GuardedRun(s: Site, ls: seq<Label>)
    decreases ls
  {
    ls == [] || (Guarded(s, ls[0]) && GuardedRun(Next(s, ls[0]), ls[1..]))
  }

  /** What a change that was not declined does to the copy: it only adds, and
      either moves the token to the later stamp or has nothing to add. */
  lemma ChangeTouches(intent: Intent, copy: Record, change: Mutation)
    requires !Declines(intent, copy) && change == Change(intent, change.at)
    ensures copy.updatedAt <= Apply(change, copy).updatedAt <= Max(copy.updatedAt, change.at)
    ensures Apply(change, copy) == copy || Apply(change, copy).updatedAt == Max(copy.updatedAt, change.at)
    ensures Apply(change, copy).id == copy.id
    ensures copy.KeptBy(Apply(change, copy))
  {
    ApplyKeeps(change, copy);
  }

  lemma EngineRowStamps(e: EngineWrite, copy: Record)
    ensures EngineRow(e, copy).id == copy.id
    ensures EngineRow(e, copy).updatedAt <= Max(copy.updatedAt, e.at)
  {
  }

  /** The table moved on: a known id has the same row or one with a later
      token, or it is gone. */
  ghost predicate Advances(s: Site, t: Site) {
    && s.used <= t.used && s.clock <= t.clock
    && forall id :: id in s.used && id in t.rows ==>
          id in s.rows && s.rows[id].updatedAt <= t.rows[id].updatedAt
  }

  lemma WonRow(s: Site, t: Site, k: nat)
    requires Sane(s) && Won(s, t, k)
    ensures var w := s.workers[k];
            var row := Apply(w.change, w.copy);
            && w.id in s.rows && w.copy.id == w.id && s.rows[w.id].updatedAt == w.copy.updatedAt
            && t.rows == s.rows[w.id := row]
            && w.copy.updatedAt <= row.updatedAt <= s.clock
            && (row == w.copy || row.updatedAt == Max(w.copy.updatedAt, w.change.at))
            && w.copy.KeptBy(row)
  {
    var w := s.workers[k];
    assert WorkerSane(s, w);
    ChangeTouches(w.intent, w.copy, w.change);
  }

  lemma PutRow(s: Site, t: Site, k: nat, e: EngineWrite)
    requires Sane(s) && EnginePut(s, t, k, e) && Guarded(s, EnginePuts(k, e))
    ensures var w := s.workers[k];
            && w.id in s.rows && w.copy.id == w.id
            && t.rows == s.rows[w.id := EngineRow(e, w.copy)]
            && s.rows[w.id].updatedAt <= EngineRow(e, w.copy).updatedAt <= s.clock
  {
    var w := s.workers[k];
    assert WorkerSane(s, w);
    EngineRowStamps(e, w.copy);
  }

  lemma WonAdvances(s: Site, t: Site, k: nat)
    requires Sane(s) && Won(s, t, k)
    ensures Advances(s, t) && RowsSane(t)
  {
    WonRow(s, t, k);
    assert WorkerSane(s, s.workers[k]);
  }

  lemma PutAdvances(s: Site, t: Site, k: nat, e: EngineWrite)
    requires Sane(s) && EnginePut(s, t, k, e) && Guarded(s, EnginePuts(k, e))
    ensures Advances(s, t) && RowsSane(t)
  {
    PutRow(s, t, k, e);
  }

  lemma RowsAdvance(s: Site, l: Label)
    requires Sane(s) && Guarded(s, l)
    ensures Advances(s, Next(s, l)) && RowsSane(Next(s, l))
  {
    var t := Next(s, l);
    StepIsOfAKind(s, l);
    if Still(s, t) {
    } else if l.Swap? {
      WonAdvances(s, t, l.k);
    } else if l.EnginePuts? {
      PutAdvances(s, t, l.k, l.e);
    }
  }

  lemma StaysSane(s: Site, t: Site, w: Worker)
    requires WorkerSane(s, w) && Advances(s, t)
    ensures WorkerSane(t, w)
  {
  }

  lemma MoveKeepsSane(s: Site, log: seq<Event>, k: nat, w: Worker)
    requires Sane(s) && Moves(s, log, k, w)
    ensures WorkerSane(s, w)
  {
    if k in s.workers {
      assert WorkerSane(s, s.workers[k]);
    }
  }

  lemma StepKeepsSane(s: Site, l: Label)
    requires Sane(s) && Guarded(s, l)
    ensures Sane(Next(s, l)) && Advances(s, Next(s, l))
  {
    var t := Next(s, l);
    RowsAdvance(s, l);
    StepIsOfAKind(s, l);
    forall k | k in t.workers
      ensures WorkerSane(t, t.workers[k])
    {
      if Still(s, t) {
        assert Moves(s, t.log, k, t.workers[k]);
        MoveKeepsSane(s, t.log, k, t.workers[k]);
      } else {
        assert WorkerSane(s, s.workers[k]);
      }
      StaysSane(s, t, t.workers[k]);
    }
  }

  /** In every run whose plain writes do not set it back, a stored token never
      falls. */
  lemma {:induction false} TokensNeverFall(s: Site, ls: seq<Label>, id: string)
    requires Sane(s) && GuardedRun(s, ls)
    ensures Sane(Exec(s, ls))
    ensures id in s.used && id in Exec(s, ls).rows ==>
              id in s.rows && s.rows[id].updatedAt <= Exec(s, ls).rows[id].updatedAt
    decreases ls
  {
    if ls != [] {
      StepKeepsSane(s, ls[0]);
      TokensNeverFall(Next(s, ls[0]), ls[1..], id);
    }
  }

  // ---- No lost update -------------------------------------------------------

  /** The copy has everything `row` recorded, or was read under an earlier
      token. */
  predicate CopyKeeps(row: Record, w: Worker) {
    match CopyOf(w)
    case None => true
    case Some(c) => c.id == row.id ==> row.KeptBy(c) || c.updatedAt < row.updatedAt
  }

  ghost predicate RowKeeps(s: Site, row: Record) {
    row.id in s.rows ==> row.KeptBy(s.rows[row.id])
  }

  /** What `row` recorded is in the stored row, and no copy that lacks it can be
      swapped over it. */
  ghost predicate Sticks(s: Site, row: Record) {
    && row.id in s.used && Keyed(s.rows)
    && RowKeeps(s, row)
    && forall k :: k in s.workers ==> CopyKeeps(row, s.workers[k])
  }

  /** If this step is a plain write of the row, what it writes lacks nothing that
      `row` recorded. */
  predicate PlainWriteKeeps(s: Site, l: Label, row: Record) {
    l.EnginePuts? && PutLands(s, l.k, l.e) && EngineRow(l.e, s.workers[l.k].copy).id == row.id ==>
      row.KeptBy(EngineRow(l.e, s.workers[l.k].copy))
  }

  lemma MoveKeepsCopies(s: Site, log: seq<Event>, row: Record, k: nat, w: Worker)
    requires Sticks(s, row) && Moves(s, log, k, w)
    ensures CopyKeeps(row, w)
  {
    if k in s.workers {
      assert CopyKeeps(row, s.workers[k]);
    }
  }

  lemma SwapKeepsRow(s: Site, t: Site, k: nat, row: Record)
    requires Sticks(s, row) && Won(s, t, k)
    ensures RowKeeps(t, row) && Keyed(t.rows)
  {
    var w := s.workers[k];
    ApplyKeeps(w.change, w.copy);
    assert CopyKeeps(row, w);
    if w.copy.id == row.id {
      KeptByTransitive(row, w.copy, Apply(w.change, w.copy));
    }
  }

  lemma StepKeepsSticks(s: Site, l: Label, row: Record)
    requires Sticks(s, row) && PlainWriteKeeps(s, l, row)
    ensures Sticks(Next(s, l), row)
  {
    var t := Next(s, l);
    StepIsOfAKind(s, l);
    if Still(s, t) {
      forall k | k in t.workers
        ensures CopyKeeps(row, t.workers[k])
      {
        assert Moves(s, t.log, k, t.workers[k]);
        MoveKeepsCopies(s, t.log, row, k, t.workers[k]);
      }
    } else if l.Swap? {
      SwapKeepsRow(s, t, l.k, row);
    } else if l.EnginePuts? {
      EngineRowStamps(l.e, s.workers[l.k].copy);
    }
  }

  /** Every plain write of the run keeps what `row` recorded. */
  ghost predicate PlainWritesKeep(s: Site, ls: seq<Label>, row: Record)
    decreases ls
  {
    ls == [] || (PlainWriteKeeps(s, ls[0], row) && PlainWritesKeep(Next(s, ls[0]), ls[1..], row))
  }

  /** At every moment of the run the stored row has everything `row` recorded. */
  ghost predicate NeverLost(s: Site, ls: seq<Label>, row: Record)
    decreases ls
  {
    RowKeeps(s, row) && (ls != [] ==> NeverLost(Next(s, ls[0]), ls[1..], row))
  }

  lemma {:induction false} KeptExactlyWhen(s: Site, ls: seq<Label>, row: Record)
    requires Sticks(s, row)
    ensures NeverLost(s, ls, row) <==> PlainWritesKeep(s, ls, row)
    decreases ls
  {
    if ls != [] {
      var t := Next(s, ls[0]);
      if PlainWriteKeeps(s, ls[0], row) {
        StepKeepsSticks(s, ls[0], row);
        KeptExactlyWhen(t, ls[1..], row);
      } else {
        APlainWriteLoses(s, ls[0], row);
        assert !NeverLost(t, ls[1..], row);
      }
    }
  }

  lemma APlainWriteLoses(s: Site, l: Label, row: Record)
    requires !PlainWriteKeeps(s, l, row)
    ensures !RowKeeps(Next(s, l), row)
  {
    var next := EngineRow(l.e, s.workers[l.k].copy);
    assert Next(s, l).rows == s.rows[next.id := next];
  }

  /** The worker k is about to write a row with a later token. */
  ghost predicate WinsAhead(s: Site, k: nat) {
    && Won(s, Next(s, Swap(k)), k)
    && Apply(s.workers[k].change, s.workers[k].copy).updatedAt > s.workers[k].copy.updatedAt
  }

  lemma AheadSticks(s: Site, k: nat)
    requires Sane(s) && WinsAhead(s, k)
    ensures Sticks(Next(s, Swap(k)), Apply(s.workers[k].change, s.workers[k].copy))
  {
    var t := Next(s, Swap(k));
    WonRow(s, t, k);
    var row := Apply(s.workers[k].change, s.workers[k].copy);
    assert row.KeptBy(row);
    forall j | j in t.workers
      ensures CopyKeeps(row, t.workers[j])
    {
      assert WorkerSane(s, s.workers[j]);
    }
  }

  /** No lost update, exactly: when a write strictly advanced the token, then in
      every run whatever from there on, everything the written row knew stays in
      the stored row for as long as there is one, if and only if no plain write
      of the run writes a row that lacks some of it. No swap ever loses it. */
  lemma NothingLost(s: Site, k: nat, ls: seq<Label>)
    requires Sane(s) && WinsAhead(s, k)
    ensures var t := Next(s, Swap(k));
            var row := Apply(s.workers[k].change, s.workers[k].copy);
            NeverLost(t, ls, row) <==> PlainWritesKeep(t, ls, row)
  {
    AheadSticks(s, k);
    KeptExactlyWhen(Next(s, Swap(k)), ls, Apply(s.workers[k].change, s.workers[k].copy));
  }

  lemma {:induction false} KeptAtTheEnd(s: Site, ls: seq<Label>, row: Record)
    requires NeverLost(s, ls, row)
    ensures RowKeeps(Exec(s, ls), row)
    decreases ls
  {
    if ls != [] {
      KeptAtTheEnd(Next(s, ls[0]), ls[1..], row);
    }
  }

  /** In particular a tap that was stored ahead of the token is stored for
      ever, with its first stamp and channel. */
  lemma AcknowledgementStays(s: Site, k: nat, ls: seq<Label>)
    requires Sane(s) && WinsAhead(s, k) && s.workers[k].intent.Tap?
    requires PlainWritesKeep(Next(s, Swap(k)), ls, Apply(s.workers[k].change, s.workers[k].copy))
    ensures var w := s.workers[k];
            var end := Exec(Next(s, Swap(k)), ls);
            w.id in end.rows ==>
              end.rows[w.id].ackedAt == Some(w.change.at) && end.rows[w.id].ackVia == w.intent.via
  {
    var w := s.workers[k];
    NothingLost(s, k, ls);
    KeptAtTheEnd(Next(s, Swap(k)), ls, Apply(w.change, w.copy));
    assert WorkerSane(s, w);
  }

  /** Exactly where the store's own protection ends. When a swap lands, another
      copy read under the same token can still be written over it if and only if
      the swap did not move the token on: its stamp was not later, or it had
      nothing to add. */
  lemma StaleCopyStillFits(s: Site, k: nat, j: nat)
    requires Sane(s) && Won(s, Next(s, Swap(k)), k) && j in s.workers && j != k
    requires CopyOf(s.workers[j]).Some? && CopyOf(s.workers[j]).value.id == s.workers[k].id
    requires CopyOf(s.workers[j]).value.updatedAt == s.rows[s.workers[k].id].updatedAt
    ensures var t := Next(s, Swap(k));
            var w := s.workers[k];
            t.rows[w.id].updatedAt == CopyOf(s.workers[j]).value.updatedAt
            <==> w.change.at <= w.copy.updatedAt || Apply(w.change, w.copy) == w.copy
  {
    WonRow(s, Next(s, Swap(k)), k);
  }

  /** The stamp of a tap can fail to move the token on only when the clock read
      the very instant the row already carried. */
  lemma TapIsAheadUnlessTied(s: Site, k: nat)
    requires Sane(s) && k in s.workers && s.workers[k].Got?
    ensures s.clock > s.workers[k].copy.updatedAt <==> s.clock != s.workers[k].copy.updatedAt
  {
    assert WorkerSane(s, s.workers[k]);
  }
}
