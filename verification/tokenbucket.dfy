/** The acknowledgement port's limiter: a token bucket per source address, the
    remainder short of one refill carried over, in a table that is dropped
    whole when it is full. */
module TokenBuckets {
  import opened Base
  import opened Arith

  const MAX_SOURCES: nat := 65536
  const DEFAULT_REFILL: Duration := 6 * SECOND

  datatype Bucket = Bucket(tokens: int, last: Time)

  datatype Rate = Rate(burst: int, refill: Duration) {
    predicate Valid() {
      refill > 0
    }

    function Full(now: Time): Bucket {
      Bucket(burst, now)
    }

    /** What elapsed time has earned, clamped; only what became tokens is taken
        off the clock. A clock that stepped back earns nothing and costs
        nothing. */
    function Refilled(b: Bucket, now: Time): Bucket
      requires Valid()
    {
      var elapsed := now - b.last;
      if elapsed > 0 then
        var gained := elapsed / refill;
        if gained > 0 then
          Bucket(if b.tokens + gained > burst then burst else b.tokens + gained, b.last + gained * refill)
        else b
      else if elapsed < 0 then Bucket(b.tokens, now)
      else b
    }

    function Poll(b: Bucket, now: Time): (Bucket, bool)
      requires Valid()
    {
      var r := Refilled(b, now);
      if r.tokens <= 0 then (r, false) else (r.(tokens := r.tokens - 1), true)
    }

    /** A bucket no later than now, holding no more than the burst. */
    predicate Sound(b: Bucket, now: Time) {
      b.tokens <= burst && b.last <= now
    }
  }

  // ---- One source ------------------------------------------------------------

  /** After any call whatever, however the clock moved, less than one refill is
      carried over and none of it lies ahead of the clock. */
  lemma RemainderIsShort(rate: Rate, b: Bucket, now: Time)
    requires rate.Valid()
    ensures 0 <= now - rate.Poll(b, now).0.last < rate.refill
  {
    var elapsed := now - b.last;
    assert elapsed == elapsed / rate.refill * rate.refill + elapsed % rate.refill;
  }

  lemma PollStaysSound(rate: Rate, b: Bucket, now: Time)
    requires rate.Valid() && b.tokens <= rate.burst
    ensures rate.Sound(rate.Poll(b, now).0, now)
    ensures b.tokens >= 0 && rate.burst >= 0 ==> rate.Poll(b, now).0.tokens >= 0
  {
    RemainderIsShort(rate, b, now);
    if now > b.last {
      DivAtLeast(now - b.last, rate.refill, 0);
    }
  }

  function RunOf(rate: Rate, b: Bucket, polls: seq<Time>): Bucket
    requires rate.Valid()
    decreases polls
  {
    if polls == [] then b else RunOf(rate, rate.Poll(b, polls[0]).0, polls[1..])
  }

  /** The polls that were answered. */
  function Admitted(rate: Rate, b: Bucket, polls: seq<Time>): seq<Time>
    requires rate.Valid()
    decreases polls
  {
    if polls == [] then []
    else
      var (next, ok) := rate.Poll(b, polls[0]);
      (if ok then [polls[0]] else []) + Admitted(rate, next, polls[1..])
  }

  /** Each reading is at or after `from` and the one before it. */
  predicate Ascending(from: Time, polls: seq<Time>)
    decreases polls
  {
    polls != [] ==> from <= polls[0] && Ascending(polls[0], polls[1..])
  }

  lemma LastIsLatest(from: Time, polls: seq<Time>)
    requires Ascending(from, polls) && polls != []
    ensures from <= polls[0] <= polls[|polls| - 1]
    decreases polls
  {
    if |polls| > 1 {
      LastIsLatest(polls[0], polls[1..]);
    }
  }

  /** What one poll does to the bucket, in whole refills. */
  lemma OnePoll(rate: Rate, b: Bucket, now: Time) returns (gained: nat)
    requires rate.Valid() && b.last <= now
    ensures var (next, ok) := rate.Poll(b, now);
            && next.last == b.last + gained * rate.refill <= now
            && next.tokens + (if ok then 1 else 0) <= b.tokens + gained
  {
    DivAtLeast(now - b.last, rate.refill, 0);
    RemainderIsShort(rate, b, now);
    gained := (now - b.last) / rate.refill;
  }

  lemma SpansAdd(a: int, b: int, d: int)
    ensures a * d + b * d == (a + b) * d
  {
  }

  /** Tokens are conserved: what is spent came out of the bucket or out of whole
      refills taken off the clock. */
  lemma {:induction false} TokensAreConserved(rate: Rate, b: Bucket, polls: seq<Time>) returns (earned: nat)
    requires rate.Valid() && Ascending(b.last, polls)
    ensures RunOf(rate, b, polls).last == b.last + earned * rate.refill
    ensures |Admitted(rate, b, polls)| + RunOf(rate, b, polls).tokens <= b.tokens + earned
    decreases polls
  {
    if polls == [] {
      earned := 0;
    } else {
      var gained := OnePoll(rate, b, polls[0]);
      var next := rate.Poll(b, polls[0]).0;
      var later := TokensAreConserved(rate, next, polls[1..]);
      earned := gained + later;
      SpansAdd(gained, later, rate.refill);
    }
  }

  lemma {:induction false} NeverOverdrawn(rate: Rate, b: Bucket, polls: seq<Time>)
    requires rate.Valid() && 0 <= b.tokens <= rate.burst
    ensures RunOf(rate, b, polls).tokens >= 0
    decreases polls
  {
    if polls != [] {
      PollStaysSound(rate, b, polls[0]);
      NeverOverdrawn(rate, rate.Poll(b, polls[0]).0, polls[1..]);
    }
  }

  /** After a first call at `from`, every admission up to `to` is paid for. */
  lemma AdmissionsAfter(rate: Rate, b: Bucket, polls: seq<Time>, from: Time, to: Time)
    requires rate.Valid() && 0 <= b.tokens <= rate.burst
    requires 0 <= from - b.last < rate.refill && Ascending(from, polls)
    requires from <= to && (polls != [] ==> polls[|polls| - 1] <= to)
    ensures |Admitted(rate, b, polls)| <= b.tokens + (to - from + rate.refill - 1) / rate.refill
  {
    var earned := TokensAreConserved(rate, b, polls);
    NeverOverdrawn(rate, b, polls);
    LastNeverPasses(rate, b, polls, from, to);
    DivAtLeast(to - from + rate.refill - 1, rate.refill, earned);
  }

  /** In any span of length T, however the source polls and whatever it had
      saved, it is answered at most burst times plus once for every refill
      begun in the span. */
  lemma AdmissionsInASpan(rate: Rate, b: Bucket, polls: seq<Time>, T: Duration)
    requires rate.Valid() && 0 <= b.tokens <= rate.burst
    requires polls != [] && Ascending(b.last, polls)
    requires polls[|polls| - 1] - polls[0] <= T
    ensures |Admitted(rate, b, polls)| <= rate.burst + (T + rate.refill - 1) / rate.refill
    ensures |Admitted(rate, b, polls)| <= rate.burst + T / rate.refill + 1
  {
    LastIsLatest(b.last, polls);
    var next := rate.Poll(b, polls[0]).0;
    PollStaysSound(rate, b, polls[0]);
    RemainderIsShort(rate, b, polls[0]);
    AdmissionsAfter(rate, next, polls[1..], polls[0], polls[0] + T);
    assert rate.Poll(b, polls[0]).1 ==> next.tokens < rate.burst;
    CeilingIsAtMostOneMore(T, rate.refill);
  }

  lemma CeilingIsAtMostOneMore(T: Duration, d: Duration)
    requires d > 0
    ensures (T + d - 1) / d <= T / d + 1
  {
    assert T == T / d * d + T % d;
    DivAtMost(T + d - 1, d, T / d + 1);
  }

  lemma {:induction false} LastNeverPasses(rate: Rate, b: Bucket, polls: seq<Time>, from: Time, to: Time)
    requires rate.Valid() && b.last <= from <= to && Ascending(from, polls)
    requires polls != [] ==> polls[|polls| - 1] <= to
    ensures RunOf(rate, b, polls).last <= to
    decreases polls
  {
    if polls != [] {
      RemainderIsShort(rate, b, polls[0]);
      LastIsLatest(from, polls);
      LastNeverPasses(rate, rate.Poll(b, polls[0]).0, polls[1..], polls[0], to);
    }
  }

  lemma RefusalLeavesTheBucket(rate: Rate, b: Bucket, now: Time)
    requires rate.Valid() && rate.burst > 0 && b.tokens >= 0 && b.last <= now
    requires !rate.Poll(b, now).1
    ensures rate.Poll(b, now).0 == b
  {
    DivAtLeast(now - b.last, rate.refill, 0);
  }

  /** Polls that are refused cost nothing: leave them all out, and every other
      poll is answered just as before and the bucket ends the same. */
  lemma {:induction false} RefusedPollsCostNothing(rate: Rate, b: Bucket, polls: seq<Time>)
    requires rate.Valid() && rate.burst > 0 && b.tokens >= 0 && Ascending(b.last, polls)
    ensures var answered := Admitted(rate, b, polls);
            && Admitted(rate, b, answered) == answered
            && RunOf(rate, b, answered) == RunOf(rate, b, polls)
    decreases polls
  {
    if polls != [] {
      var (next, ok) := rate.Poll(b, polls[0]);
      RemainderIsShort(rate, b, polls[0]);
      DivAtLeast(polls[0] - b.last, rate.refill, 0);
      if ok {
        RefusedPollsCostNothing(rate, next, polls[1..]);
        var rest := Admitted(rate, next, polls[1..]);
        assert ([polls[0]] + rest)[1..] == rest;
      } else {
        RefusalLeavesTheBucket(rate, b, polls[0]);
        RefusedPollsCostNothing(rate, b, polls[1..]);
        assert [] + Admitted(rate, b, polls[1..]) == Admitted(rate, b, polls[1..]);
      }
    }
  }

  /** What one poll finds and does, without a division: k whole refills have passed, so
      k tokens are earned, up to the burst; and it is answered exactly if there is one
      to spend then. */
  lemma PollExactly(rate: Rate, b: Bucket, now: Time, k: nat)
    requires rate.Valid() && b.last + k * rate.refill <= now < b.last + k * rate.refill + rate.refill
    ensures var (next, ok) := rate.Poll(b, now);
            var there := if k == 0 then b.tokens
                         else if b.tokens + k > rate.burst then rate.burst else b.tokens + k;
            && (ok <==> there >= 1)
            && next == Bucket(if ok then there - 1 else there, b.last + k * rate.refill)
  {
    QuotientIs(now - b.last, rate.refill, k);
  }

  lemma QuotientIs(x: int, d: Duration, k: nat)
    requires d > 0 && k * d <= x < k * d + d
    ensures x / d == k && x >= 0
  {
    assert x == x / d * d + x % d;
    DivAtLeast(x, d, k);
    DivAtMost(x, d, k);
  }

  /** A bucket answers as many polls as it holds tokens, however close together they
      come: a source never seen before has its whole burst at once. */
  lemma {:induction false} WhatIsThereIsAnswered(rate: Rate, b: Bucket, polls: seq<Time>)
    requires rate.Valid() && b.tokens <= rate.burst && Ascending(b.last, polls) && |polls| <= b.tokens
    ensures Admitted(rate, b, polls) == polls
    decreases polls
  {
    if polls != [] {
      RemainderIsShort(rate, b, polls[0]);
      DivAtLeast(polls[0] - b.last, rate.refill, 0);
      var next := rate.Poll(b, polls[0]).0;
      assert next.tokens >= b.tokens - 1 && rate.Poll(b, polls[0]).1;
      PollStaysSound(rate, b, polls[0]);
      AscendingFrom(next.last, polls[0], polls[1..]);
      WhatIsThereIsAnswered(rate, next, polls[1..]);
    }
  }

  lemma AscendingFrom(earlier: Time, from: Time, polls: seq<Time>)
    requires earlier <= from && Ascending(from, polls)
    ensures Ascending(earlier, polls)
  {
  }

  /** ... and at one instant no more than that. */
  lemma {:induction false} TheBurstAtOnce(rate: Rate, t: Time, n: nat, left: nat)
    requires rate.Valid() && left <= rate.burst
    ensures |Admitted(rate, Bucket(left, t), Repeated(t, n))| == if n <= left then n else left
  {
    if n > 0 {
      assert Repeated(t, n)[1..] == Repeated(t, n - 1);
      PollExactly(rate, Bucket(left, t), t, 0);
      TheBurstAtOnce(rate, t, n - 1, if left > 0 then left - 1 else 0);
    }
  }

  function Repeated(t: Time, n: nat): (r: seq<Time>)
    ensures |r| == n && forall i :: 0 <= i < n ==> r[i] == t
  {
    seq(n, i => t)
  }

  /** Polls at least one refill apart. */
  predicate Steady(refill: Duration, polls: seq<Time>) {
    |polls| > 1 ==> polls[0] + refill <= polls[1] && Steady(refill, polls[1..])
  }

  lemma {:induction false} SteadyFrom(rate: Rate, b: Bucket, polls: seq<Time>)
    requires rate.Valid() && rate.burst > 0 && b.tokens >= 0 && Steady(rate.refill, polls)
    requires polls != [] ==> (b.tokens > 0 && b.last <= polls[0]) || b.last + rate.refill <= polls[0]
    ensures Admitted(rate, b, polls) == polls
    decreases polls
  {
    if polls != [] {
      RemainderIsShort(rate, b, polls[0]);
      if b.last + rate.refill <= polls[0] {
        DivAtLeast(polls[0] - b.last, rate.refill, 1);
      } else {
        DivAtLeast(polls[0] - b.last, rate.refill, 0);
      }
      SteadyFrom(rate, rate.Poll(b, polls[0]).0, polls[1..]);
    }
  }

  /** The carried remainder starves nobody: a source that keeps one refill
      between its requests is answered every time. */
  lemma SteadyCallerIsAlwaysAnswered(rate: Rate, polls: seq<Time>)
    requires rate.Valid() && rate.burst > 0 && polls != [] && Steady(rate.refill, polls)
    ensures Admitted(rate, rate.Full(polls[0]), polls) == polls
  {
    SteadyFrom(rate, rate.Full(polls[0]), polls);
  }

  // ---- The table ---------------------------------------------------------------

  type Buckets = map<string, Bucket>

  datatype Call = Call(source: string, now: Time)

  predicate Drops(seen: Buckets, c: Call) {
    c.source !in seen && |seen| >= MAX_SOURCES
  }

  function Take(rate: Rate, seen: Buckets, c: Call): (Buckets, bool)
    requires rate.Valid()
  {
    var table := if Drops(seen, c) then map[] else seen;
    var b := if c.source in seen then seen[c.source] else rate.Full(c.now);
    var (next, ok) := rate.Poll(b, c.now);
    (table[c.source := next], ok)
  }

  /** A source the table does not know begins with the whole burst, less what this
      very call spends. */
  lemma AStrangerHasItsBurst(rate: Rate, seen: Buckets, c: Call)
    requires rate.Valid() && c.source !in seen
    ensures var (next, ok) := Take(rate, seen, c);
            && (ok <==> rate.burst >= 1)
            && c.source in next
            && next[c.source] == Bucket(if ok then rate.burst - 1 else rate.burst, c.now)
            && (forall s :: s != c.source ==>
                  (s in next <==> s in seen && |seen| < 65536) && (s in next ==> next[s] == seen[s]))
  {
    PollExactly(rate, Bucket(rate.burst, c.now), c.now, 0);
  }

  /** No call of the run finds the table full of others. */
  predicate NeverDropped(rate: Rate, seen: Buckets, calls: seq<Call>)
    requires rate.Valid()
    decreases calls
  {
    calls != [] ==> !Drops(seen, calls[0]) && NeverDropped(rate, Take(rate, seen, calls[0]).0, calls[1..])
  }

  function PollsOf(calls: seq<Call>, source: string): seq<Time> {
    if calls == [] then []
    else (if calls[0].source == source then [calls[0].now] else []) + PollsOf(calls[1..], source)
  }

  function AdmittedFrom(rate: Rate, seen: Buckets, calls: seq<Call>, source: string): seq<Time>
    requires rate.Valid()
    decreases calls
  {
    if calls == [] then []
    else
      var (next, ok) := Take(rate, seen, calls[0]);
      (if ok && calls[0].source == source then [calls[0].now] else [])
      + AdmittedFrom(rate, next, calls[1..], source)
  }

  /** The bucket a source's next call will find. */
  function BucketFor(rate: Rate, seen: Buckets, source: string, polls: seq<Time>): Bucket
    requires polls != []
  {
    if source in seen then seen[source] else rate.Full(polls[0])
  }

  /** Between drops one source's traffic is none of another's business: what is
      answered to it is what its own bucket, alone, would answer. */
  lemma {:induction false} SourcesAreIndependent(rate: Rate, seen: Buckets, calls: seq<Call>, source: string)
    requires rate.Valid() && NeverDropped(rate, seen, calls)
    ensures var polls := PollsOf(calls, source);
            AdmittedFrom(rate, seen, calls, source)
            == if polls == [] then [] else Admitted(rate, BucketFor(rate, seen, source, polls), polls)
    decreases calls
  {
    if calls != [] {
      var c := calls[0];
      var next := Take(rate, seen, c).0;
      var rest := PollsOf(calls[1..], source);
      SourcesAreIndependent(rate, next, calls[1..], source);
      if c.source == source {
        assert ([c.now] + rest)[1..] == rest;
        assert rest == [] ==> Admitted(rate, next[source], rest) == [];
      } else {
        assert [] + rest == rest;
        assert [] + AdmittedFrom(rate, next, calls[1..], source) == AdmittedFrom(rate, next, calls[1..], source);
      }
    }
  }

  ghost predicate TableSound(rate: Rate, seen: Buckets, now: Time) {
    && |seen| <= MAX_SOURCES
    && forall s :: s in seen ==> 0 <= seen[s].tokens <= rate.burst && seen[s].last <= now
  }

  /** Whoever calls and however many they are, the table never outgrows its cap,
      no bucket is overdrawn or overfull, and none runs ahead of the clock. */
  lemma TableStaysSound(rate: Rate, seen: Buckets, c: Call, before: Time)
    requires rate.Valid() && rate.burst >= 0 && TableSound(rate, seen, before) && before <= c.now
    ensures TableSound(rate, Take(rate, seen, c).0, c.now)
  {
    var b := if c.source in seen then seen[c.source] else rate.Full(c.now);
    var table := if Drops(seen, c) then map[] else seen;
    PollStaysSound(rate, b, c.now);
    var next := rate.Poll(b, c.now).0;
    if c.source in table {
      assert table[c.source := next].Keys == table.Keys;
    } else {
      assert table[c.source := next].Keys == table.Keys + {c.source};
    }
  }

  predicate CallsAscend(from: Time, calls: seq<Call>)
    decreases calls
  {
    calls != [] ==> from <= calls[0].now && CallsAscend(calls[0].now, calls[1..])
  }

  lemma {:induction false} PollsAscend(from: Time, calls: seq<Call>, source: string)
    requires CallsAscend(from, calls)
    ensures Ascending(from, PollsOf(calls, source))
    decreases calls
  {
    if calls != [] {
      PollsAscend(calls[0].now, calls[1..], source);
      var rest := PollsOf(calls[1..], source);
      if calls[0].source == source {
        assert ([calls[0].now] + rest)[1..] == rest;
      } else {
        assert [] + rest == rest;
      }
    }
  }

  /** The limiter's promise: with a clock that does not step back, and until the
      table is dropped, one source is answered in any span of length T at most
      burst + T / refill + 1 times, whatever every other source does. */
  lemma OneSourceIsLimited(rate: Rate, seen: Buckets, calls: seq<Call>, source: string, start: Time, T: Duration)
    requires rate.Valid() && rate.burst >= 0 && TableSound(rate, seen, start)
    requires CallsAscend(start, calls) && NeverDropped(rate, seen, calls)
    requires calls != [] && calls[|calls| - 1].now <= start + T
    ensures |AdmittedFrom(rate, seen, calls, source)| <= rate.burst + T / rate.refill + 1
  {
    var polls := PollsOf(calls, source);
    SourcesAreIndependent(rate, seen, calls, source);
    PollsAscend(start, calls, source);
    LastCallIsLatest(start, calls);
    DivAtLeast(T, rate.refill, 0);
    if polls != [] {
      PollsEndInTime(start, calls, source, start + T);
      AdmissionsInASpan(rate, BucketFor(rate, seen, source, polls), polls, T);
    }
  }

  lemma LastCallIsLatest(from: Time, calls: seq<Call>)
    requires CallsAscend(from, calls) && calls != []
    ensures from <= calls[0].now <= calls[|calls| - 1].now
    decreases calls
  {
    if |calls| > 1 {
      LastCallIsLatest(calls[0].now, calls[1..]);
    }
  }

  lemma {:induction false} PollsEndInTime(from: Time, calls: seq<Call>, source: string, end: Time)
    requires CallsAscend(from, calls) && calls != [] && calls[|calls| - 1].now <= end
    ensures var polls := PollsOf(calls, source); polls != [] ==> from <= polls[0] && polls[|polls| - 1] <= end
    decreases calls
  {
    LastCallIsLatest(from, calls);
    var rest := PollsOf(calls[1..], source);
    if |calls| > 1 {
      PollsEndInTime(calls[0].now, calls[1..], source, end);
    }
    if calls[0].source == source {
      assert PollsOf(calls, source) == [calls[0].now] + rest;
    } else {
      assert PollsOf(calls, source) == rest;
    }
  }

  class Limiter {
    var seen: Buckets
    const burst: int
    const refill: Duration

    function TheRate(): Rate {
      Rate(burst, refill)
    }

    constructor (b: int, r: Duration)
      ensures seen == map[] && burst == b && refill == (if r <= 0 then DEFAULT_REFILL else r)
      ensures TheRate().Valid()
    {
      seen, burst := map[], b;
      refill := if r <= 0 then DEFAULT_REFILL else r;
    }

    method Allow(source: string, now: Time) returns (ok: bool)
      requires TheRate().Valid()
      modifies this`seen
      ensures (seen, ok) == Take(TheRate(), old(seen), Call(source, now))
    {
      if source !in seen {
        if |seen| >= MAX_SOURCES {
          seen := map[];
        }
        seen := seen[source := Bucket(burst, now)];
      }
      var b := seen[source];
      ghost var found := b;
      var elapsed := now - b.last;
      if elapsed > 0 {
        var gained := elapsed / refill;
        if gained > 0 {
          b := b.(tokens := b.tokens + gained);
          if b.tokens > burst {
            b := b.(tokens := burst);
          }
          b := b.(last := b.last + gained * refill);
        }
      } else if elapsed < 0 {
        b := b.(last := now);
      }
      assert b == TheRate().Refilled(found, now);
      if b.tokens <= 0 {
        assert seen[source := b] == Take(TheRate(), old(seen), Call(source, now)).0;
        seen := seen[source := b];
        return false;
      }
      b := b.(tokens := b.tokens - 1);
      assert seen[source := b] == Take(TheRate(), old(seen), Call(source, now)).0;
      seen := seen[source := b];
      return true;
    }
  }
}
