/** The peer link's limiter: a fixed window per paired peer. */
module FixedWindows {
  import opened Base

  const PER_PEER_RATE: int := 120
  const RATE_WINDOW: Duration := MINUTE

  datatype Count = Count(windowStart: Time, n: nat)

  datatype Limit = Limit(limit: int, window: Duration) {
    /** One authenticated request: what the peer's entry becomes, and whether
        the request is within the rate. */
    function Admit(c: Option<Count>, now: Time): (Count, bool) {
      var entry := if c.None? then Count(now, 0) else c.value;
      var current := if now - entry.windowStart >= window then Count(now, 0) else entry;
      (current.(n := current.n + 1), current.n + 1 <= limit)
    }
  }

  /** The entry after a list of requests. */
  function After(l: Limit, c: Option<Count>, calls: seq<Time>): Option<Count> {
    if calls == [] then c
    else Some(l.Admit(After(l, c, calls[..|calls| - 1]), calls[|calls| - 1]).0)
  }

  function Admitted(l: Limit, c: Option<Count>, calls: seq<Time>): seq<Time> {
    if calls == [] then []
    else
      var before := calls[..|calls| - 1];
      var now := calls[|calls| - 1];
      Admitted(l, c, before) + if l.Admit(After(l, c, before), now).1 then [now] else []
  }

  /** An entry as the limiter leaves it: somebody's request opened the window. */
  predicate Opened(c: Option<Count>, now: Time) {
    c.Some? ==> c.value.n >= 1 && c.value.windowStart <= now
  }

  ghost predicate Within(calls: seq<Time>, from: Time, to: Time) {
    forall i :: 0 <= i < |calls| ==> from <= calls[i] < to
  }

  /** The window that was open when the span began has not ended yet; or one
      opened inside the span, and cannot end in it. */
  lemma {:induction false} OneResetInASpan(l: Limit, c: Option<Count>, calls: seq<Time>, t: Time)
    requires l.limit >= 1 && Opened(c, t) && Nondecreasing(calls)
    requires Within(calls, t, t + l.window)
    ensures Opened(After(l, c, calls), if calls == [] then t else calls[|calls| - 1])
    ensures var end, count := After(l, c, calls), |Admitted(l, c, calls)|;
            && (end.None? ==> calls == [])
            && (end.Some? && end.value.windowStart < t ==>
                  c.Some? && end.value.n >= count + c.value.n && count <= Max(0, l.limit - 1))
            && (end.Some? && end.value.windowStart >= t ==>
                  c.None? || c.value.windowStart >= t || count <= 2 * l.limit - 1)
            && (end.Some? && end.value.windowStart >= t && c.Some? && c.value.windowStart < t ==>
                  count <= l.limit - 1 + (if end.value.n < l.limit then end.value.n else l.limit))
            && (end.Some? && (c.None? || c.value.windowStart >= t) ==>
                  count <= l.limit && count <= end.value.n && end.value.windowStart >= t)
  {
    if calls != [] {
      OneResetInASpan(l, c, calls[..|calls| - 1], t);
    }
  }

  /** In any half-open span as long as the window, a peer gets at most one
      short of twice its limit, whatever state the span finds. */
  lemma SpanBound(l: Limit, c: Option<Count>, calls: seq<Time>, t: Time)
    requires l.limit >= 1 && Opened(c, t) && Nondecreasing(calls)
    requires Within(calls, t, t + l.window)
    ensures |Admitted(l, c, calls)| <= 2 * l.limit - 1
  {
    OneResetInASpan(l, c, calls, t);
  }

  function Repeated(t: Time, n: nat): (r: seq<Time>)
    ensures |r| == n && forall i :: 0 <= i < n ==> r[i] == t
  {
    if n == 0 then [] else Repeated(t, n - 1) + [t]
  }

  lemma {:induction false} BurstIsAdmitted(l: Limit, c: Count, calls: seq<Time>, t: Time, n: nat)
    requires l.window > 0 && t - c.windowStart < l.window && After(l, None, calls) == Some(c)
    requires c.n + n <= l.limit
    ensures var all := calls + Repeated(t, n);
            && After(l, None, all) == Some(c.(n := c.n + n))
            && |Admitted(l, None, all)| == |Admitted(l, None, calls)| + n
  {
    if n == 0 {
      assert calls + Repeated(t, 0) == calls;
    } else {
      BurstIsAdmitted(l, c, calls, t, n - 1);
      var all := calls + Repeated(t, n);
      assert all[..|all| - 1] == calls + Repeated(t, n - 1);
    }
  }

  lemma AdmitOne(l: Limit, calls: seq<Time>, t: Time)
    requires l.limit >= 1
    requires var c := After(l, None, calls); c.None? || t - c.value.windowStart >= l.window
    requires l.window > 0
    ensures After(l, None, calls + [t]) == Some(Count(t, 1))
    ensures |Admitted(l, None, calls + [t])| == |Admitted(l, None, calls)| + 1
  {
    assert (calls + [t])[..|calls|] == calls;
  }

  /** One request opens a window, and the rest of its allowance comes at the
      window's last instant. */
  function EarlyCalls(l: Limit): seq<Time>
    requires l.limit >= 1
  {
    [0] + Repeated(l.window - 1, l.limit - 1)
  }

  /** ... and then a whole new allowance comes at the next. */
  function BusyCalls(l: Limit): seq<Time>
    requires l.limit >= 1
  {
    EarlyCalls(l) + [l.window] + Repeated(l.window, l.limit - 1)
  }

  lemma EarlyCallsAdmitted(l: Limit)
    requires l.limit >= 1 && l.window > 1
    ensures After(l, None, EarlyCalls(l)) == Some(Count(0, l.limit))
    ensures |Admitted(l, None, EarlyCalls(l))| == l.limit
  {
    AdmitOne(l, [], 0);
    assert [] + [0] == [0];
    BurstIsAdmitted(l, Count(0, 1), [0], l.window - 1, l.limit - 1);
  }

  lemma BusyCallsAdmitted(l: Limit)
    requires l.limit >= 1 && l.window > 1
    ensures |Admitted(l, None, BusyCalls(l))| == 2 * l.limit
  {
    EarlyCallsAdmitted(l);
    AdmitOne(l, EarlyCalls(l), l.window);
    BurstIsAdmitted(l, Count(l.window, 1), EarlyCalls(l) + [l.window], l.window, l.limit - 1);
  }

  /** The bound is the best possible: such requests are all answered, and all
      but the first of them fall in one span. */
  lemma SpanBoundIsReached(l: Limit)
    requires l.limit >= 1 && l.window > 1
    ensures var all := BusyCalls(l);
            && |Admitted(l, None, all)| == 2 * l.limit == |all|
            && Nondecreasing(all) && Within(all[1..], l.window - 1, l.window - 1 + l.window)
  {
    BusyCallsAdmitted(l);
  }

  /** The entry is what its list of requests says: n of them, the last ones,
      fell in the window now open. */
  lemma {:induction false} EntryIsTheTrace(l: Limit, calls: seq<Time>)
    requires Nondecreasing(calls) && calls != [] && l.window > 0
    ensures var c := After(l, None, calls);
            && c.Some? && 1 <= c.value.n <= |calls|
            && calls[|calls| - c.value.n] == c.value.windowStart
            && calls[|calls| - 1] - c.value.windowStart < l.window
  {
    if |calls| > 1 {
      EntryIsTheTrace(l, calls[..|calls| - 1]);
    } else {
      assert After(l, None, calls[..0]) == None;
    }
  }

  lemma EntryStep(l: Limit, calls: seq<Time>, now: Time)
    ensures After(l, None, calls + [now]) == Some(l.Admit(After(l, None, calls), now).0)
  {
    assert (calls + [now])[..|calls|] == calls;
  }

  /** A peer working below its rate is never refused: a refusal means more than
      `limit` requests within less than one window. */
  lemma RefusalMeansOverTheLimit(l: Limit, calls: seq<Time>, now: Time)
    requires l.limit >= 1 && l.window > 0 && Nondecreasing(calls + [now])
    requires !l.Admit(After(l, None, calls), now).1
    ensures |calls| >= l.limit && now - calls[|calls| - l.limit] < l.window
  {
    var all := calls + [now];
    EntryStep(l, calls, now);
    EntryIsTheTrace(l, all);
    EnoughBefore(all, l.Admit(After(l, None, calls), now).0.n, l.limit);
  }

  lemma EnoughBefore(all: seq<Time>, n: nat, limit: int)
    requires Nondecreasing(all) && 0 < limit < n <= |all|
    ensures all[|all| - n] <= all[|all| - (limit + 1)]
  {
  }

  class Limiter {
    var counts: map<string, Count>

    constructor ()
      ensures counts == map[]
    {
      counts := map[];
    }

    function Entry(linkID: string): Option<Count>
      reads this
    {
      if linkID in counts then Some(counts[linkID]) else None
    }

    /** Other peers' entries are left alone. */
    method Allow(linkID: string, now: Time, limit: int, window: Duration) returns (ok: bool)
      modifies this
      ensures limit <= 0 ==> ok && counts == old(counts)
      ensures limit > 0 ==>
                var (c, within) := Limit(limit, window).Admit(old(Entry(linkID)), now);
                ok == within && counts == old(counts)[linkID := c]
    {
      if limit <= 0 {
        return true;
      }
      if linkID !in counts {
        counts := counts[linkID := Count(now, 0)];
      }
      var c := counts[linkID];
      if now - c.windowStart >= window {
        c := Count(now, 0);
      }
      c := c.(n := c.n + 1);
      assert counts[linkID := c] == old(counts)[linkID := c];
      counts := counts[linkID := c];
      return c.n <= limit;
    }
  }
}
