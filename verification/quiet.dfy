/** The quiet window, at a fixed offset from UTC.

    Start is inclusive and End exclusive; a window may wrap midnight. A time of
    day or a zone the source could not read is None. */
module Quiet {
  import opened Base

  const DAY: Duration := 24 * HOUR
  const MINUTES_IN_A_DAY: int := 1440

  type MinuteOfDay = m: int | 0 <= m < MINUTES_IN_A_DAY

  datatype QuietHours = QuietHours(
    enabled: bool, start: Option<MinuteOfDay>, end: Option<MinuteOfDay>, zone: Option<Duration>)
  {
    predicate Valid() {
      enabled ==> start.Some? && end.Some? && start.value != end.value && zone.Some?
    }

    predicate Contains(t: Time) {
      && enabled && start.Some? && end.Some? && start.value != end.value && zone.Some?
      && var m := MinuteAt(t, zone.value);
         if start.value < end.value then start.value <= m < end.value
         else start.value <= m || m < end.value
    }

    /** When the window t falls in ends; t itself when it cannot be read. */
    function NextEnd(t: Time): Time {
      if zone.None? || end.None? then t
      else
        var wall := t + zone.value;
        var today := wall / DAY * DAY + end.value * MINUTE;
        (if today > wall then today else today + DAY) - zone.value
    }
  }

  function MinuteAt(t: Time, offset: Duration): MinuteOfDay {
    (t + offset) / MINUTE % MINUTES_IN_A_DAY
  }

  /** An instant x nanoseconds into day d of the zone's wall clock. */
  predicate OnDay(t: Time, offset: Duration, d: int, x: Duration) {
    t + offset == d * DAY + x && 0 <= x < DAY
  }

  /** A place on the wall clock decides the day and the minute shown. */
  lemma WallClock(t: Time, offset: Duration, d: int, x: Duration)
    requires OnDay(t, offset, d, x)
    ensures (t + offset) / DAY == d
    ensures MinuteAt(t, offset) == x / MINUTE
  {
    assert (t + offset) / MINUTE == d * MINUTES_IN_A_DAY + x / MINUTE;
  }

  lemma NextEndOnTheClock(q: QuietHours, t: Time, d: int, x: Duration)
    requires q.zone.Some? && q.end.Some? && OnDay(t, q.zone.value, d, x)
    ensures if x < q.end.value * MINUTE
            then OnDay(q.NextEnd(t), q.zone.value, d, q.end.value * MINUTE)
            else OnDay(q.NextEnd(t), q.zone.value, d + 1, q.end.value * MINUTE)
  {
    WallClock(t, q.zone.value, d, x);
  }

  /** Containment by place on the clock. */
  lemma ContainsOnTheClock(q: QuietHours, t: Time, d: int, x: Duration)
    requires q.Valid() && q.enabled && OnDay(t, q.zone.value, d, x)
    ensures q.Contains(t) <==>
              var s, e := q.start.value * MINUTE, q.end.value * MINUTE;
              if s < e then s <= x < e else s <= x || x < e
  {
    WallClock(t, q.zone.value, d, x);
    var m := x / MINUTE;
    assert m * MINUTE <= x < m * MINUTE + MINUTE;
  }

  /** Exactly what the window holds, whatever it was configured as, x nanoseconds into a
      day of its zone: nothing when it is disabled or cannot be read or is empty; else
      what lies from its start on and before its end, round midnight if need be. */
  lemma ContainsExactlyWhen(q: QuietHours, t: Time, d: int, x: Duration)
    requires q.zone.Some? ==> t + q.zone.value == d * 86_400_000_000_000 + x
    requires 0 <= x < 86_400_000_000_000
    ensures if !q.enabled || q.start.None? || q.end.None? || q.zone.None? || q.start == q.end then !q.Contains(t)
            else
              var s, e := q.start.value * 60_000_000_000, q.end.value * 60_000_000_000;
              q.Contains(t) <==> if s < e then s <= x < e else s <= x || x < e
  {
    if q.Valid() && q.enabled {
      assert OnDay(t, q.zone.value, d, x);
      ContainsOnTheClock(q, t, d, x);
    }
  }

  lemma PlaceOnTheClock(t: Time, offset: Duration) returns (d: int, x: Duration)
    ensures OnDay(t, offset, d, x)
  {
    d, x := (t + offset) / DAY, (t + offset) % DAY;
  }

  lemma ContainedUntilNextEnd(q: QuietHours, t: Time, u: Time)
    requires q.Contains(t) && t <= u < q.NextEnd(t)
    ensures q.Contains(u)
  {
    var d, x := PlaceOnTheClock(t, q.zone.value);
    var f, y := PlaceOnTheClock(u, q.zone.value);
    NextEndOnTheClock(q, t, d, x);
    ContainsOnTheClock(q, t, d, x);
    ContainsOnTheClock(q, u, f, y);
    assert f == d || f == d + 1;
  }

  /** From any instant of the window, wrapping midnight or not, NextEnd is the
      window's end: it lies strictly ahead and within a day, everything before
      it is still inside, and it is outside. */
  lemma NextEndIsTheEndOfTheWindow(q: QuietHours, t: Time)
    requires q.Contains(t)
    ensures t < q.NextEnd(t) <= t + DAY
    ensures forall u :: t <= u < q.NextEnd(t) ==> q.Contains(u)
    ensures !q.Contains(q.NextEnd(t))
  {
    var d, x := PlaceOnTheClock(t, q.zone.value);
    NextEndOnTheClock(q, t, d, x);
    ContainsOnTheClock(q, q.NextEnd(t), if x < q.end.value * MINUTE then d else d + 1,
                       q.end.value * MINUTE);
    forall u | t <= u < q.NextEnd(t)
      ensures q.Contains(u)
    {
      ContainedUntilNextEnd(q, t, u);
    }
  }

  /** An accepted, enabled window is never the whole day and never empty: the
      minute it starts is inside it and the minute it ends is not, on any day,
      so two windows back to back neither overlap nor leave a gap. */
  lemma StartIsInsideEndIsOutside(q: QuietHours, d: int)
    requires q.Valid() && q.enabled
    ensures q.Contains(d * DAY + q.start.value * MINUTE - q.zone.value)
    ensures !q.Contains(d * DAY + q.end.value * MINUTE - q.zone.value)
  {
    ContainsOnTheClock(q, d * DAY + q.start.value * MINUTE - q.zone.value, d, q.start.value * MINUTE);
    ContainsOnTheClock(q, d * DAY + q.end.value * MINUTE - q.zone.value, d, q.end.value * MINUTE);
  }
}
