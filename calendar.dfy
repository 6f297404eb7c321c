/**
 * The calendar the scheduler relies on, with a `Date` as whole seconds and a
 * fixed zone whose days are all 86400 seconds long (no daylight saving).
 */
module Calendar {

  const SecondsPerDay: int := 86400
  const MinutesPerDay: int := 1440

  /** `calendar.startOfDay(for:)`: the midnight at or before `t`. */
  function StartOfDay(t: int): (r: int)
    ensures r <= t < r + SecondsPerDay
    ensures r % SecondsPerDay == 0
  {
    t - t % SecondsPerDay
  }

  /** `calendar.isDate(_:inSameDayAs:)`. */
  predicate IsSameDay(a: int, b: int) {
    StartOfDay(a) == StartOfDay(b)
  }

  /** The start of a day is its own start of day. */
  lemma StartOfDayIdempotent(t: int)
    ensures StartOfDay(StartOfDay(t)) == StartOfDay(t)
  {
    StartOfDayUnique(t, StartOfDay(t));
  }

  /** A midnight `d` with `d <= t < d + 86400` is the start of `t`'s day. */
  lemma StartOfDayUnique(t: int, d: int)
    requires d % SecondsPerDay == 0 && d <= t < d + SecondsPerDay
    ensures StartOfDay(t) == d
  {
    var s := StartOfDay(t);
    assert s % SecondsPerDay == 0;
    if s < d {
      MultiplesApart(s, d);
    }
  }

  /** Two different midnights are at least a day apart. */
  lemma MultiplesApart(a: int, b: int)
    requires a % SecondsPerDay == 0 && b % SecondsPerDay == 0 && a < b
    ensures b - a >= SecondsPerDay
  {
    var qa, qb := a / SecondsPerDay, b / SecondsPerDay;
    assert a == qa * SecondsPerDay && b == qb * SecondsPerDay;
    assert qa < qb;
    assert b - a == (qb - qa) * SecondsPerDay;
  }

  /** The minute of the day that `t` falls in, `hour * 60 + minute`. */
  function MinutesSinceStartOfDay(t: int): (m: int)
    ensures 0 <= m < MinutesPerDay
    ensures StartOfDay(t) + m * 60 <= t < StartOfDay(t) + m * 60 + 60
  {
    (t - StartOfDay(t)) / 60
  }

  /** `calendar.date(byAdding: .day, value: -1, to:)` from a midnight. */
  function PreviousDay(d: int): (r: int)
    requires d % SecondsPerDay == 0
    ensures r % SecondsPerDay == 0 && r < d && StartOfDay(d - 1) == r
  {
    StartOfDayUnique(d - 1, d - SecondsPerDay);
    d - SecondsPerDay
  }
}
