/**
 * Calendar-date arithmetic as the goal pages perform it.
 *
 * Dates cross the backend boundary as `YYYY-MM-DD` strings. JavaScript parses a
 * date-only string as UTC midnight, so a date is modelled by its day number
 * (days since 1970-01-01) and `new Date(s)` by the millisecond timestamp of that
 * midnight. The pages divide millisecond differences by the length of a day and
 * round with `Math.floor` or `Math.ceil`; this module writes those roundings out
 * and proves that, for date-only inputs, they give exact day differences.
 */
module Dates {

  /** A calendar date: whole days since 1970-01-01 (UTC). */
  type Date = int

  /** `1000 * 60 * 60 * 24`: milliseconds in a day. */
  const MsPerDay: int := 86_400_000

  /** The timestamp (milliseconds since the epoch) of `new Date("YYYY-MM-DD")`. */
  function Midnight(d: Date): (ms: int)
    ensures ms % MsPerDay == 0
    ensures ms / MsPerDay == d
  {
    d * MsPerDay
  }

  /** `Math.floor(ms / MsPerDay)`: the largest whole number of days not above `ms`. */
  function FloorDays(ms: int): (n: int)
    ensures n * MsPerDay <= ms < n * MsPerDay + MsPerDay
  {
    ms / MsPerDay
  }

  /** `Math.ceil(ms / MsPerDay)`: the smallest whole number of days not below `ms`. */
  function CeilDays(ms: int): (n: int)
    ensures n * MsPerDay - MsPerDay < ms <= n * MsPerDay
  {
    -((-ms) / MsPerDay)
  }

  /**
   * The largest time value a JavaScript `Date` can hold, in either direction:
   * 8.64 × 10^15 milliseconds, exactly 100,000,000 days, from the epoch. A date
   * outside this range is an Invalid Date, whose `toISOString()` throws.
   */
  const MaxTime: int := 8_640_000_000_000_000
  const MaxDays: int := 100_000_000

  /** A date a JavaScript `Date` can represent. */
  predicate Representable(d: Date)
  {
    -MaxDays <= d <= MaxDays
  }

  /** A date is representable exactly when its midnight lies within the time range. */
  lemma RepresentableIffInTimeRange(d: Date)
    ensures Representable(d) <==> -MaxTime <= Midnight(d) <= MaxTime
  {
  }

  /** `Math.abs`. */
  function Abs(x: int): (r: nat)
    ensures r == x || r == -x
  {
    if x < 0 then -x else x
  }

  /**
   * `Math.floor((new Date(to) - new Date(from)) / MsPerDay)`: the signed gap in
   * days from `from` to `to`. Date-only inputs make the division exact.
   */
  function DaysBetween(from: Date, to: Date): (gap: int)
    ensures gap == to - from
    ensures AddDays(from, gap) == to
  {
    FloorDays(Midnight(to) - Midnight(from))
  }

  /**
   * `Math.ceil(Math.abs(new Date(to) - new Date(from)) / MsPerDay)`: the unsigned
   * distance in days between two dates, rounded away from zero.
   */
  function CeilAbsDays(from: Date, to: Date): (n: nat)
    ensures n == Abs(to - from)
  {
    var ms := Abs(Midnight(to) - Midnight(from));
    var n := CeilDays(ms);
    assert n == Abs(to - from);
    n
  }

  /**
   * `setDate(getDate() + n)`: the date `n` calendar days after `d` (before it when
   * `n` is negative), whose midnight lies `n` whole days of milliseconds later.
   */
  function AddDays(d: Date, n: int): (r: Date)
    ensures Midnight(r) == Midnight(d) + n * MsPerDay
  {
    d + n
  }

  /** Shifting a date and measuring the gap back are inverse operations. */
  lemma AddDaysThenMeasure(d: Date, n: int)
    ensures DaysBetween(d, AddDays(d, n)) == n
    ensures CeilAbsDays(d, AddDays(d, n)) == Abs(n)
  {
  }

  /** The end-date distance does not depend on which date comes first. */
  lemma CeilAbsDaysSymmetric(a: Date, b: Date)
    ensures CeilAbsDays(a, b) == CeilAbsDays(b, a)
  {
  }
}
