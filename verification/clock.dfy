/**
 * Wall-clock time. A `Date` of the system is modelled as an integer number of
 * milliseconds since 1970-01-01; a `TimeInterval` is a real number of
 * seconds, and a date stored on disk is its real `timeIntervalSince1970`.
 */
module Clock {

  /** Milliseconds since 1970-01-01 00:00:00 UTC. */
  type Time = int

  const MillisPerSecond: int := 1000
  const MillisPerDay: int := 86_400_000

  /** `t.addingTimeInterval(seconds)`, rounded down to the millisecond. */
  function AddInterval(t: Time, seconds: real): Time
  {
    t + (seconds * 1000.0).Floor
  }

  /** `t.timeIntervalSince1970` */
  function SecondsSince1970(t: Time): real
  {
    t as real / 1000.0
  }

  /** `Date(timeIntervalSince1970: seconds)`, rounded down to the millisecond. */
  function DateFromSeconds(seconds: real): Time
  {
    (seconds * 1000.0).Floor
  }

  /** A stored date reads back as the same date. */
  lemma DateSecondsRoundTrip(t: Time)
    ensures DateFromSeconds(SecondsSince1970(t)) == t
  {
  }

  /** `Calendar.date(byAdding: .day, value: days, to: t)`, ignoring daylight-saving shifts. */
  function AddDays(t: Time, days: int): Time
  {
    t + days * MillisPerDay
  }

  /** Integer division rounding toward zero, the way Swift's `Int(x)` truncates. */
  function DivTowardZero(a: int, b: int): (q: int)
    requires b > 0
    ensures a >= 0 ==> q >= 0 && q * b <= a < q * b + b
    ensures a < 0 ==> q <= 0 && q * b - b < a <= q * b
  {
    if a >= 0 then
      DivBounds(a, b);
      a / b
    else
      DivBounds(-a, b);
      NegMul((-a) / b, b);
      -((-a) / b)
  }

  lemma DivBounds(a: nat, b: int)
    requires b > 0
    ensures a / b >= 0 && (a / b) * b <= a < (a / b) * b + b
  {
  }

  lemma NegMul(x: int, b: int)
    ensures (-x) * b == -(x * b)
  {
  }

  /** `Int(t.timeIntervalSince1970)`: whole seconds, truncated toward zero. */
  function TruncatedSeconds(t: Time): int
  {
    DivTowardZero(t, MillisPerSecond)
  }

  /**
   * `Calendar.dateComponents([.day], from: from, to: to).day`: the number of
   * whole days elapsed, negative when `to` precedes `from`.
   */
  function WholeDaysBetween(from: Time, to: Time): int
  {
    DivTowardZero(to - from, MillisPerDay)
  }

  lemma WholeDaysAtLeast(from: Time, to: Time, days: nat)
    requires days > 0
    ensures WholeDaysBetween(from, to) >= days <==> to - from >= days * MillisPerDay
  {
  }
}
