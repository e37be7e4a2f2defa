/** Failure-compatible wrappers and the small pieces of arithmetic the pipeline shares. */
module Base {

  datatype Option<+T> = None | Some(value: T)

  datatype Result<+T, +E> = Ok(value: T) | Err(error: E)

  function Abs(x: real): (r: real)
    ensures r >= 0.0 && (r == x || r == -x)
  {
    if x < 0.0 then -x else x
  }

  /** Python's `int(seconds / 60)`: the quotient truncated toward zero, not floored. */
  function TruncMinutes(seconds: int): (r: int)
    ensures seconds >= 0 ==> 0 <= r && 60 * r <= seconds < 60 * r + 60
    ensures seconds < 0 ==> r <= 0 && 60 * r - 60 < seconds <= 60 * r
  {
    if seconds >= 0 then seconds / 60 else -((-seconds) / 60)
  }

  /** Truncation and flooring differ on a negative elapsed time that is not a whole minute. */
  lemma TruncationIsNotFloor()
    ensures TruncMinutes(-90) == -1 && -90 / 60 == -2
  {
  }

  /** The calendar day (days since the epoch) of a timestamp in seconds: `.date()` of a naive datetime. */
  function DayOf(ts: int): (d: int)
    ensures 86400 * d <= ts < 86400 * d + 86400
  {
    ts / 86400
  }

  /** The seconds since midnight that a `%H:%M:%S` time of day can give. */
  type SecondOfDay = s: int | 0 <= s < 86400

  /** A timestamp put together from a day number and a time of day, as `Trade Date + ' ' + Trade Time` is. */
  function MomentOf(day: int, secondOfDay: int): int
  {
    day * 86400 + secondOfDay
  }

  lemma DayOfMoment(day: int, secondOfDay: int)
    requires 0 <= secondOfDay < 86400
    ensures DayOf(MomentOf(day, secondOfDay)) == day
  {
  }

  /** A non-negative quantity at most `bound` times a positive divisor divides to at most `bound`. */
  lemma QuotientWithin(x: real, n: real, bound: real)
    requires n > 0.0 && 0.0 <= x <= bound * n
    ensures 0.0 <= x / n <= bound
  {
    assert x / n * n == x;
  }
}
