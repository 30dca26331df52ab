/** Dates as the application compares them: `new Date(s).getTime()` gives
    milliseconds since the epoch, or `NaN` for a string it cannot parse. */
module Dates {

  /** Milliseconds in a day, `1000 * 60 * 60 * 24`. */
  const DayMs: int := 86400000

  /** The value of `getTime()`: `Invalid` stands for `NaN`. */
  datatype Instant = Valid(ms: int) | Invalid

  /** `a <= b` on two `getTime()` values: false whenever either is `NaN`. */
  predicate Le(a: Instant, b: Instant) {
    a.Valid? && b.Valid? && a.ms <= b.ms
  }

  /** `Math.ceil(n / d)` for a positive divisor. */
  function CeilDiv(n: int, d: int): (r: int)
    requires d > 0
    ensures d * (r - 1) < n <= d * r
  {
    var q := (-n) / d;
    var m := (-n) % d;
    assert -n == d * q + m && 0 <= m < d;
    assert d * (-q - 1) == -(d * q) - d;
    -q
  }

  function Abs(x: int): nat {
    if x < 0 then -x else x
  }
}
