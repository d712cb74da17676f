/**
 * The arithmetic of the fade ramp: integer milliseconds plus one exact ratio.
 * JavaScript numbers are modelled as unbounded integers (the time values involved are
 * whole milliseconds) and the one division that yields a fraction as an exact `real`.
 */
module FadeMath {

  const ONE_DAY_MS: int := 1000 * 60 * 60 * 24
  const ONE_HOUR_MS: int := 1000 * 60 * 60
  const MIN_OPACITY_CHANGE: real := 0.01
  const DEFAULT_UPDATE_INTERVAL: int := 1000 * 60 * 60
  const DEFAULT_FADE_DURATION: int := 300
  /** Minimum spacing of two applied passes, about one frame at 60 Hz. */
  const THROTTLE_MS: int := 16

  /** Division truncated toward zero, as `Math.trunc(a / b)` for a positive divisor. */
  function TruncDiv(a: int, b: int): (q: int)
    requires b > 0
    ensures a >= 0 ==> q * b <= a < (q + 1) * b
    ensures a < 0 ==> (q - 1) * b < a <= q * b
  {
    if a >= 0 then a / b else -((-a) / b)
  }

  /** JavaScript `a % b` for a positive divisor: the remainder keeps the sign of the dividend. */
  function JsRem(a: int, b: int): (r: int)
    requires b > 0
    ensures a >= 0 ==> 0 <= r < b
    ensures a < 0 ==> -b < r <= 0
    ensures (a - r) % b == 0
  {
    var q := TruncDiv(a, b);
    MultipleMod(b, q);
    a - b * q
  }

  lemma MultipleMod(b: int, q: int)
    requires b > 0
    ensures (b * q) % b == 0
  {
    var m := b * q;
    var k := q - m / b;
    assert m == b * (m / b) + m % b;
    assert 0 <= b * k < b;
    assert k == 0;
  }

  /** `Math.abs` on an opacity difference. */
  function Abs(x: real): (r: real)
    ensures r >= 0.0 && (r == x || r == -x)
  {
    if x < 0.0 then -x else x
  }

  /** `calculateTotalPeriod`: the length of the fade ramp, never below one millisecond. */
  function TotalPeriod(deadline: int, initializedAt: int): (p: int)
    ensures p >= 1 && p >= deadline - initializedAt
    ensures p == deadline - initializedAt || (p == 1 && deadline - initializedAt < 1)
  {
    var diff := deadline - initializedAt;
    if 1 < diff then diff else 1
  }

  /** `clamp(value, min, max)` = `Math.max(min, Math.min(max, value))`. */
  function Clamp(value: real, lo: real, hi: real): (r: real)
    ensures r >= lo
    ensures lo <= hi ==> r <= hi
    ensures lo <= value <= hi ==> r == value
    ensures value < lo ==> r == lo
    ensures lo <= hi < value ==> r == hi
  {
    var upper := if hi < value then hi else value;
    if lo < upper then upper else lo
  }

  /**
   * `calculateOpacity`: zero once the deadline is reached, otherwise the remaining share of
   * the ramp clamped to [0, 1].
   */
  function Opacity(deadline: int, totalPeriod: int, now: int): (r: real)
    requires totalPeriod >= 1
    ensures 0.0 <= r <= 1.0
    ensures r == 0.0 <==> deadline - now <= 0
  {
    var remaining := deadline - now;
    if remaining <= 0 then 0.0
    else Clamp((remaining as real) / (totalPeriod as real), 0.0, 1.0)
  }

  /** The triple `calculateTimeRemaining` returns. */
  datatype TimeRemaining = TimeRemaining(days: int, hours: int, totalMs: int)

  /**
   * `calculateTimeRemaining`: `days = Math.floor(diff / ONE_DAY_MS)` and
   * `hours = Math.floor((diff % ONE_DAY_MS) / ONE_HOUR_MS)` with JavaScript's `%`.
   * Dafny's `/` by a positive divisor is exactly `Math.floor` of the quotient.
   */
  function CalculateTimeRemaining(deadline: int, now: int): (t: TimeRemaining)
    ensures t.totalMs == deadline - now
    ensures t.days * ONE_DAY_MS <= t.totalMs < t.days * ONE_DAY_MS + ONE_DAY_MS
    ensures t.totalMs >= 0 ==> 0 <= t.hours < 24
    ensures t.totalMs < 0 ==> -24 <= t.hours <= 0
    ensures t.hours * ONE_HOUR_MS <= JsRem(t.totalMs, ONE_DAY_MS) < t.hours * ONE_HOUR_MS + ONE_HOUR_MS
  {
    var diff := deadline - now;
    TimeRemaining(diff / ONE_DAY_MS, JsRem(diff, ONE_DAY_MS) / ONE_HOUR_MS, diff)
  }

  /** The snapshot `getStatus` returns. */
  datatype Status = Status(opacity: real, daysRemaining: int, hoursRemaining: int, isActive: bool)

  function Max(a: int, b: int): int { if a < b then b else a }

  /**
   * `getStatus` for a given ramp: days and hours clamped to zero for display, `isActive` read
   * from the unclamped values. The instance is active exactly while at least an hour remains,
   * so an active instance is never fully faded, while one with under an hour left is
   * inactive although still partly visible.
   */
  function StatusAt(deadline: int, totalPeriod: int, now: int): (s: Status)
    requires totalPeriod >= 1
    ensures s.daysRemaining >= 0 && 0 <= s.hoursRemaining < 24
    ensures s.opacity == Opacity(deadline, totalPeriod, now)
    ensures 0.0 <= s.opacity <= 1.0
    ensures s.isActive <==> deadline - now >= ONE_HOUR_MS
    ensures s.isActive ==> s.opacity > 0.0
    ensures deadline - now <= 0 ==> s == Status(0.0, 0, 0, false)
  {
    var t := CalculateTimeRemaining(deadline, now);
    Status(Opacity(deadline, totalPeriod, now), Max(0, t.days), Max(0, t.hours), t.days > 0 || t.hours > 0)
  }

  /** `getDaysRemaining`: whole days left, never negative. */
  function DaysRemaining(deadline: int, now: int): (d: int)
    ensures d >= 0
    ensures deadline - now >= 0 ==> d * ONE_DAY_MS <= deadline - now < d * ONE_DAY_MS + ONE_DAY_MS
    ensures deadline - now < ONE_DAY_MS ==> d == 0
  {
    Max(0, CalculateTimeRemaining(deadline, now).days)
  }

  /** For a fixed deadline and ramp length, opacity never rises as time advances. */
  lemma OpacityNonIncreasing(deadline: int, totalPeriod: int, earlier: int, later: int)
    requires totalPeriod >= 1 && earlier <= later
    ensures Opacity(deadline, totalPeriod, later) <= Opacity(deadline, totalPeriod, earlier)
  {
    if deadline - later > 0 {
      var p := totalPeriod as real;
      var a := (deadline - later) as real;
      var b := (deadline - earlier) as real;
      assert a <= b;
      DivMonotone(a, b, p);
    }
  }

  lemma DivMonotone(a: real, b: real, p: real)
    requires a <= b && p > 0.0
    ensures a / p <= b / p
  {
    assert b / p - a / p == (b - a) / p;
  }

  /**
   * On the ramp, opacity is the exact remaining share of the period: it starts at 1 when the
   * period begins and falls linearly to the deadline.
   */
  lemma OpacityOnRamp(deadline: int, initializedAt: int, now: int)
    requires initializedAt <= now < deadline
    ensures Opacity(deadline, TotalPeriod(deadline, initializedAt), now)
         == ((deadline - now) as real) / ((deadline - initializedAt) as real)
  {
    var p := (deadline - initializedAt) as real;
    var r := (deadline - now) as real;
    assert 0.0 < r <= p;
    assert r / p <= 1.0 by {
      assert r / p <= p / p by { DivMonotone(r, p, p); }
    }
  }

  /** A freshly started ramp reads exactly 1 while the deadline is still ahead. */
  lemma OpacityAtStart(deadline: int, now: int)
    requires deadline > now
    ensures Opacity(deadline, TotalPeriod(deadline, now), now) == 1.0
  {
    OpacityOnRamp(deadline, now, now);
  }

  /**
   * Whole days and hours of the status split the remaining time: what is left after them is
   * under an hour.
   */
  lemma StatusSplitsRemaining(deadline: int, totalPeriod: int, now: int)
    requires totalPeriod >= 1 && deadline - now >= 0
    ensures var s := StatusAt(deadline, totalPeriod, now);
      s.daysRemaining * ONE_DAY_MS + s.hoursRemaining * ONE_HOUR_MS <= deadline - now
      < s.daysRemaining * ONE_DAY_MS + s.hoursRemaining * ONE_HOUR_MS + ONE_HOUR_MS
  {
    var diff := deadline - now;
    var t := CalculateTimeRemaining(deadline, now);
    var rem := JsRem(diff, ONE_DAY_MS);
    assert rem == diff - ONE_DAY_MS * (diff / ONE_DAY_MS);
    assert t.days == diff / ONE_DAY_MS;
    assert t.hours * ONE_HOUR_MS <= rem < t.hours * ONE_HOUR_MS + ONE_HOUR_MS;
  }
}
