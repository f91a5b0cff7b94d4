/** Rounding sizes and prices to steps (roundDown and roundUp in strategy.go), over exact reals with the
    code's own 1e-9 tolerance, and the arithmetic it takes. */
module Rounding {

  const NUDGE: real := 0.000000001

  function Multiple(n: int, step: real): real {
    n as real * step
  }

  /** Whole steps in a value, the tolerance included. */
  function Steps(value: real, step: real): int
    requires step > 0.0
  {
    (value / step + NUDGE).Floor
  }

  function RoundDown(value: real, step: real): real {
    if step <= 0.0 then value else Multiple(Steps(value, step), step)
  }

  function StepsUp(value: real, step: real): int
    requires step > 0.0
  {
    -(-(value / step - NUDGE)).Floor
  }

  function RoundUp(value: real, step: real): real {
    if step <= 0.0 then value else Multiple(StepsUp(value, step), step)
  }

  /** Nearest whole number, halves away from zero. */
  function RoundHalfAway(x: real): int {
    if x >= 0.0 then (x + 0.5).Floor else -((-x + 0.5).Floor)
  }

  /** The tolerance in the value's own units. */
  function Slack(step: real): real {
    if step <= 0.0 then 0.0 else NUDGE * step
  }

  lemma Scale(a: real, b: real, step: real)
    requires step > 0.0
    ensures a <= b ==> a * step <= b * step
    ensures a < b ==> a * step < b * step
  {
  }

  lemma Distribute(a: real, b: real, step: real)
    ensures (a + b) * step == a * step + b * step
  {
  }

  /** A value as a multiple of the step, exactly. */
  lemma Ratio(value: real, step: real) returns (q: real)
    requires step > 0.0
    ensures q == value / step && q * step == value
  {
    q := value / step;
  }

  lemma MultipleOrder(n: int, q: real, step: real)
    requires step > 0.0
    ensures n as real <= q <==> Multiple(n, step) <= q * step
    ensures Multiple(n + 1, step) == Multiple(n, step) + step
    ensures (q + NUDGE) * step == q * step + NUDGE * step
    ensures (q - NUDGE) * step == q * step - NUDGE * step
  {
    Scale(n as real, q, step);
    Scale(q, n as real, step);
    Distribute(n as real, 1.0, step);
    Distribute(q, NUDGE, step);
    Distribute(q, -NUDGE, step);
  }

  lemma MultipleMonotone(m: int, n: int, step: real)
    requires step > 0.0 && m <= n
    ensures Multiple(m, step) <= Multiple(n, step)
  {
    Scale(m as real, n as real, step);
  }

  lemma RoundDownBounds(value: real, step: real)
    ensures RoundDown(value, step) <= value + Slack(step)
    ensures step > 0.0 ==> value < RoundDown(value, step) + step
  {
    hide Multiple;
    if step > 0.0 {
      var q := Ratio(value, step);
      var n := (q + NUDGE).Floor;
      MultipleOrder(n, q + NUDGE, step);
      MultipleOrder(n, q, step);
      MultipleOrder(n + 1, q, step);
    }
  }

  lemma RoundUpBounds(value: real, step: real)
    ensures RoundUp(value, step) >= value - Slack(step)
    ensures step > 0.0 ==> value > RoundUp(value, step) - step
  {
    hide Multiple;
    if step > 0.0 {
      var q := Ratio(value, step);
      var n := -(-(q - NUDGE)).Floor;
      MultipleOrder(n, q - NUDGE, step);
      MultipleOrder(n - 1, q, step);
      MultipleOrder(n - 1, q - NUDGE, step);
      NotBelow(n, q - NUDGE, step);
    }
  }

  /** Both roundings land on whole steps, and without a step change nothing. */
  lemma RoundedToWholeSteps(value: real, step: real) returns (down: int, up: int)
    ensures step > 0.0 ==> RoundDown(value, step) == Multiple(down, step) && RoundUp(value, step) == Multiple(up, step)
    ensures step <= 0.0 ==> RoundDown(value, step) == value && RoundUp(value, step) == value
  {
    hide Multiple;
    down, up := 0, 0;
    if step > 0.0 {
      down, up := Steps(value, step), StepsUp(value, step);
    }
  }

  lemma NotBelow(n: int, q: real, step: real)
    requires step > 0.0 && q <= n as real
    ensures q * step <= Multiple(n, step)
  {
    Scale(q, n as real, step);
  }

  lemma QuotientMonotone(x: real, y: real, step: real)
    requires step > 0.0 && x <= y
    ensures x / step <= y / step
  {
    var a, b := x / step, y / step;
    assert a * step == x && b * step == y;
    Scale(b, a, step);
  }

  lemma RoundDownMonotone(x: real, y: real, step: real)
    requires x <= y
    ensures RoundDown(x, step) <= RoundDown(y, step)
  {
    hide Multiple;
    if step > 0.0 {
      QuotientMonotone(x, y, step);
      MultipleMonotone(Steps(x, step), Steps(y, step), step);
    }
  }

  lemma RoundUpMonotone(x: real, y: real, step: real)
    requires x <= y
    ensures RoundUp(x, step) <= RoundUp(y, step)
  {
    hide Multiple;
    if step > 0.0 {
      QuotientMonotone(x, y, step);
      MultipleMonotone(StepsUp(x, step), StepsUp(y, step), step);
    }
  }

  /** A multiple of the step that is not above a value is not above the value rounded down. */
  lemma RoundDownKeepsMultiples(n: int, value: real, step: real)
    requires step > 0.0 && Multiple(n, step) <= value
    ensures Multiple(n, step) <= RoundDown(value, step)
  {
    hide Multiple;
    var q := Ratio(value, step);
    MultipleOrder(n, q, step);
    MultipleMonotone(n, (q + NUDGE).Floor, step);
  }

  lemma ScaleWeakly(a: real, b: real, f: real)
    requires a <= b && f >= 0.0
    ensures a * f <= b * f
  {
    if f > 0.0 {
      Scale(a, b, f);
    } else {
      assert a * 0.0 == 0.0 == b * 0.0;
    }
  }

  lemma Product(ref: real, a: real, b: real)
    requires ref >= 0.0 && a <= b
    ensures ref * a <= ref * b
  {
  }

  /** A whole number of steps rounds to itself. */
  lemma StepsOfMultiple(n: int, step: real)
    requires step > 0.0
    ensures Steps(Multiple(n, step), step) == n && RoundDown(Multiple(n, step), step) == Multiple(n, step)
  {
    assert Multiple(n, step) / step == n as real;
  }

  /** Rounding is idempotent. */
  lemma RoundDownIsStable(value: real, step: real)
    ensures RoundDown(RoundDown(value, step), step) == RoundDown(value, step)
  {
    hide Multiple, Steps;
    if step > 0.0 {
      StepsOfMultiple(Steps(value, step), step);
    }
  }

  lemma MultipleIsPositive(n: int, step: real)
    requires step > 0.0
    ensures Multiple(n, step) > 0.0 <==> n >= 1
  {
    Scale(0.0, n as real, step);
    Scale(n as real, 0.0, step);
  }

  lemma RatioIs(x: real, n: int, step: real)
    requires step > 0.0 && x == n as real * step
    ensures x / step == n as real
  {
    assert n as real * step / step == n as real;
  }
}
