/** Order amounts on the wire: the count of venue units in the body, the signed amount, and the size read
    back from the venue (futureOrderAmounts, optionOrderAmounts and orderAmountToFloat in client.go). */
module WireAmounts {
  import opened Market
  import opened Decimals
  import opened Rounding

  /** Rounding down overshoots the size by at most a billionth of a step, and never loses a whole one. */
  lemma StepsBound(size: real, step: real)
    requires step > 0.0
    ensures var n := Steps(size, step); Multiple(n, step) <= size + NUDGE * step && size < Multiple(n, step) + step
  {
    RoundDownBounds(size, step);
  }

  /** An exact 18-decimal value. */
  predicate Exact(x: real) {
    x * SCALE as real == (x * SCALE as real).Floor as real
  }

  datatype Amounts = Amounts(body: string, signed: int, rounded: real)

  // ----- futures -----

  /** The steps the listing fixes; `unitContracts` is 0 when it lists no unit. */
  datatype FutureSpec = FutureSpec(minSize: real, unitContracts: real)

  function IntString(n: int): string {
    if n < 0 then "-" + Digits(-n) else Digits(n)
  }

  /** The amounts of `atomic` steps. */
  function StepAmounts(spec: FutureSpec, atomic: int): Option<Amounts> {
    if atomic <= 0 then None
    else
      var rounded := Multiple(atomic, spec.minSize);
      var signed := Truncate(rounded * SCALE as real);
      if spec.unitContracts > 0.0 then
        var units := rounded / spec.unitContracts;
        if units != units.Floor as real then None else Some(Amounts(IntString(units.Floor), signed, rounded))
      else Some(Amounts(Print(RoundHalfAway(rounded * SCALE as real)), signed, rounded))
  }

  function FutureAmounts(spec: FutureSpec, size: real): Option<Amounts> {
    if spec.minSize <= 0.0 || size < 0.0 then None else StepAmounts(spec, Steps(size, spec.minSize))
  }

  function VenueUnit(spec: FutureSpec): real {
    if spec.unitContracts > 0.0 then spec.unitContracts else spec.minSize
  }

  /** The count the venue stores: the body itself when it counts units, else the body over the step. */
  function VenueCount(spec: FutureSpec, body: string): Option<real>
    requires spec.unitContracts > 0.0 || spec.minSize > 0.0
  {
    var v := Parse(body);
    if v.None? || spec.unitContracts > 0.0 then v else Some(v.value / spec.minSize)
  }

  /** A resting order's size, from the count the venue reports. */
  function ReadBack(spec: FutureSpec, count: real): real {
    count * VenueUnit(spec)
  }

  lemma IntStringParses(n: nat)
    ensures Parse(IntString(n)) == Some(n as real)
  {
    DigitsRoundTrip(n);
    ParseWhole(Digits(n));
  }

  lemma FloorOf(x: real, k: int)
    requires x == k as real
    ensures x.Floor == k && x == x.Floor as real
  {
  }

  lemma ProductOfCasts(n: int, s: int)
    ensures n as real * s as real == (n * s) as real
  {
  }

  lemma ExactMultiple(n: int, step: real)
    requires Exact(step)
    ensures Exact(n as real * step)
    ensures ((n as real * step) * SCALE as real).Floor == n * (step * SCALE as real).Floor
  {
    var s := (step * SCALE as real).Floor;
    var m := n as real * step;
    assert m * SCALE as real == n as real * (step * SCALE as real);
    ProductOfCasts(n, s);
    FloorOf(m * SCALE as real, n * s);
    assert Exact(m);
  }

  lemma ExactPrints(x: real)
    requires Exact(x) && x >= 0.0
    ensures RoundHalfAway(x * SCALE as real) == (x * SCALE as real).Floor == Truncate(x * SCALE as real)
    ensures Parse(Print((x * SCALE as real).Floor)) == Some(x)
  {
    hide Parse, Print;
    var raw := (x * SCALE as real).Floor;
    PrintParses(raw);
    assert raw as real / SCALE as real == x;
  }

  lemma PrintParses(raw: int)
    ensures Parse(Print(raw)) == Some(raw as real / SCALE as real)
  {
    hide Parse, Fixed, Normalize;
    FixedParses(raw);
    NormalizeKeepsValue(Fixed(raw));
  }

  /** What an accepted size came from: n units of the listing's own, or n steps. */
  lemma Accepted(spec: FutureSpec, size: real) returns (n: int)
    requires FutureAmounts(spec, size).Some?
    ensures spec.minSize > 0.0 && VenueUnit(spec) > 0.0
    ensures var a := FutureAmounts(spec, size).value;
            && n >= 1 && n as real * VenueUnit(spec) == a.rounded > 0.0
            && a.rounded == Multiple(Steps(size, spec.minSize), spec.minSize) && Steps(size, spec.minSize) >= 1
            && a.signed == Truncate(a.rounded * SCALE as real)
            && a.body == if spec.unitContracts > 0.0 then IntString(n) else Print(RoundHalfAway(a.rounded * SCALE as real))
  {
    hide Print, IntString, RoundHalfAway, Truncate;
    var atomic := Steps(size, spec.minSize);
    var rounded := Multiple(atomic, spec.minSize);
    MultipleIsPositive(atomic, spec.minSize);
    if spec.unitContracts > 0.0 {
      var units := rounded / spec.unitContracts;
      assert units * spec.unitContracts == rounded;
      PositiveFactor(units, spec.unitContracts);
      n := units.Floor;
    } else {
      n := atomic;
    }
  }

  lemma PositiveFactor(a: real, b: real)
    requires a * b > 0.0 && b > 0.0
    ensures a > 0.0
  {
  }

  lemma SignedIsCount(n: int, unit: real, rounded: real)
    requires Exact(unit) && n as real * unit == rounded && rounded > 0.0
    ensures Truncate(rounded * SCALE as real) == n * (unit * SCALE as real).Floor
  {
    ExactMultiple(n, unit);
  }

  /** Reading n units back. */
  lemma ReadsBack(spec: FutureSpec, n: int, rounded: real, signed: int)
    requires n >= 1 && n as real * VenueUnit(spec) == rounded && signed == n * (VenueUnit(spec) * SCALE as real).Floor
    ensures var count := n as real;
            && count > 0.0 && count == count.Floor as real
            && ReadBack(spec, count) == rounded && signed == count.Floor * (VenueUnit(spec) * SCALE as real).Floor
  {
    FloorOf(n as real, n);
  }

  lemma StepCount(spec: FutureSpec, n: int, rounded: real)
    requires Exact(spec.minSize) && spec.minSize > 0.0 && !(spec.unitContracts > 0.0)
    requires n >= 1 && n as real * spec.minSize == rounded > 0.0
    ensures VenueCount(spec, Print(RoundHalfAway(rounded * SCALE as real))) == Some(n as real)
  {
    hide Parse, Print;
    ExactMultiple(n, spec.minSize);
    ExactPrints(rounded);
    RatioIs(rounded, n, spec.minSize);
  }

  /** A future's size in body units and back: the venue stores a whole positive count, reading it back
      gives exactly the rounded size, and the signed amount is exactly that count times the unit's own
      18-decimal scale. */
  lemma FutureRoundTrip(spec: FutureSpec, size: real)
    requires Exact(spec.minSize) && Exact(spec.unitContracts) && FutureAmounts(spec, size).Some?
    ensures spec.minSize > 0.0
    ensures var a := FutureAmounts(spec, size).value;
            var count := VenueCount(spec, a.body);
            && count.Some? && count.value > 0.0 && count.value == count.value.Floor as real
            && ReadBack(spec, count.value) == a.rounded
            && a.signed == count.value.Floor * (VenueUnit(spec) * SCALE as real).Floor
  {
    hide Parse, Print, IntString, RoundHalfAway, Truncate, FutureAmounts, Exact, Steps;
    var n := Accepted(spec, size);
    var a := FutureAmounts(spec, size).value;
    SignedIsCount(n, VenueUnit(spec), a.rounded);
    ReadsBack(spec, n, a.rounded, a.signed);
    if spec.unitContracts > 0.0 {
      IntStringParses(n);
    } else {
      StepCount(spec, n, a.rounded);
    }
  }

  /** Rounding is idempotent, overshoots by at most a billionth of a step and loses less than one. */
  lemma FutureRoundingIsStable(spec: FutureSpec, size: real)
    requires FutureAmounts(spec, size).Some?
    ensures var a := FutureAmounts(spec, size).value;
            && FutureAmounts(spec, a.rounded) == Some(a)
            && a.rounded <= size + NUDGE * spec.minSize && size < a.rounded + spec.minSize
  {
    hide StepAmounts, Steps, Multiple;
    var n := Accepted(spec, size);
    StepsBound(size, spec.minSize);
    StepsOfMultiple(Steps(size, spec.minSize), spec.minSize);
  }

  /** A size the strategy already rounded to the step goes out as it is. */
  lemma StrategySizeIsExact(spec: FutureSpec, size: real)
    requires FutureAmounts(spec, RoundDown(size, spec.minSize)).Some?
    ensures FutureAmounts(spec, RoundDown(size, spec.minSize)).value.rounded == RoundDown(size, spec.minSize)
  {
    hide Multiple, IntString, Print, Truncate, RoundHalfAway, Steps;
    RoundDownIsStable(size, spec.minSize);
  }

  /** A size rounds to no step at all exactly when it is short of one by more than the tolerance. */
  lemma BelowOneStep(size: real, step: real)
    requires step > 0.0
    ensures Steps(size, step) <= 0 <==> size < step - NUDGE * step
  {
    var q := size / step;
    assert q * step == size;
    assert (1.0 - NUDGE) * step == step - NUDGE * step;
    Scale(q, 1.0 - NUDGE, step);
    Scale(1.0 - NUDGE, q, step);
    assert Steps(size, step) <= 0 <==> q + NUDGE < 1.0;
  }

  predicate IsMultiple(k: int, unit: real, x: real) {
    k as real * unit == x
  }

  ghost predicate WholeUnits(unit: real, x: real) {
    exists k :: IsMultiple(k, unit, x)
  }

  lemma WholeQuotient(unit: real, x: real)
    requires unit > 0.0
    ensures x / unit == (x / unit).Floor as real <==> WholeUnits(unit, x)
  {
    var units := x / unit;
    assert units * unit == x;
    if units == units.Floor as real {
      assert IsMultiple(units.Floor, unit, x);
    }
    if WholeUnits(unit, x) {
      var k :| IsMultiple(k, unit, x);
      RatioIs(x, k, unit);
    }
  }

  /** An order is refused exactly when it rounds below one step, or -- on a listing with a unit -- when
      the rounded size is not whole units. */
  lemma FutureRefusals(spec: FutureSpec, size: real)
    requires spec.minSize > 0.0 && size >= 0.0
    ensures FutureAmounts(spec, size).None? <==>
              size < spec.minSize - NUDGE * spec.minSize
              || (spec.unitContracts > 0.0 && !WholeUnits(spec.unitContracts, Multiple(Steps(size, spec.minSize), spec.minSize)))
  {
    hide Steps, IntString, Print, RoundHalfAway, Truncate, WholeUnits, Multiple;
    BelowOneStep(size, spec.minSize);
    if spec.unitContracts > 0.0 {
      WholeQuotient(spec.unitContracts, Multiple(Steps(size, spec.minSize), spec.minSize));
    }
  }

  // ----- options -----

  /** `unitBase` is one venue unit in base terms, `scale` the signed amount of one. */
  function OptionAmounts(unitBase: real, scale: int, size: real): Option<Amounts> {
    if unitBase <= 0.0 || scale <= 0 || size <= 0.0 then None
    else
      var units := Steps(size, unitBase);
      if units < 1 then None
      else Some(Amounts(IntString(units), units * scale, Multiple(units, unitBase)))
  }

  /** An option order is refused exactly when the listing has no unit or scale, or its size rounds below one unit. */
  lemma OptionRefusals(unitBase: real, scale: int, size: real)
    ensures OptionAmounts(unitBase, scale, size).None? <==> unitBase <= 0.0 || scale <= 0 || size <= 0.0 || size < unitBase - NUDGE * unitBase
  {
    hide Steps, IntString, Multiple;
    if unitBase > 0.0 {
      BelowOneStep(size, unitBase);
    }
  }

  /** An option's size in whole units and back, its signed amount, and the rounding. */
  lemma OptionRoundTrip(unitBase: real, scale: int, size: real)
    requires OptionAmounts(unitBase, scale, size).Some?
    ensures var a := OptionAmounts(unitBase, scale, size).value;
            var count := Parse(a.body);
            && count.Some? && count.value == count.value.Floor as real >= 1.0
            && count.value * unitBase == a.rounded && a.signed == count.value.Floor * scale
            && OptionAmounts(unitBase, scale, a.rounded) == Some(a)
            && a.rounded <= size + NUDGE * unitBase && size < a.rounded + unitBase
  {
    hide Parse, IntString, Steps, Multiple;
    var units := Steps(size, unitBase);
    StepsBound(size, unitBase);
    StepsOfMultiple(units, unitBase);
    MultipleIsPositive(units, unitBase);
    IntStringParses(units);
    FloorOf(units as real, units);
    MultipleIs(units, unitBase);
  }

  lemma MultipleIs(n: int, step: real)
    ensures n as real * step == Multiple(n, step)
  {
  }
}
