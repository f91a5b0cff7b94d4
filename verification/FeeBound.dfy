/** The signed fee ceiling (signedWorstFee in client.go) against the charge the venue makes and the
    bound the trade contract enforces. */
module FeeBound {
  import opened Market

  const WEI: int := 1_000_000_000_000_000_000
  const HEADROOM_BPS: int := 5

  /** The part of a market listing the fee depends on. `fallback` is the configured bound, None when
      it is not an integer. */
  datatype FeeSpec = FeeSpec(
    takerFeeBps: int,
    marginEngineFuture: bool,
    contractSizeUSDC: real,
    contractSize: real,
    fallback: Option<int>)

  function ContractNotional(spec: FeeSpec, price: real): real {
    if spec.contractSizeUSDC > 0.0 then spec.contractSizeUSDC
    else if spec.contractSize > 0.0 && price > 0.0 then spec.contractSize * price
    else 0.0
  }

  /** What one base unit is worth in quote, which is what the fee is charged on. */
  function UnitValue(spec: FeeSpec, price: real): real {
    if spec.marginEngineFuture then ContractNotional(spec, price) else price
  }

  function Ceil(x: real): (c: int)
    ensures c as real - 1.0 < x <= c as real
  {
    -((-x).Floor)
  }

  function FeeAt(value: real, bps: int): real {
    value * (bps as real / 10000.0) * WEI as real
  }

  /** The per-unit bound signed into an order, None when the order is refused. */
  function SignedWorstFee(spec: FeeSpec, price: real): Option<int> {
    if spec.takerFeeBps <= 0 then spec.fallback
    else
      var value := UnitValue(spec, price);
      if value <= 0.0 then None
      else
        var units := Ceil(FeeAt(value, spec.takerFeeBps + HEADROOM_BPS));
        Some(if units == 0 then 1 else units)
  }

  /** Without a schedule the configured bound is signed; with one, a bound is signed exactly when a unit is worth
      something -- a future's contract its fixed size in USDC or its size at the price, anything else its price --
      and it is the bound of that worth. */
  lemma BoundIsOfTheUnitsWorth(spec: FeeSpec, price: real)
    ensures spec.takerFeeBps <= 0 ==> SignedWorstFee(spec, price) == spec.fallback
    ensures spec.takerFeeBps > 0 && !spec.marginEngineFuture ==> (SignedWorstFee(spec, price).Some? <==> price > 0.0)
    ensures spec.takerFeeBps > 0 && spec.marginEngineFuture ==>
              var plain := spec.(marginEngineFuture := false);
              && (SignedWorstFee(spec, price).Some? <==> spec.contractSizeUSDC > 0.0 || (spec.contractSize > 0.0 && price > 0.0))
              && (spec.contractSizeUSDC > 0.0 ==> SignedWorstFee(spec, price) == SignedWorstFee(plain, spec.contractSizeUSDC))
              && (spec.contractSizeUSDC <= 0.0 && spec.contractSize > 0.0 && price > 0.0 ==>
                  SignedWorstFee(spec, price) == SignedWorstFee(plain, spec.contractSize * price))
  {
    hide FeeAt;
    if spec.contractSize > 0.0 && price > 0.0 {
      var worth := spec.contractSize * price;
      assert worth > 0.0;
      assert spec.contractSizeUSDC <= 0.0 ==> ContractNotional(spec, price) == worth;
    }
  }

  /** Nearest 18-decimal value, ties to even: strconv.FormatFloat(value, 'f', 18, 64) read back. */
  function RoundHalfEven(x: real): (r: int)
    ensures r as real - 0.5 <= x <= r as real + 0.5
    ensures x == r as real - 0.5 || x == r as real + 0.5 ==> r % 2 == 0
  {
    var lo := x.Floor;
    var rest := x - lo as real;
    if rest < 0.5 || (rest == 0.5 && lo % 2 == 0) then lo else lo + 1
  }

  /** The limit price in the signed trade data. */
  function SignedPrice(price: real): int {
    RoundHalfEven(price * WEI as real)
  }

  /** What the venue charges for a fill: notional truncated to wei, then the rate truncated. */
  function Charge(signedPrice: nat, amount: nat, bps: nat): nat {
    signedPrice * amount / WEI * bps / 10000
  }

  /** The contract's test: it reverts when the charge per filled unit exceeds the bound. */
  predicate Admitted(signedPrice: nat, amount: nat, bps: nat, bound: int) {
    Charge(signedPrice, amount, bps) * WEI <= bound * amount
  }

  lemma TruncationOnlyHelps(signedPrice: nat, amount: nat, bps: nat)
    ensures Charge(signedPrice, amount, bps) * WEI * 10000 <= signedPrice * amount * bps
  {
    var notional := signedPrice * amount / WEI;
    assert notional * WEI <= signedPrice * amount;
    assert Charge(signedPrice, amount, bps) * 10000 <= notional * bps;
    calc {
      Charge(signedPrice, amount, bps) * WEI * 10000;
    ==
      Charge(signedPrice, amount, bps) * 10000 * WEI;
    <=
      notional * bps * WEI;
    ==
      (notional * WEI) * bps;
    <=  { MulMonotone(notional * WEI, signedPrice * amount, bps); }
      signedPrice * amount * bps;
    }
  }

  lemma MulMonotone(a: int, b: int, c: int)
    requires a <= b && c >= 0
    ensures a * c <= b * c
  {
  }

  /** A bound admits every fill, of any size, exactly when it covers the untruncated rate. */
  lemma BoundAdmitsEveryFill(signedPrice: nat, bps: nat, bound: int)
    ensures (forall amount: nat :: Admitted(signedPrice, amount, bps, bound)) <==> signedPrice * bps <= bound * 10000
  {
    if signedPrice * bps <= bound * 10000 {
      forall amount: nat ensures Admitted(signedPrice, amount, bps, bound) {
        TruncationOnlyHelps(signedPrice, amount, bps);
        MulMonotone(signedPrice * bps, bound * 10000, amount);
        assert signedPrice * amount * bps == signedPrice * bps * amount;
        assert bound * 10000 * amount == (bound * amount) * 10000;
      }
    }
    if forall amount: nat :: Admitted(signedPrice, amount, bps, bound) {
      var amount: nat := 10000 * WEI;
      assert Admitted(signedPrice, amount, bps, bound);
      assert signedPrice * amount == (signedPrice * 10000) * WEI;
      assert signedPrice * amount / WEI == signedPrice * 10000;
      assert (signedPrice * 10000) * bps == (signedPrice * bps) * 10000;
      assert Charge(signedPrice, amount, bps) == signedPrice * bps;
    }
  }

  lemma RealMulMonotone(a: real, b: real, c: real)
    requires a <= b && c >= 0.0
    ensures a * c <= b * c
  {
  }

  lemma RealProduct(a: int, b: int)
    ensures (a * b) as real == a as real * b as real
  {
  }

  lemma FeeAtScales(value: real, bps: int)
    ensures FeeAt(value, bps) * 10000.0 == value * WEI as real * bps as real
  {
    assert bps as real / 10000.0 * 10000.0 == bps as real;
    calc {
      FeeAt(value, bps) * 10000.0;
    ==
      value * WEI as real * (bps as real / 10000.0 * 10000.0);
    }
  }

  lemma CeilCovers(worth: real, signedPrice: nat, bps: nat, top: nat, fee: real, bound: int)
    requires signedPrice as real <= worth && bps <= top
    requires fee * 10000.0 == worth * top as real && bound as real >= fee
    ensures signedPrice * bps <= bound * 10000
  {
    RealMulMonotone(signedPrice as real, worth, bps as real);
    RealMulMonotone(bps as real, top as real, worth);
    RealProduct(signedPrice, bps);
    RealProduct(bound, 10000);
  }

  /** Every fill is admitted, whatever its size and for any schedule up to the headroom, when the
      wei value a unit is charged on is not above the value the bound was taken at. */
  lemma EveryFillIsAdmitted(spec: FeeSpec, price: real, unitWei: nat, amount: nat, bps: nat)
    requires spec.takerFeeBps > 0 && UnitValue(spec, price) > 0.0
    requires bps <= spec.takerFeeBps + HEADROOM_BPS
    requires unitWei as real <= UnitValue(spec, price) * WEI as real
    ensures SignedWorstFee(spec, price).Some?
    ensures Admitted(unitWei, amount, bps, SignedWorstFee(spec, price).value)
  {
    var top: nat := spec.takerFeeBps + HEADROOM_BPS;
    var bound := SignedWorstFee(spec, price).value;
    var value := UnitValue(spec, price);
    FeeAtScales(value, top);
    CeilCovers(value * WEI as real, unitWei, bps, top, FeeAt(value, top), bound);
    BoundAdmitsEveryFill(unitWei, bps, bound);
  }

  /** A unit's fee at the schedule plus its headroom, in whole wei rounded up, and at least one. */
  function RoundedFee(spec: FeeSpec, value: real): int {
    var units := Ceil(value * WEI as real * (spec.takerFeeBps + HEADROOM_BPS) as real / 10000.0);
    if units < 1 then 1 else units
  }

  lemma BoundIs(spec: FeeSpec, price: real)
    requires spec.takerFeeBps > 0 && UnitValue(spec, price) > 0.0
    ensures SignedWorstFee(spec, price) == Some(RoundedFee(spec, UnitValue(spec, price)))
  {
    var value, top := UnitValue(spec, price), spec.takerFeeBps + HEADROOM_BPS;
    FeeAtScales(value, top);
    BoundIsPositive(spec, price);
    var units := Ceil(FeeAt(value, top));
    assert SignedWorstFee(spec, price) == Some(if units == 0 then 1 else units);
    hide FeeAt, UnitValue, Ceil, SignedWorstFee;
    TenThousandth(FeeAt(value, top), value * WEI as real * top as real);
    var x := value * WEI as real * top as real / 10000.0;
    assert x == FeeAt(value, top);
    assert RoundedFee(spec, value) == if units < 1 then 1 else units;
  }

  lemma TenThousandth(x: real, y: real)
    requires x * 10000.0 == y
    ensures x == y / 10000.0
  {
  }

  /** Every fill up to the fully raised schedule is admitted at a unit of so many wei exactly when that unit's
      charge at that schedule is within the bound. */
  lemma FillsAreAdmittedIff(spec: FeeSpec, price: real, unitWei: nat)
    requires spec.takerFeeBps > 0 && UnitValue(spec, price) > 0.0
    ensures var top: nat := spec.takerFeeBps + HEADROOM_BPS;
            var bound := RoundedFee(spec, UnitValue(spec, price));
            && SignedWorstFee(spec, price) == Some(bound)
            && ((forall bps: nat, amount: nat :: bps <= top ==> Admitted(unitWei, amount, bps, bound)) <==> unitWei * top <= 10000 * bound)
  {
    hide Admitted, RoundedFee, UnitValue, SignedWorstFee;
    var top: nat := spec.takerFeeBps + HEADROOM_BPS;
    BoundIs(spec, price);
    var bound := RoundedFee(spec, UnitValue(spec, price));
    if unitWei * top <= 10000 * bound {
      forall bps: nat, amount: nat | bps <= top ensures Admitted(unitWei, amount, bps, bound) {
        LessIsCovered(unitWei, bps, top, bound);
        BoundAdmitsEveryFill(unitWei, bps, bound);
      }
    }
    if forall bps: nat, amount: nat :: bps <= top ==> Admitted(unitWei, amount, bps, bound) {
      assert forall amount: nat :: Admitted(unitWei, amount, top, bound);
      BoundAdmitsEveryFill(unitWei, top, bound);
    }
  }

  lemma LessIsCovered(unitWei: nat, bps: nat, top: nat, bound: int)
    requires bps <= top && unitWei * top <= 10000 * bound
    ensures unitWei * bps <= bound * 10000
  {
    MulMonotone(bps, top, unitWei);
  }

  /** The same for an order at a price: every fill is admitted at the signed price exactly when what that
      price owes per unit is within the bound taken at the price itself. */
  lemma PriceIsCoveredIff(spec: FeeSpec, price: real)
    requires spec.takerFeeBps > 0 && !spec.marginEngineFuture && price > 0.0
    ensures var top: nat := spec.takerFeeBps + HEADROOM_BPS;
            && SignedPrice(price) >= 0 && SignedWorstFee(spec, price) == Some(RoundedFee(spec, price))
            && ((forall bps: nat, amount: nat :: bps <= top ==> Admitted(SignedPrice(price), amount, bps, RoundedFee(spec, price)))
                <==> SignedPrice(price) * top <= 10000 * RoundedFee(spec, price))
  {
    hide SignedPrice, Admitted, RoundedFee, SignedWorstFee;
    SignedPriceNotNegative(price);
    FillsAreAdmittedIff(spec, price, SignedPrice(price));
  }

  lemma SignedPriceNotNegative(price: real)
    requires price > 0.0
    ensures SignedPrice(price) >= 0
  {
    assert price * WEI as real > 0.0;
  }

  /** A price that is a whole number of wei -- any price on a tick of whole wei -- is signed as it is, and
      covered. */
  lemma WholeWeiIsCovered(spec: FeeSpec, price: real, wei: nat, bps: nat, amount: nat)
    requires spec.takerFeeBps > 0 && !spec.marginEngineFuture && price > 0.0
    requires price * WEI as real == wei as real && bps <= spec.takerFeeBps + HEADROOM_BPS
    ensures SignedPrice(price) == wei && SignedWorstFee(spec, price).Some?
    ensures Admitted(SignedPrice(price), amount, bps, SignedWorstFee(spec, price).value)
  {
    EveryFillIsAdmitted(spec, price, wei, amount, bps);
  }

  /** A price off the 18-decimal grid is signed rounded to it, up to half a wei above the price the
      bound was taken at: at 666.6 wei the fully raised schedule then reverts a large fill. */
  lemma RoundedUpPriceCanBreachTheBound()
    ensures var spec := FeeSpec(25, false, 0.0, 0.0, None);
            var price := 666.6 / WEI as real;
            && SignedPrice(price) == 667
            && SignedWorstFee(spec, price) == Some(2)
            && !Admitted(667, 10000 * WEI, 30, 2)
  {
    var price := 666.6 / WEI as real;
    assert price * WEI as real == 666.6;
    assert FeeAt(price, 30) == 1.9998;
    assert Charge(667, 10000 * WEI, 30) == 20010;
  }

  lemma BoundIsPositive(spec: FeeSpec, price: real)
    requires spec.takerFeeBps > 0 && UnitValue(spec, price) > 0.0
    ensures SignedWorstFee(spec, price).Some? && SignedWorstFee(spec, price).value >= 1
  {
    var value := UnitValue(spec, price);
    assert value * ((spec.takerFeeBps + HEADROOM_BPS) as real / 10000.0) > 0.0;
    assert FeeAt(value, spec.takerFeeBps + HEADROOM_BPS) > 0.0;
  }

  lemma FeeAtMonotone(v: real, w: real, s: nat, t: nat)
    requires 0.0 <= v <= w && s <= t
    ensures FeeAt(v, s) <= FeeAt(w, t)
  {
    var p, q := s as real / 10000.0, t as real / 10000.0;
    RealMulMonotone(v, w, p);
    RealMulMonotone(p, q, w);
    assert p * w == w * p && q * w == w * q;
    RealMulMonotone(v * p, w * q, WEI as real);
  }

  lemma UnitValueMonotone(spec: FeeSpec, p: real, q: real)
    requires 0.0 < UnitValue(spec, p) && p <= q
    ensures UnitValue(spec, p) <= UnitValue(spec, q)
  {
    if spec.marginEngineFuture && spec.contractSizeUSDC <= 0.0 {
      RealMulMonotone(p, q, spec.contractSize);
      assert p * spec.contractSize == spec.contractSize * p && q * spec.contractSize == spec.contractSize * q;
    }
  }

  /** A higher price or a higher schedule never lowers the bound. */
  lemma BoundIsMonotone(a: FeeSpec, b: FeeSpec, p: real, q: real)
    requires 0 < a.takerFeeBps <= b.takerFeeBps && a == b.(takerFeeBps := a.takerFeeBps)
    requires 0.0 < UnitValue(a, p) && p <= q
    ensures SignedWorstFee(a, p).Some? && SignedWorstFee(b, q).Some?
    ensures SignedWorstFee(a, p).value <= SignedWorstFee(b, q).value
  {
    UnitValueMonotone(a, p, q);
    assert UnitValue(a, q) == UnitValue(b, q);
    var s, t := a.takerFeeBps + HEADROOM_BPS, b.takerFeeBps + HEADROOM_BPS;
    FeeAtMonotone(UnitValue(a, p), UnitValue(b, q), s, t);
    BoundIsPositive(a, p);
    assert Ceil(FeeAt(UnitValue(a, p), s)) <= Ceil(FeeAt(UnitValue(b, q), t));
  }

  /** The bound is the least whole number of wei that is at least one and covers the fee one base unit
      owes at the schedule plus its headroom. */
  lemma BoundIsLeast(spec: FeeSpec, price: real, smaller: int)
    requires spec.takerFeeBps > 0 && UnitValue(spec, price) > 0.0
    ensures var bound := SignedWorstFee(spec, price).value;
            var fee := FeeAt(UnitValue(spec, price), spec.takerFeeBps + HEADROOM_BPS);
            bound >= 1 && bound as real >= fee && (1 <= smaller && smaller as real >= fee ==> bound <= smaller)
  {
    hide FeeAt;
    BoundIsPositive(spec, price);
  }
}
