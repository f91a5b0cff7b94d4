/** When a configured ladder is spaced widely enough for the syncer to leave it alone: the step between
    levels, net of tick rounding, at least the stale tolerance. */
module LadderSpacing {
  import opened Market
  import opened Pairing
  import opened PairingFixpoint
  import opened Ladder
  import opened Rounding
  import opened Exposure

  function Tick(spec: LadderSpec): real {
    if spec.tickSize <= 0.0 then 0.0 else spec.tickSize
  }

  /** One level step in the market's own price. */
  function LevelGap(cfg: LadderConfig, p: Pricing): real {
    p.ref * StepFraction(cfg)
  }

  /** What is certain to be left of one level step after both prices are rounded to the tick. */
  function SureGap(cfg: LadderConfig, spec: LadderSpec, p: Pricing): real {
    LevelGap(cfg, p) - Tick(spec) - Slack(spec.tickSize)
  }

  /** The highest price on the side. */
  function Highest(cfg: LadderConfig, spec: LadderSpec, p: Pricing): real {
    match p.side
    case Buy => PriceOf(cfg, spec, p, 0)
    case Sell => PriceOf(cfg, spec, p, LevelCount(cfg) - 1)
  }

  /** A check on the configuration at a reference price. One level is never too close to another. */
  predicate Roomy(cfg: LadderConfig, spec: LadderSpec, p: Pricing, toleranceBPS: real) {
    LevelCount(cfg) == 1 || SureGap(cfg, spec, p) >= toleranceBPS / 10000.0 * Highest(cfg, spec, p)
  }

  lemma OneStepOffset(cfg: LadderConfig, j: nat, k: nat)
    requires j < k && cfg.levelSpreadStepBPS >= 0.0
    ensures Offset(cfg, k) >= Offset(cfg, j) + StepFraction(cfg)
  {
    hide StepFraction;
    ScaleWeakly((j + 1) as real, k as real, StepFraction(cfg));
    Distribute(j as real, 1.0, StepFraction(cfg));
  }

  lemma DistanceGap(cfg: LadderConfig, p: Pricing, j: nat, k: nat)
    requires j < k && cfg.levelSpreadStepBPS >= 0.0
    ensures if p.side == Buy then Distance(cfg, p, j) >= Distance(cfg, p, k) + StepFraction(cfg)
            else Distance(cfg, p, k) >= Distance(cfg, p, j) + StepFraction(cfg)
  {
    hide Offset, StepFraction;
    OneStepOffset(cfg, j, k);
  }

  lemma Spread(ref: real, a: real, b: real, f: real, x: real, y: real, gap: real)
    requires ref >= 0.0 && a >= b + f && x == ref * a && y == ref * b && gap == ref * f
    ensures x >= y + gap
  {
    Product(ref, b + f, a);
    assert ref * (b + f) == ref * b + ref * f;
  }

  lemma RawGap(cfg: LadderConfig, p: Pricing, j: nat, k: nat)
    requires j < k && cfg.levelSpreadStepBPS >= 0.0 && p.ref >= 0.0
    ensures if p.side == Buy then RawPrice(cfg, p, j) >= RawPrice(cfg, p, k) + LevelGap(cfg, p)
            else RawPrice(cfg, p, k) >= RawPrice(cfg, p, j) + LevelGap(cfg, p)
  {
    hide Distance, StepFraction;
    DistanceGap(cfg, p, j, k);
    var near, far, f := Distance(cfg, p, j), Distance(cfg, p, k), StepFraction(cfg);
    if p.side == Buy {
      Spread(p.ref, near, far, f, RawPrice(cfg, p, j), RawPrice(cfg, p, k), LevelGap(cfg, p));
    } else {
      Spread(p.ref, far, near, f, RawPrice(cfg, p, k), RawPrice(cfg, p, j), LevelGap(cfg, p));
    }
  }

  /** Tick rounding takes at most one tick and its tolerance off a step. */
  lemma PriceGap(cfg: LadderConfig, spec: LadderSpec, p: Pricing, j: nat, k: nat)
    requires j < k && cfg.levelSpreadStepBPS >= 0.0 && p.ref >= 0.0
    ensures if p.side == Buy then PriceOf(cfg, spec, p, j) >= PriceOf(cfg, spec, p, k) + SureGap(cfg, spec, p)
            else PriceOf(cfg, spec, p, k) >= PriceOf(cfg, spec, p, j) + SureGap(cfg, spec, p)
  {
    hide RawPrice, PriceOf, LevelGap, Slack, Tick;
    RawGap(cfg, p, j, k);
    RoundedGap(cfg, spec, p, j, k, LevelGap(cfg, p));
  }

  lemma RoundedGap(cfg: LadderConfig, spec: LadderSpec, p: Pricing, j: nat, k: nat, gap: real)
    requires if p.side == Buy then RawPrice(cfg, p, j) >= RawPrice(cfg, p, k) + gap else RawPrice(cfg, p, k) >= RawPrice(cfg, p, j) + gap
    ensures if p.side == Buy then PriceOf(cfg, spec, p, j) >= PriceOf(cfg, spec, p, k) + gap - Tick(spec) - Slack(spec.tickSize)
            else PriceOf(cfg, spec, p, k) >= PriceOf(cfg, spec, p, j) + gap - Tick(spec) - Slack(spec.tickSize)
  {
    hide RawPrice, Multiple;
    match p.side {
      case Buy =>
        RoundDownBounds(RawPrice(cfg, p, j), spec.tickSize);
        RoundDownBounds(RawPrice(cfg, p, k), spec.tickSize);
      case Sell =>
        RoundUpBounds(RawPrice(cfg, p, j), spec.tickSize);
        RoundUpBounds(RawPrice(cfg, p, k), spec.tickSize);
    }
  }

  /** A gap of at least the tolerance times the resting price is a drift of at least the tolerance. */
  lemma GapIsDrift(resting: real, level: real, gap: real, toleranceBPS: real)
    requires resting > 0.0 && level > 0.0 && Abs(level - resting) >= gap >= toleranceBPS / 10000.0 * resting
    ensures !Closer(PriceDrift(resting, level), Bps(toleranceBPS))
  {
    var x, tau := Abs(level - resting) / resting, toleranceBPS / 10000.0;
    assert x * resting == Abs(level - resting);
    if x < tau {
      Scale(x, tau, resting);
      assert false;
    }
    AsBasisPoints(x, toleranceBPS);
  }

  lemma AsBasisPoints(x: real, toleranceBPS: real)
    requires x >= toleranceBPS / 10000.0
    ensures x * 10000.0 >= toleranceBPS
  {
  }

  lemma BelowHighest(cfg: LadderConfig, spec: LadderSpec, p: Pricing, k: nat)
    requires k < LevelCount(cfg) && cfg.levelSpreadStepBPS >= 0.0 && p.ref >= 0.0
    ensures PriceOf(cfg, spec, p, k) <= Highest(cfg, spec, p)
  {
    hide PriceOf;
    if p.side == Buy {
      PricesStepOut(cfg, spec, p, 0, k);
    } else {
      PricesStepOut(cfg, spec, p, k, LevelCount(cfg) - 1);
    }
  }

  lemma LevelsAreSpaced(cfg: LadderConfig, spec: LadderSpec, p: Pricing, toleranceBPS: real, j: nat, k: nat)
    requires j < k < LevelCount(cfg) && cfg.levelSpreadStepBPS >= 0.0 && p.ref >= 0.0
    requires Roomy(cfg, spec, p, toleranceBPS) && toleranceBPS > 0.0
    requires PriceOf(cfg, spec, p, j) > 0.0 && PriceOf(cfg, spec, p, k) > 0.0
    ensures Better(p.side, PriceOf(cfg, spec, p, j), PriceOf(cfg, spec, p, k))
    ensures !Closer(PriceDrift(PriceOf(cfg, spec, p, k), PriceOf(cfg, spec, p, j)), Bps(toleranceBPS))
  {
    hide PriceOf, SureGap, Highest;
    var near, far := PriceOf(cfg, spec, p, j), PriceOf(cfg, spec, p, k);
    PriceGap(cfg, spec, p, j, k);
    BelowHighest(cfg, spec, p, k);
    var tau, gap := toleranceBPS / 10000.0, SureGap(cfg, spec, p);
    Product(tau, far, Highest(cfg, spec, p));
    ProductPositive(tau, far);
    GapIsDrift(far, near, gap, toleranceBPS);
  }

  lemma ProductPositive(a: real, b: real)
    requires a > 0.0 && b > 0.0
    ensures a * b > 0.0
  {
  }

  /** A roomy configuration puts out a strict ladder of positive prices, each further than the tolerance
      from the better ones: what leaving a settled book alone takes. */
  lemma RoomyLadderIsSpaced(cfg: LadderConfig, spec: LadderSpec, x: SideInput, orderSize: real, inventory: real, toleranceBPS: real)
    requires cfg.levelSpreadStepBPS >= 0.0 && x.pricing.ref >= 0.0 && toleranceBPS > 0.0
    requires Roomy(cfg, spec, x.pricing, toleranceBPS) && PriceOf(cfg, spec, x.pricing, 0) > 0.0
    ensures var targets := Targets(cfg, spec, x, orderSize, inventory);
            && StrictLadder(x.pricing.side, targets) && Spaced(targets, toleranceBPS)
            && forall i :: 0 <= i < |targets| ==> targets[i].side == x.pricing.side
  {
    hide PriceOf, LevelsFrom, BestSize, Roomy, PriceDrift, SideQuotes, LevelFits;
    var targets := Targets(cfg, spec, x, orderSize, inventory);
    TargetPrices(cfg, spec, x, orderSize, inventory);
    forall j, k | 0 <= j < k < |targets|
      ensures Better(x.pricing.side, targets[j].price, targets[k].price)
      ensures !Closer(PriceDrift(targets[k].price, targets[j].price), Bps(toleranceBPS))
    {
      LevelsAreSpaced(cfg, spec, x.pricing, toleranceBPS, j, k);
    }
  }

  /** A spaced ladder of the strategy's is strictly best first: levels never improve with depth, and two at one
      price would not be spaced. */
  lemma SpacedLadderIsStrict(cfg: LadderConfig, spec: LadderSpec, x: SideInput, orderSize: real, inventory: real, toleranceBPS: real)
    requires cfg.levelSpreadStepBPS >= 0.0 && x.pricing.ref >= 0.0 && toleranceBPS > 0.0 && PriceOf(cfg, spec, x.pricing, 0) > 0.0
    requires Spaced(Targets(cfg, spec, x, orderSize, inventory), toleranceBPS)
    ensures var targets := Targets(cfg, spec, x, orderSize, inventory);
            && StrictLadder(x.pricing.side, targets)
            && forall i :: 0 <= i < |targets| ==> targets[i].side == x.pricing.side
  {
    hide PriceOf, LevelsFrom, BestSize, PriceDrift, SideQuotes, LevelFits, Targets;
    var targets := Targets(cfg, spec, x, orderSize, inventory);
    TargetPrices(cfg, spec, x, orderSize, inventory);
    forall j, k | 0 <= j < k < |targets| ensures Better(x.pricing.side, targets[j].price, targets[k].price) {
      PricesStepOut(cfg, spec, x.pricing, j, k);
      DriftIsZero(targets[k].price, targets[j].price);
    }
  }

  /** Target i is priced at level i. */
  lemma TargetPrices(cfg: LadderConfig, spec: LadderSpec, x: SideInput, orderSize: real, inventory: real)
    requires PriceOf(cfg, spec, x.pricing, 0) > 0.0
    ensures var targets := Targets(cfg, spec, x, orderSize, inventory);
            && |targets| <= LevelCount(cfg)
            && forall i :: 0 <= i < |targets| ==>
                targets[i].side == x.pricing.side && targets[i].price == PriceOf(cfg, spec, x.pricing, i) > 0.0
  {
    hide PriceOf, LevelsFrom, BestSize, LevelFits;
    LadderIsWellFormed(cfg, spec, x.pricing, 0, orderSize, x.capacity, Headroom(x.pricing.side, inventory, x.limit));
  }
}
