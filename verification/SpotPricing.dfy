/** Where a spot cycle quotes and how much: which reference it takes, which way inventory leans it, and how far out
    and how large the best quotes are (ComputeReferencePrice, inventorySkew and the pricing half of
    BuildQuotesWithOverrides in strategy.go). */
module SpotPricing {
  import opened Market
  import opened Ladder
  import opened Rounding
  import opened Exposure
  import opened SelfFeedback
  import opened SpotPosition

  // ----- the reference -----

  predicate TwoSided(v: View) {
    v.bestBid > 0.0 && v.bestAsk > 0.0
  }

  /** Others' two-sided book is quoted around from its middle; without one the external rate goes before the last
      trade; with none of the three nothing is quoted. */
  lemma BookBeforeExternalBeforeTrade(cfg: SpotConfig, spec: LadderSpec, ov: Overrides, feed: Feed, v: View)
    ensures var (ref, source) := Reference(v.bestBid, v.bestAsk, feed);
            && (source == FromBook <==> TwoSided(v))
            && (source == FromExternal <==> !TwoSided(v) && feed.external > 0.0)
            && (source == FromTrade <==> !TwoSided(v) && feed.external <= 0.0 && feed.lastTrade.Some? && feed.lastTrade.value > 0.0)
            && (source == FromBook ==> ref - v.bestBid == v.bestAsk - ref)
            && (source == FromExternal ==> ref == feed.external)
            && (source == FromTrade ==> ref == feed.lastTrade.value)
            && (source != FromNothing ==> ref > 0.0)
            && (BuildSpotQuotes(cfg, spec, ov, feed, v).NoReference? <==> source == FromNothing)
  {
    hide SpotSizing, Targets;
  }

  // ----- the lean -----

  /** A bot that holds more than nothing leans its prices down, one that is short leans them up, in proportion, and
      never further than the maximum. */
  lemma SkewLeansAgainstInventory(inventory: real, fullAt: real, maxSkewBPS: real)
    requires maxSkewBPS >= 0.0
    ensures var skew := InventorySkew(inventory, fullAt, maxSkewBPS);
            && -maxSkewBPS <= skew <= maxSkewBPS
            && (fullAt <= 0.0 ==> skew == 0.0)
            && (fullAt > 0.0 && inventory >= fullAt ==> skew == maxSkewBPS)
            && (fullAt > 0.0 && inventory <= -fullAt ==> skew == -maxSkewBPS)
            && (fullAt > 0.0 && Abs(inventory) <= fullAt ==> skew * fullAt == inventory * maxSkewBPS)
  {
    if fullAt > 0.0 {
      var held := HeldShare(inventory, fullAt, maxSkewBPS);
      hide InventorySkew;
      Leaned(held, inventory, fullAt, maxSkewBPS);
    }
  }

  /** The share of the maximum that is leaned: the inventory's share of fullAt, within plus and minus one. */
  lemma HeldShare(inventory: real, fullAt: real, maxSkewBPS: real) returns (held: real)
    requires fullAt > 0.0
    ensures -1.0 <= held <= 1.0 && InventorySkew(inventory, fullAt, maxSkewBPS) == held * maxSkewBPS
    ensures (inventory >= fullAt ==> held == 1.0) && (inventory <= -fullAt ==> held == -1.0)
    ensures -fullAt <= inventory <= fullAt ==> held * fullAt == inventory
  {
    var ratio := inventory / fullAt;
    held := Max(-1.0, Min(1.0, ratio));
    assert InventorySkew(inventory, fullAt, maxSkewBPS) == held * maxSkewBPS;
    hide InventorySkew;
    assert ratio * fullAt == inventory;
    RatioOrder(ratio, 1.0, fullAt);
    RatioOrder(ratio, -1.0, fullAt);
    assert 1.0 * fullAt == fullAt && -1.0 * fullAt == -fullAt;
  }

  lemma Leaned(held: real, inventory: real, fullAt: real, maxSkewBPS: real)
    requires -1.0 <= held <= 1.0 && maxSkewBPS >= 0.0
    ensures -maxSkewBPS <= held * maxSkewBPS <= maxSkewBPS
    ensures held * fullAt == inventory ==> held * maxSkewBPS * fullAt == inventory * maxSkewBPS
  {
    Product(maxSkewBPS, -1.0, held);
    Product(maxSkewBPS, held, 1.0);
    assert held * maxSkewBPS * fullAt == held * fullAt * maxSkewBPS;
  }

  lemma RatioOrder(a: real, b: real, fullAt: real)
    requires fullAt > 0.0
    ensures a * fullAt <= b * fullAt <==> a <= b
    ensures a * fullAt >= b * fullAt <==> a >= b
  {
    if a <= b {
      ScaleWeakly(a, b, fullAt);
    } else {
      Scale(b, a, fullAt);
    }
    if b <= a {
      ScaleWeakly(b, a, fullAt);
    } else {
      Scale(a, b, fullAt);
    }
  }

  /** More inventory leans at least as far down. */
  lemma SkewGrows(a: real, b: real, fullAt: real, maxSkewBPS: real)
    requires a <= b && maxSkewBPS >= 0.0
    ensures InventorySkew(a, fullAt, maxSkewBPS) <= InventorySkew(b, fullAt, maxSkewBPS)
  {
    if fullAt > 0.0 {
      QuotientMonotone(a, b, fullAt);
      var x, y := Max(-1.0, Min(1.0, a / fullAt)), Max(-1.0, Min(1.0, b / fullAt));
      Product(maxSkewBPS, x, y);
    }
  }

  /** The inventory at which the lean is full: the configured one, in base units, or else the larger limit. */
  lemma FullLeanIsWhereConfigured(cfg: SpotConfig, spec: LadderSpec, inventory: real, ref: real, long: real, short: real)
    requires ref > 0.0
    ensures cfg.skewFullAt > 0.0 ==>
              SpotSkew(cfg, spec, inventory, ref, long, short) == InventorySkew(inventory, InBase(cfg.skewFullAt, spec.baseSized, ref), cfg.skewBPS)
    ensures cfg.skewFullAt <= 0.0 ==>
              SpotSkew(cfg, spec, inventory, ref, long, short)
              == InventorySkew(inventory, if Abs(long) >= Abs(short) then Abs(long) else Abs(short), cfg.skewBPS)
  {
    hide InventorySkew;
  }

  // ----- the best quotes -----

  /** The spread and the size one of the cycle's sides is quoted with: the configured ones, scaled while the reference
      is the external rate, under the operator's adjustments. */
  function HalfSpread(cfg: SpotConfig, ov: Overrides, source: Source): real {
    ((if source == FromExternal then cfg.halfSpreadBPS * cfg.externalSpread else cfg.halfSpreadBPS) + ov.spreadAddBPS) / 10000.0
  }

  function OrderSize(cfg: SpotConfig, ov: Overrides, source: Source): real {
    (if source == FromExternal then cfg.orderSize * cfg.externalSize else cfg.orderSize) * ov.sizeMult
  }

  /** The lean as a fraction of the reference. */
  function Lean(cfg: SpotConfig, spec: LadderSpec, v: View, ref: real): real {
    SpotSkew(cfg, spec, v.inventory, ref, LongLimit(cfg.limits, spec.baseSized, ref), ShortLimit(cfg.limits, spec.baseSized, ref)) / 10000.0
  }

  /** The two prices before rounding. */
  function Middle(ov: Overrides, ref: real): real {
    ref * (1.0 + ov.midShiftBPS / 10000.0)
  }

  function RawBid(cfg: SpotConfig, spec: LadderSpec, ov: Overrides, v: View, ref: real, source: Source): real {
    Middle(ov, ref) * (1.0 - HalfSpread(cfg, ov, source) - Lean(cfg, spec, v, ref))
  }

  function RawAsk(cfg: SpotConfig, spec: LadderSpec, ov: Overrides, v: View, ref: real, source: Source): real {
    Middle(ov, ref) * (1.0 + HalfSpread(cfg, ov, source) - Lean(cfg, spec, v, ref))
  }

  lemma PricingOf(cfg: SpotConfig, spec: LadderSpec, ov: Overrides, v: View, ref: real, source: Source) returns (bid: Pricing, ask: Pricing)
    requires ref > 0.0
    ensures bid == Pricing(Buy, Middle(ov, ref), HalfSpread(cfg, ov, source), Lean(cfg, spec, v, ref), 0.0)
    ensures ask == Pricing(Sell, Middle(ov, ref), HalfSpread(cfg, ov, source), Lean(cfg, spec, v, ref), 0.0)
    ensures RawPrice(cfg.ladder, bid, 0) == RawBid(cfg, spec, ov, v, ref, source)
    ensures RawPrice(cfg.ladder, ask, 0) == RawAsk(cfg, spec, ov, v, ref, source)
    ensures var z := SpotSizing(cfg, spec, ov, v, ref, source == FromExternal);
            var bidPrice, askPrice := PriceOf(cfg.ladder, spec, bid, 0), PriceOf(cfg.ladder, spec, ask, 0);
            && (z.Some? <==> 0.0 < bidPrice < askPrice)
            && (z.Some? ==>
                && z.value.bid.pricing == bid.(opposite := askPrice) && z.value.ask.pricing == ask.(opposite := bidPrice)
                && z.value.orderSize == InBase(OrderSize(cfg, ov, source), spec.baseSized, ref))
  {
    SpreadAndSize(cfg, ov, source);
    hide PriceOf, Capped, LongLimit, ShortLimit, SpotSkew, RawPrice, HalfSpread, HalfSpreadOf, OrderSize, OrderSizeOf;
    bid := Pricing(Buy, Middle(ov, ref), HalfSpread(cfg, ov, source), Lean(cfg, spec, v, ref), 0.0);
    ask := Pricing(Sell, Middle(ov, ref), HalfSpread(cfg, ov, source), Lean(cfg, spec, v, ref), 0.0);
    LevelZeroIsNotOffset(cfg.ladder, bid);
    LevelZeroIsNotOffset(cfg.ladder, ask);
  }

  lemma SpreadAndSize(cfg: SpotConfig, ov: Overrides, source: Source)
    ensures HalfSpreadOf(cfg, ov, source == FromExternal) == HalfSpread(cfg, ov, source)
    ensures OrderSizeOf(cfg, ov, source == FromExternal) == OrderSize(cfg, ov, source)
  {
  }

  lemma LevelZeroIsNotOffset(cfg: LadderConfig, p: Pricing)
    ensures RawPrice(cfg, p, 0) == p.ref * (if p.side == Buy then 1.0 - p.halfSpread - p.skew else 1.0 + p.halfSpread - p.skew)
  {
    assert Offset(cfg, 0) == 0.0 by {
      assert 0.0 * StepFraction(cfg) == 0.0;
    }
  }

  /** A cycle with a reference quotes exactly when the two rounded prices are positive and do not meet, and then its
      best bid is the raw bid rounded down to a tick, its best ask the raw ask rounded up. */
  lemma BestQuotesStandAt(cfg: SpotConfig, spec: LadderSpec, ov: Overrides, feed: Feed, v: View)
    requires Reference(v.bestBid, v.bestAsk, feed).0 > 0.0
    ensures var (ref, source) := Reference(v.bestBid, v.bestAsk, feed);
            var bid, ask := RoundDown(RawBid(cfg, spec, ov, v, ref, source), spec.tickSize), RoundUp(RawAsk(cfg, spec, ov, v, ref, source), spec.tickSize);
            var q := BuildSpotQuotes(cfg, spec, ov, feed, v);
            && (q.Laddered? <==> 0.0 < bid < ask)
            && (q.Laddered? && q.bids != [] ==> q.bids[0].price == bid)
            && (q.Laddered? && q.asks != [] ==> q.asks[0].price == ask)
  {
    hide RoundDown, RoundUp, RawPrice, RawBid, RawAsk, SpotSizing, Targets, Lean, HalfSpread, OrderSize, Middle, InBase;
    var (ref, source) := Reference(v.bestBid, v.bestAsk, feed);
    hide Reference;
    var bid, ask := PricingOf(cfg, spec, ov, v, ref, source);
    if BuildSpotQuotes(cfg, spec, ov, feed, v).Laddered? {
      var z := SpotSizing(cfg, spec, ov, v, ref, source == FromExternal).value;
      FirstTargetIsBest(cfg.ladder, spec, z.bid, z.orderSize, v.inventory);
      FirstTargetIsBest(cfg.ladder, spec, z.ask, z.orderSize, v.inventory);
      OppositeDoesNotPrice(cfg.ladder, spec, z.bid.pricing, 0);
      OppositeDoesNotPrice(cfg.ladder, spec, z.ask.pricing, 0);
    }
  }

  /** Leaning with the book otherwise unchanged: the more of the base the bot holds, the lower both its best quotes. */
  lemma MoreInventoryNeverRaisesQuotes(cfg: SpotConfig, spec: LadderSpec, ov: Overrides, feed: Feed, v: View, w: View)
    requires cfg.skewBPS >= 0.0 && ov.midShiftBPS >= -10000.0
    requires v.bestBid == w.bestBid && v.bestAsk == w.bestAsk && v.inventory <= w.inventory
    requires BuildSpotQuotes(cfg, spec, ov, feed, v).Laddered? && BuildSpotQuotes(cfg, spec, ov, feed, w).Laddered?
    ensures var p, q := BuildSpotQuotes(cfg, spec, ov, feed, v), BuildSpotQuotes(cfg, spec, ov, feed, w);
            && (p.bids != [] && q.bids != [] ==> q.bids[0].price <= p.bids[0].price)
            && (p.asks != [] && q.asks != [] ==> q.asks[0].price <= p.asks[0].price)
  {
    hide RoundDown, RoundUp, BuildSpotQuotes, HalfSpread, Reference;
    var (ref, source) := Reference(v.bestBid, v.bestAsk, feed);
    HasReference(cfg, spec, ov, feed, v);
    BestQuotesStandAt(cfg, spec, ov, feed, v);
    BestQuotesStandAt(cfg, spec, ov, feed, w);
    LeanGrows(cfg, spec, v, w, ref);
    var middle, half := Middle(ov, ref), HalfSpread(cfg, ov, source);
    ShiftedReference(ref, 1.0 + ov.midShiftBPS / 10000.0);
    assert middle == Shifted(ref, 1.0 + ov.midShiftBPS / 10000.0) >= 0.0;
    hide Lean, Middle, Shifted;
    var a, b := Lean(cfg, spec, v, ref), Lean(cfg, spec, w, ref);
    Product(middle, 1.0 - half - b, 1.0 - half - a);
    Product(middle, 1.0 + half - b, 1.0 + half - a);
    RoundDownMonotone(RawBid(cfg, spec, ov, w, ref, source), RawBid(cfg, spec, ov, v, ref, source), spec.tickSize);
    RoundUpMonotone(RawAsk(cfg, spec, ov, w, ref, source), RawAsk(cfg, spec, ov, v, ref, source), spec.tickSize);
  }

  lemma HasReference(cfg: SpotConfig, spec: LadderSpec, ov: Overrides, feed: Feed, v: View)
    requires BuildSpotQuotes(cfg, spec, ov, feed, v).Laddered?
    ensures Reference(v.bestBid, v.bestAsk, feed).0 > 0.0
  {
    hide Reference, SpotSizing, Targets;
  }

  lemma LeanGrows(cfg: SpotConfig, spec: LadderSpec, v: View, w: View, ref: real)
    requires cfg.skewBPS >= 0.0 && v.inventory <= w.inventory
    ensures Lean(cfg, spec, v, ref) <= Lean(cfg, spec, w, ref)
  {
    hide InventorySkew, LongLimit, ShortLimit, PerUnit;
    var long, short := LongLimit(cfg.limits, spec.baseSized, ref), ShortLimit(cfg.limits, spec.baseSized, ref);
    SkewGrows(v.inventory, w.inventory, if cfg.skewFullAt > 0.0 then PerUnit(spec, cfg.skewFullAt, ref) else Max(Abs(long), Abs(short)), cfg.skewBPS);
  }

  /** A best quote is as large as the order size for the cycle and what the side has capacity for allow, rounded down
      to a step. */
  lemma BestQuotesAreSizedFrom(cfg: SpotConfig, spec: LadderSpec, ov: Overrides, feed: Feed, v: View) returns (bidPrice: real, askPrice: real)
    requires BuildSpotQuotes(cfg, spec, ov, feed, v).Laddered?
    ensures var (ref, source) := Reference(v.bestBid, v.bestAsk, feed);
            var q := BuildSpotQuotes(cfg, spec, ov, feed, v);
            && ref > 0.0 && 0.0 < bidPrice < askPrice
            && var wanted := InBase(OrderSize(cfg, ov, source), spec.baseSized, ref);
            && (q.bids != [] ==> q.bids[0].size == RoundDown(Min(wanted, Capped(spec, cfg, v.quoteBudget / bidPrice, bidPrice)), spec.sizeStep))
            && (q.asks != [] ==> q.asks[0].size == RoundDown(Min(wanted, Capped(spec, cfg, v.baseBudget, askPrice)), spec.sizeStep))
            && (q.bids != [] ==> q.bids[0].price == bidPrice) && (q.asks != [] ==> q.asks[0].price == askPrice)
  {
    hide RoundDown, RawPrice, Targets, Lean, HalfSpread, OrderSize, Middle, InBase, Capped, PriceOf, SpotSizing, Reference, LongLimit, ShortLimit;
    var z := SpotSides(cfg, spec, ov, feed, v);
    bidPrice, askPrice := z.ask.pricing.opposite, z.bid.pricing.opposite;
    var (ref, source) := Reference(v.bestBid, v.bestAsk, feed);
    var bid, ask := PricingOf(cfg, spec, ov, v, ref, source);
    SizedAtBest(cfg.ladder, spec, z.bid, z.orderSize, v.inventory);
    SizedAtBest(cfg.ladder, spec, z.ask, z.orderSize, v.inventory);
  }

  lemma SizedAtBest(cfg: LadderConfig, spec: LadderSpec, x: SideInput, orderSize: real, inventory: real)
    ensures var targets := Targets(cfg, spec, x, orderSize, inventory);
            targets != [] ==> targets[0].size == RoundDown(Min(orderSize, x.capacity), spec.sizeStep) && targets[0].price == PriceOf(cfg, spec, x.pricing, 0)
  {
    hide RoundDown, PriceOf, PriceStands;
    FirstTargetIsBest(cfg, spec, x, orderSize, inventory);
    if SideQuotes(spec, x.pricing.side, orderSize, x.capacity, inventory, x.limit) && PriceStands(x.pricing, PriceOf(cfg, spec, x.pricing, 0)) {
      LevelZeroIsTheBestQuote(cfg, spec, x.pricing, orderSize, x.capacity, inventory, x.limit);
    }
  }
}
