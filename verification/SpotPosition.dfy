/** What a spot cycle's quotes can do to the account, in the operator's own settings: the position stays within
    the configured net, long and short limits, and a side within the configured notional. */
module SpotPosition {
  import opened Market
  import opened Ladder
  import opened Rounding
  import opened Exposure
  import opened SelfFeedback

  /** How a laddered result's sides were priced and sized. */
  lemma SpotSides(cfg: SpotConfig, spec: LadderSpec, ov: Overrides, feed: Feed, v: View) returns (z: Sizing)
    requires BuildSpotQuotes(cfg, spec, ov, feed, v).Laddered?
    ensures var q := BuildSpotQuotes(cfg, spec, ov, feed, v);
            && q.bids == (if ov.bidOff then [] else Targets(cfg.ladder, spec, z.bid, z.orderSize, v.inventory))
            && q.asks == (if ov.askOff then [] else Targets(cfg.ladder, spec, z.ask, z.orderSize, v.inventory))
    ensures var ref := Reference(v.bestBid, v.bestAsk, feed).0;
            && ref > 0.0 && z.bid.limit == LongLimit(cfg.limits, spec.baseSized, ref) && z.ask.limit == ShortLimit(cfg.limits, spec.baseSized, ref)
    ensures var (ref, source) := Reference(v.bestBid, v.bestAsk, feed); SpotSizing(cfg, spec, ov, v, ref, source == FromExternal) == Some(z)
    ensures z.bid.pricing.side == Buy && z.ask.pricing.side == Sell && z.bid.pricing.opposite > z.ask.pricing.opposite > 0.0
    ensures var bidPrice, askPrice := z.ask.pricing.opposite, z.bid.pricing.opposite;
            && bidPrice == PriceOf(cfg.ladder, spec, z.bid.pricing, 0) && askPrice == PriceOf(cfg.ladder, spec, z.ask.pricing, 0)
            && z.bid.capacity == Capped(spec, cfg, v.quoteBudget / bidPrice, bidPrice) && z.ask.capacity == Capped(spec, cfg, v.baseBudget, askPrice)
  {
    hide PriceOf, Targets, Capped, Shifted, LongLimit, ShortLimit, SpotSkew, PerUnit;
    var (ref, source) := Reference(v.bestBid, v.bestAsk, feed);
    z := SpotSizing(cfg, spec, ov, v, ref, source == FromExternal).value;
    OppositeDoesNotPrice(cfg.ladder, spec, z.bid.pricing, 0);
    OppositeDoesNotPrice(cfg.ladder, spec, z.ask.pricing, 0);
  }

  function Quoting(v: View, q: SpotQuotes): Standing
    requires q.Laddered?
  {
    Standing(v.inventory, SizesOf(q.bids), SizesOf(q.asks))
  }

  lemma NothingQuoted()
    ensures SizesOf([]) == [] && Sum([]) == 0.0 && NotNegative([]) && TotalSize([]) == 0.0
  {
  }

  /** Whatever parts of a cycle's quotes fill, in whatever order: unless it already was beyond a limit, the position
      passes neither the net nor the long limit upwards, neither the net nor the short limit downwards -- each in
      base units at the reference, give or take the rounding tolerance -- and moves nowhere where no limit is set. */
  lemma SpotPositionStaysWithinLimits(cfg: SpotConfig, spec: LadderSpec, ov: Overrides, feed: Feed, v: View, fills: seq<Fill>)
    requires spec.minSize >= 0.0 && BuildSpotQuotes(cfg, spec, ov, feed, v).Laddered?
    requires CanRun(Quoting(v, BuildSpotQuotes(cfg, spec, ov, feed, v)), fills)
    ensures var end := Run(Quoting(v, BuildSpotQuotes(cfg, spec, ov, feed, v)), fills).position;
            var ref, slack, l := Reference(v.bestBid, v.bestAsk, feed).0, Slack(spec.sizeStep), cfg.limits;
            && ref > 0.0
            && (l.net > 0.0 ==> end <= Max(v.inventory, InBase(l.net, spec.baseSized, ref) + slack))
            && (l.long != 0.0 ==> end <= Max(v.inventory, InBase(l.long, spec.baseSized, ref) + slack))
            && (l.net <= 0.0 && l.long == 0.0 ==> end <= Max(v.inventory, slack))
            && (l.net > 0.0 ==> end >= Min(v.inventory, InBase(-l.net, spec.baseSized, ref) - slack))
            && (l.short != 0.0 ==> end >= Min(v.inventory, InBase(l.short, spec.baseSized, ref) - slack))
            && (l.net <= 0.0 && l.short == 0.0 ==> end >= Min(v.inventory, -slack))
  {
    hide BuildSpotQuotes, Targets, Slack, LongLimit, ShortLimit, InBase, Reference, Sum, SizesOf, Capped, PriceOf, CanRun, Run;
    var z := SpotSides(cfg, spec, ov, feed, v);
    var ref := Reference(v.bestBid, v.bestAsk, feed).0;
    LongLimitIsTightest(cfg.limits, spec.baseSized, ref);
    ShortLimitIsTightest(cfg.limits, spec.baseSized, ref);
    TargetsAreCommitted(cfg.ladder, spec, z.bid, z.orderSize, v.inventory);
    TargetsAreCommitted(cfg.ladder, spec, z.ask, z.orderSize, v.inventory);
    NothingQuoted();
    SlackIsNotNegative(spec.sizeStep);
    FillsStayBetween(Quoting(v, BuildSpotQuotes(cfg, spec, ov, feed, v)), fills);
  }

  lemma CapIsTheLower(spec: LadderSpec, cfg: SpotConfig, capacity: real, price: real)
    requires price > 0.0
    ensures var cap := Capped(spec, cfg, capacity, price);
            && cap <= capacity && (cfg.maxNotional <= 0.0 ==> cap == capacity)
            && (cfg.maxNotional > 0.0 ==> (if spec.baseSized then cap <= cfg.maxNotional else cap * price <= cfg.maxNotional))
            && (cap == capacity || (cfg.maxNotional > 0.0 && if spec.baseSized then cap == cfg.maxNotional else cap * price == cfg.maxNotional))
  {
    if cfg.maxNotional > 0.0 && !spec.baseSized {
      var q := cfg.maxNotional / price;
      assert q * price == cfg.maxNotional;
      ScaleWeakly(Min(capacity, q), q, price);
    }
  }

  lemma TotalTimesPrice(total: real, cap: real, slack: real, price: real, most: real)
    requires price > 0.0 && cap * price <= most && total <= Max(0.0, cap + slack)
    ensures total * price <= Max(0.0, most + slack * price)
  {
    ScaleWeakly(total, Max(0.0, cap + slack), price);
    Distribute(cap, slack, price);
    assert 0.0 * price == 0.0;
  }

  /** A side's whole ladder keeps to the configured notional: in base units where sizes are, else at the side's best
      price -- up to the rounding tolerance, and only where one is configured. */
  lemma SpotNotionalIsCapped(cfg: SpotConfig, spec: LadderSpec, ov: Overrides, feed: Feed, v: View) returns (bidPrice: real, askPrice: real)
    requires spec.minSize >= 0.0 && cfg.maxNotional > 0.0 && BuildSpotQuotes(cfg, spec, ov, feed, v).Laddered?
    ensures var q := BuildSpotQuotes(cfg, spec, ov, feed, v);
            && 0.0 < bidPrice < askPrice
            && (q.bids != [] ==> q.bids[0].price == bidPrice) && (q.asks != [] ==> q.asks[0].price == askPrice)
            && (if spec.baseSized
                then TotalSize(q.bids) <= cfg.maxNotional + Slack(spec.sizeStep) && TotalSize(q.asks) <= cfg.maxNotional + Slack(spec.sizeStep)
                else TotalSize(q.bids) * bidPrice <= cfg.maxNotional + Slack(spec.sizeStep) * bidPrice
                     && TotalSize(q.asks) * askPrice <= cfg.maxNotional + Slack(spec.sizeStep) * askPrice)
  {
    hide BuildSpotQuotes, Targets, Slack, LongLimit, ShortLimit, Reference, Sum, SizesOf, Capped, PriceOf, TotalSize;
    var z := SpotSides(cfg, spec, ov, feed, v);
    bidPrice, askPrice := z.ask.pricing.opposite, z.bid.pricing.opposite;
    SideIsCapped(cfg, spec, z.bid, z.orderSize, v.quoteBudget / bidPrice, bidPrice, v.inventory);
    SideIsCapped(cfg, spec, z.ask, z.orderSize, v.baseBudget, askPrice, v.inventory);
    NothingQuoted();
    SlackIsNotNegative(spec.sizeStep);
    SlackAtPrice(spec.sizeStep, bidPrice);
    SlackAtPrice(spec.sizeStep, askPrice);
  }

  lemma SlackAtPrice(step: real, price: real)
    requires price > 0.0
    ensures Slack(step) * price >= 0.0 && 0.0 * price == 0.0
  {
    SlackIsNotNegative(step);
    ScaleWeakly(0.0, Slack(step), price);
  }

  lemma SideIsCapped(cfg: SpotConfig, spec: LadderSpec, x: SideInput, orderSize: real, capacity: real, price: real, inventory: real)
    requires spec.minSize >= 0.0 && cfg.maxNotional > 0.0 && price > 0.0 && x.capacity == Capped(spec, cfg, capacity, price)
    requires price == PriceOf(cfg.ladder, spec, x.pricing, 0)
    ensures var targets := Targets(cfg.ladder, spec, x, orderSize, inventory);
            && (targets != [] ==> targets[0].price == price)
            && (if spec.baseSized then TotalSize(targets) <= cfg.maxNotional + Slack(spec.sizeStep)
                else TotalSize(targets) * price <= cfg.maxNotional + Slack(spec.sizeStep) * price)
  {
    hide Targets, Slack, Capped, PriceOf, Sum, SizesOf, TotalSize;
    var targets := Targets(cfg.ladder, spec, x, orderSize, inventory);
    TargetsAreCommitted(cfg.ladder, spec, x, orderSize, inventory);
    SumOfSizes(targets);
    FirstTargetIsBest(cfg.ladder, spec, x, orderSize, inventory);
    CapIsTheLower(spec, cfg, capacity, price);
    SlackAtPrice(spec.sizeStep, price);
    SlackIsNotNegative(spec.sizeStep);
    if !spec.baseSized {
      TotalTimesPrice(TotalSize(targets), x.capacity, Slack(spec.sizeStep), price, cfg.maxNotional);
    }
  }
}
