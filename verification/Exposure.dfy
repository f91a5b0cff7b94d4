/** What a quoted ladder can do to the position: limits and capacities (inventoryLimits, perpCapacity in
    strategy.go, marginEngineFutureCapacity in future.go) against every sequence of partial fills. */
module Exposure {
  import opened Market
  import opened Ladder
  import opened Rounding

  // ----- limits -----

  /** Net, long and short inventory limits as configured; 0 is unset, short is not positive. */
  datatype Limits = Limits(net: real, long: real, short: real)

  function EffectiveLong(l: Limits): real {
    if l.net > 0.0 && (l.long == 0.0 || l.net < l.long) then l.net else l.long
  }

  function EffectiveShort(l: Limits): real {
    if l.net > 0.0 && (l.short == 0.0 || -l.net > l.short) then -l.net else l.short
  }

  /** In base units: the cNGN markets configure USDC. */
  function LongLimit(l: Limits, baseSized: bool, price: real): real {
    if !baseSized then EffectiveLong(l) else if price > 0.0 then EffectiveLong(l) / price else 0.0
  }

  function ShortLimit(l: Limits, baseSized: bool, price: real): real {
    if !baseSized then EffectiveShort(l) else if price > 0.0 then EffectiveShort(l) / price else 0.0
  }

  lemma DivideOrder(a: real, b: real, price: real)
    requires a <= b && price > 0.0
    ensures a / price <= b / price
  {
    QuotientMonotone(a, b, price);
  }

  /** A net limit bounds both sides, whatever the long and short limits say; an unset or looser side
      limit is replaced by it. */
  lemma NetLimitBinds(l: Limits, baseSized: bool, price: real)
    requires l.net > 0.0 && price > 0.0
    ensures var net := if baseSized then l.net / price else l.net;
            -net <= ShortLimit(l, baseSized, price) && LongLimit(l, baseSized, price) <= net
  {
    DivideOrder(EffectiveLong(l), l.net, price);
    DivideOrder(-l.net, EffectiveShort(l), price);
    assert (-l.net) / price == -(l.net / price);
  }

  /** An operator's amount in base units. */
  function InBase(amount: real, baseSized: bool, price: real): real
    requires price > 0.0
  {
    if baseSized then amount / price else amount
  }

  /** The long limit is the tightest of those that are set: it exceeds neither the net nor the long one, is one of
      them, and is nothing at all when neither is set. */
  lemma LongLimitIsTightest(l: Limits, baseSized: bool, price: real)
    requires price > 0.0
    ensures var limit := LongLimit(l, baseSized, price);
            && (l.net > 0.0 ==> limit <= InBase(l.net, baseSized, price))
            && (l.long != 0.0 ==> limit <= InBase(l.long, baseSized, price))
            && ((l.net > 0.0 && limit == InBase(l.net, baseSized, price)) || (l.long != 0.0 && limit == InBase(l.long, baseSized, price))
                || (l.net <= 0.0 && l.long == 0.0 && limit == 0.0))
  {
    DivideOrder(EffectiveLong(l), if l.net > 0.0 then l.net else EffectiveLong(l), price);
    DivideOrder(EffectiveLong(l), if l.long != 0.0 then l.long else EffectiveLong(l), price);
    assert 0.0 / price == 0.0;
  }

  /** So is the short limit, which is not positive: it allows no deeper a short than either. */
  lemma ShortLimitIsTightest(l: Limits, baseSized: bool, price: real)
    requires price > 0.0
    ensures var limit := ShortLimit(l, baseSized, price);
            && (l.net > 0.0 ==> limit >= InBase(-l.net, baseSized, price))
            && (l.short != 0.0 ==> limit >= InBase(l.short, baseSized, price))
            && ((l.net > 0.0 && limit == InBase(-l.net, baseSized, price)) || (l.short != 0.0 && limit == InBase(l.short, baseSized, price))
                || (l.net <= 0.0 && l.short == 0.0 && limit == 0.0))
  {
    DivideOrder(if l.net > 0.0 then -l.net else EffectiveShort(l), EffectiveShort(l), price);
    DivideOrder(if l.short != 0.0 then l.short else EffectiveShort(l), EffectiveShort(l), price);
    assert 0.0 / price == 0.0;
  }

  // ----- capacities -----

  datatype Perp = Perp(tradingEnabled: bool, sideRoom: real, maxLeverage: real)

  function Leverage(configured: real, perp: Perp): real {
    if perp.maxLeverage > 0.0 && perp.maxLeverage < configured then perp.maxLeverage else configured
  }

  /** The gross position the cash carries. */
  function LeverageBound(configured: real, perp: Perp, cash: real, price: real): real
    requires price > 0.0
  {
    Max(0.0, cash) * Leverage(configured, perp) / price
  }

  predicate RoomApplies(perp: Perp, quoteWhileClosed: bool) {
    perp.tradingEnabled || !quoteWhileClosed
  }

  /** How much each side may quote: (bid, ask). */
  function PerpCapacity(configured: real, quoteWhileClosed: bool, perp: Perp, cash: real, inventory: real, price: real): (real, real) {
    if price <= 0.0 then (0.0, 0.0)
    else
      var bound := LeverageBound(configured, perp, cash, price);
      var maxBid, maxAsk := Max(0.0, bound - inventory), Max(0.0, bound + inventory);
      if !RoomApplies(perp, quoteWhileClosed) then (maxBid, maxAsk)
      else
        var room := Max(0.0, perp.sideRoom);
        (Min(maxBid, Max(0.0, -inventory) + room), Min(maxAsk, Max(0.0, inventory) + room))
  }

  /** Contracts each side may quote on the engine future; None when the margin is unreadable. */
  function FutureOpening(imSurplus: real, imUsage: real, perContractIM: real): real {
    if perContractIM <= 0.0 then 0.0 else Max(0.0, imSurplus) * imUsage / perContractIM
  }

  function FutureCapacity(imSurplus: real, imUsage: real, perContractIM: real, inventory: real): (real, real) {
    if perContractIM <= 0.0 then (0.0, 0.0)
    else
      var opening := FutureOpening(imSurplus, imUsage, perContractIM);
      (opening + Max(0.0, -inventory), opening + Max(0.0, inventory))
  }

  /** The leverage is the lower of the bot's own and, where it has one, the market's. */
  lemma LeverageIsTheLower(configured: real, perp: Perp)
    ensures var leverage := Leverage(configured, perp);
            && leverage <= configured && (perp.maxLeverage > 0.0 ==> leverage <= perp.maxLeverage)
            && (leverage == configured || (perp.maxLeverage > 0.0 && leverage == perp.maxLeverage))
  {
  }

  /** The bound is worth what the cash carries at that leverage. */
  lemma BoundIsCarried(configured: real, perp: Perp, cash: real, price: real)
    requires price > 0.0
    ensures LeverageBound(configured, perp, cash, price) * price == (if cash > 0.0 then cash else 0.0) * Leverage(configured, perp)
  {
    hide Leverage;
    var held := (if cash > 0.0 then cash else 0.0) * Leverage(configured, perp);
    assert LeverageBound(configured, perp, cash, price) == held / price;
    assert held / price * price == held;
  }

  /** A perp side may quote a size exactly when filling it keeps the position within what the cash carries, and
      -- unless quotes only rest on a closed market -- opens no more than the room left under the open-interest
      cap. */
  lemma PerpCapacityIsExact(configured: real, quoteWhileClosed: bool, perp: Perp, cash: real, inventory: real, price: real, size: real)
    requires price > 0.0 && size > 0.0
    ensures var carried := LeverageBound(configured, perp, cash, price);
            var (bid, ask) := PerpCapacity(configured, quoteWhileClosed, perp, cash, inventory, price);
            var room := if perp.sideRoom > 0.0 then perp.sideRoom else 0.0;
            var resting := !perp.tradingEnabled && quoteWhileClosed;
            && (size <= bid <==> inventory + size <= carried && (resting || size - (if inventory < 0.0 then -inventory else 0.0) <= room))
            && (size <= ask <==> inventory - size >= -carried && (resting || size - (if inventory > 0.0 then inventory else 0.0) <= room))
  {
    hide LeverageBound;
  }

  /** What the margin headroom opens, at the initial margin of one contract; nothing when that is unreadable. */
  lemma OpeningIsWhatTheMarginCarries(imSurplus: real, imUsage: real, perContractIM: real)
    ensures perContractIM > 0.0 ==> FutureOpening(imSurplus, imUsage, perContractIM) * perContractIM == (if imSurplus > 0.0 then imSurplus else 0.0) * imUsage
    ensures perContractIM <= 0.0 ==> FutureOpening(imSurplus, imUsage, perContractIM) == 0.0
  {
    if perContractIM > 0.0 {
      var usable := (if imSurplus > 0.0 then imSurplus else 0.0) * imUsage;
      assert FutureOpening(imSurplus, imUsage, perContractIM) == usable / perContractIM;
      assert usable / perContractIM * perContractIM == usable;
    }
  }

  /** A future's side may quote a size exactly when what it opens beyond closing fits that. */
  lemma FutureCapacityIsExact(imSurplus: real, imUsage: real, perContractIM: real, inventory: real, size: real)
    requires size > 0.0
    ensures var (bid, ask) := FutureCapacity(imSurplus, imUsage, perContractIM, inventory);
            var opening := FutureOpening(imSurplus, imUsage, perContractIM);
            && (size <= bid <==> perContractIM > 0.0 && size - (if inventory < 0.0 then -inventory else 0.0) <= opening)
            && (size <= ask <==> perContractIM > 0.0 && size - (if inventory > 0.0 then inventory else 0.0) <= opening)
  {
    hide FutureOpening;
  }

  // ----- fills -----

  /** Part of one level of one side. */
  datatype Fill = Fill(side: Side, level: nat, amount: real)

  /** A position and what is left of each level quoted around it. */
  datatype Standing = Standing(position: real, bids: seq<real>, asks: seq<real>)

  function Left(s: Standing, side: Side): seq<real> {
    match side
    case Buy => s.bids
    case Sell => s.asks
  }

  predicate CanFill(s: Standing, f: Fill) {
    f.level < |Left(s, f.side)| && 0.0 <= f.amount <= Left(s, f.side)[f.level]
  }

  function Filled(s: Standing, f: Fill): Standing
    requires CanFill(s, f)
  {
    match f.side
    case Buy => Standing(s.position + f.amount, s.bids[f.level := s.bids[f.level] - f.amount], s.asks)
    case Sell => Standing(s.position - f.amount, s.bids, s.asks[f.level := s.asks[f.level] - f.amount])
  }

  ghost predicate CanRun(s: Standing, fills: seq<Fill>)
    decreases |fills|, 0
  {
    fills == [] || (CanRun(s, fills[..|fills| - 1]) && CanFill(Run(s, fills[..|fills| - 1]), fills[|fills| - 1]))
  }

  ghost function Run(s: Standing, fills: seq<Fill>): Standing
    requires CanRun(s, fills)
    decreases |fills|, 1
  {
    if fills == [] then s else Filled(Run(s, fills[..|fills| - 1]), fills[|fills| - 1])
  }

  function Sum(sizes: seq<real>): real {
    if sizes == [] then 0.0 else sizes[0] + Sum(sizes[1..])
  }

  lemma {:induction false} SumUpdate(sizes: seq<real>, i: nat, x: real)
    requires i < |sizes|
    ensures Sum(sizes[i := x]) == Sum(sizes) - sizes[i] + x
  {
    if i == 0 {
      assert sizes[i := x][1..] == sizes[1..];
    } else {
      assert sizes[i := x][1..] == sizes[1..][i - 1 := x];
      SumUpdate(sizes[1..], i - 1, x);
    }
  }

  lemma {:induction false} SumNotNegative(sizes: seq<real>)
    requires forall i :: 0 <= i < |sizes| ==> sizes[i] >= 0.0
    ensures Sum(sizes) >= 0.0
  {
    if sizes != [] {
      SumNotNegative(sizes[1..]);
    }
  }

  ghost predicate NotNegative(sizes: seq<real>) {
    forall i :: 0 <= i < |sizes| ==> sizes[i] >= 0.0
  }

  lemma FillMoves(s: Standing, f: Fill)
    requires CanFill(s, f) && NotNegative(s.bids) && NotNegative(s.asks)
    ensures var t := Filled(s, f);
            && NotNegative(t.bids) && NotNegative(t.asks)
            && t.position + Sum(t.bids) <= s.position + Sum(s.bids)
            && t.position - Sum(t.asks) >= s.position - Sum(s.asks)
  {
    if f.side == Buy {
      SumUpdate(s.bids, f.level, s.bids[f.level] - f.amount);
    } else {
      SumUpdate(s.asks, f.level, s.asks[f.level] - f.amount);
    }
  }

  /** However any parts of both ladders fill, in any order, the position stays between selling all the
      asks and buying all the bids. */
  lemma {:induction false} FillsStayBetween(s: Standing, fills: seq<Fill>)
    requires CanRun(s, fills) && NotNegative(s.bids) && NotNegative(s.asks)
    ensures var t := Run(s, fills);
            && NotNegative(t.bids) && NotNegative(t.asks)
            && t.position + Sum(t.bids) <= s.position + Sum(s.bids)
            && t.position - Sum(t.asks) >= s.position - Sum(s.asks)
            && s.position - Sum(s.asks) <= t.position <= s.position + Sum(s.bids)
  {
    if fills != [] {
      FillsStayBetween(s, fills[..|fills| - 1]);
      FillMoves(Run(s, fills[..|fills| - 1]), fills[|fills| - 1]);
    }
    SumNotNegative(Run(s, fills).bids);
    SumNotNegative(Run(s, fills).asks);
  }

  // ----- a cycle's quotes -----

  function SizesOf(quotes: seq<Quote>): (sizes: seq<real>)
    ensures |sizes| == |quotes| && forall i :: 0 <= i < |quotes| ==> sizes[i] == quotes[i].size
  {
    if quotes == [] then [] else [quotes[0].size] + SizesOf(quotes[1..])
  }

  lemma {:induction false} SumOfSizes(quotes: seq<Quote>)
    ensures Sum(SizesOf(quotes)) == TotalSize(quotes)
  {
    if quotes != [] {
      SumOfSizes(quotes[1..]);
      assert SizesOf(quotes)[1..] == SizesOf(quotes[1..]);
    }
  }

  /** Everything a side is sized from. */
  datatype SideInput = SideInput(pricing: Pricing, capacity: real, limit: real)

  /** The quotes the syncer is given for a side: its ladder, or the best quote alone. */
  function Targets(cfg: LadderConfig, spec: LadderSpec, x: SideInput, orderSize: real, inventory: real): seq<Quote> {
    TargetsOf(SideLevels(cfg, spec, x.pricing, orderSize, x.capacity, inventory, x.limit),
              BestQuote(cfg, spec, x.pricing, orderSize, x.capacity, inventory, x.limit))
  }

  lemma TargetsAreCommitted(cfg: LadderConfig, spec: LadderSpec, x: SideInput, orderSize: real, inventory: real)
    requires spec.minSize >= 0.0
    ensures var sizes := SizesOf(Targets(cfg, spec, x, orderSize, inventory));
            && NotNegative(sizes)
            && Sum(sizes) <= Max(0.0, x.capacity + Slack(spec.sizeStep))
            && Sum(sizes) <= Max(0.0, Headroom(x.pricing.side, inventory, x.limit) + Slack(spec.sizeStep))
  {
    hide PriceOf, PriceStands, LevelsFrom, Slack, BestSize;
    var targets := Targets(cfg, spec, x, orderSize, inventory);
    SideWithinLimits(cfg, spec, x.pricing, orderSize, x.capacity, inventory, x.limit);
    LadderIsWellFormed(cfg, spec, x.pricing, 0, orderSize, x.capacity, Headroom(x.pricing.side, inventory, x.limit));
    SumOfSizes(targets);
    assert targets == [] || |targets| == 1 || targets == SideLevels(cfg, spec, x.pricing, orderSize, x.capacity, inventory, x.limit);
    forall i | 0 <= i < |targets| ensures targets[i].size >= 0.0 {
    }
  }

  /** Both sides of one cycle. */
  predicate OneCycle(bid: SideInput, ask: SideInput) {
    bid.pricing.side == Buy && ask.pricing.side == Sell
  }

  function Quoted(cfg: LadderConfig, spec: LadderSpec, bid: SideInput, ask: SideInput, orderSize: real, inventory: real): Standing {
    Standing(inventory, SizesOf(Targets(cfg, spec, bid, orderSize, inventory)), SizesOf(Targets(cfg, spec, ask, orderSize, inventory)))
  }

  /** Whatever fills, in whatever order, the position stays in the hull of where it started and the long
      and short limits, give or take the rounding tolerance. */
  lemma PositionStaysWithinLimits(
    cfg: LadderConfig, spec: LadderSpec, bid: SideInput, ask: SideInput, orderSize: real, inventory: real, fills: seq<Fill>)
    requires OneCycle(bid, ask) && spec.minSize >= 0.0
    requires CanRun(Quoted(cfg, spec, bid, ask, orderSize, inventory), fills)
    ensures var end := Run(Quoted(cfg, spec, bid, ask, orderSize, inventory), fills).position;
            Min(inventory, ask.limit - Slack(spec.sizeStep)) <= end <= Max(inventory, bid.limit + Slack(spec.sizeStep))
  {
    hide Targets, Slack;
    TargetsAreCommitted(cfg, spec, bid, orderSize, inventory);
    TargetsAreCommitted(cfg, spec, ask, orderSize, inventory);
    FillsStayBetween(Quoted(cfg, spec, bid, ask, orderSize, inventory), fills);
  }

  lemma PositionWithinCapacity(
    cfg: LadderConfig, spec: LadderSpec, bid: SideInput, ask: SideInput, orderSize: real, inventory: real, fills: seq<Fill>)
    requires OneCycle(bid, ask) && spec.minSize >= 0.0
    requires CanRun(Quoted(cfg, spec, bid, ask, orderSize, inventory), fills)
    ensures var end := Run(Quoted(cfg, spec, bid, ask, orderSize, inventory), fills).position;
            && end <= inventory + Max(0.0, bid.capacity + Slack(spec.sizeStep))
            && end >= inventory - Max(0.0, ask.capacity + Slack(spec.sizeStep))
  {
    hide Targets, Slack;
    TargetsAreCommitted(cfg, spec, bid, orderSize, inventory);
    TargetsAreCommitted(cfg, spec, ask, orderSize, inventory);
    FillsStayBetween(Quoted(cfg, spec, bid, ask, orderSize, inventory), fills);
  }

  lemma SlackIsNotNegative(step: real)
    ensures Slack(step) >= 0.0
  {
  }

  /** On the perp the position also stays within the larger of the leverage bound and where it started,
      and what is newly opened within the room under the open-interest cap while that cap applies. */
  lemma PerpPositionStaysWithinLeverage(
    cfg: LadderConfig, spec: LadderSpec, bid: SideInput, ask: SideInput, orderSize: real, inventory: real, fills: seq<Fill>,
    configured: real, quoteWhileClosed: bool, perp: Perp, cash: real, price: real)
    requires OneCycle(bid, ask) && spec.minSize >= 0.0 && price > 0.0 && configured >= 0.0
    requires bid.capacity <= PerpCapacity(configured, quoteWhileClosed, perp, cash, inventory, price).0
    requires ask.capacity <= PerpCapacity(configured, quoteWhileClosed, perp, cash, inventory, price).1
    requires CanRun(Quoted(cfg, spec, bid, ask, orderSize, inventory), fills)
    ensures var end := Run(Quoted(cfg, spec, bid, ask, orderSize, inventory), fills).position;
            var room := Max(0.0, perp.sideRoom);
            && Abs(end) <= Max(LeverageBound(configured, perp, cash, price), Abs(inventory)) + Slack(spec.sizeStep)
            && (RoomApplies(perp, quoteWhileClosed) ==>
                Min(inventory, 0.0) - room - Slack(spec.sizeStep) <= end <= Max(inventory, 0.0) + room + Slack(spec.sizeStep))
  {
    hide Quoted, Slack, LeverageBound;
    SlackIsNotNegative(spec.sizeStep);
    BoundIsNotNegative(configured, perp, cash, price);
    PositionWithinCapacity(cfg, spec, bid, ask, orderSize, inventory, fills);
  }

  lemma BoundIsNotNegative(configured: real, perp: Perp, cash: real, price: real)
    requires price > 0.0 && configured >= 0.0
    ensures LeverageBound(configured, perp, cash, price) >= 0.0
  {
    var c, l := Max(0.0, cash), Leverage(configured, perp);
    assert c * l >= 0.0;
    DivideOrder(0.0, c * l, price);
  }

  /** On the engine future a side opens at most what the margin headroom carries; closing needs none. */
  lemma FuturePositionStaysWithinMargin(
    cfg: LadderConfig, spec: LadderSpec, bid: SideInput, ask: SideInput, orderSize: real, inventory: real, fills: seq<Fill>,
    imSurplus: real, imUsage: real, perContractIM: real)
    requires OneCycle(bid, ask) && spec.minSize >= 0.0 && imUsage >= 0.0
    requires bid.capacity <= FutureCapacity(imSurplus, imUsage, perContractIM, inventory).0
    requires ask.capacity <= FutureCapacity(imSurplus, imUsage, perContractIM, inventory).1
    requires CanRun(Quoted(cfg, spec, bid, ask, orderSize, inventory), fills)
    ensures var end := Run(Quoted(cfg, spec, bid, ask, orderSize, inventory), fills).position;
            var opening := FutureOpening(imSurplus, imUsage, perContractIM);
            Min(inventory, 0.0) - opening - Slack(spec.sizeStep) <= end <= Max(inventory, 0.0) + opening + Slack(spec.sizeStep)
  {
    hide Quoted, Slack, FutureOpening;
    SlackIsNotNegative(spec.sizeStep);
    OpeningIsNotNegative(imSurplus, imUsage, perContractIM);
    PositionWithinCapacity(cfg, spec, bid, ask, orderSize, inventory, fills);
  }

  lemma OpeningIsNotNegative(imSurplus: real, imUsage: real, perContractIM: real)
    requires imUsage >= 0.0
    ensures FutureOpening(imSurplus, imUsage, perContractIM) >= 0.0
    ensures perContractIM <= 0.0 ==> FutureOpening(imSurplus, imUsage, perContractIM) == 0.0
  {
    if perContractIM > 0.0 {
      var s := Max(0.0, imSurplus);
      assert s * imUsage >= 0.0;
      DivideOrder(0.0, s * imUsage, perContractIM);
    }
  }

  // ----- what a spot ladder reserves -----

  function Notional(quotes: seq<Quote>): real {
    if quotes == [] then 0.0 else quotes[0].size * quotes[0].price + Notional(quotes[1..])
  }

  lemma {:induction false} NotionalBelowBest(quotes: seq<Quote>, best: real)
    requires forall i :: 0 <= i < |quotes| ==> quotes[i].size >= 0.0 && quotes[i].price <= best
    ensures Notional(quotes) <= TotalSize(quotes) * best
  {
    if quotes != [] {
      NotionalBelowBest(quotes[1..], best);
      Product(quotes[0].size, quotes[0].price, best);
      Distribute(quotes[0].size, TotalSize(quotes[1..]), best);
    }
  }

  /** A spot bid ladder sized from its cash never reserves more than that cash, up to the rounding
      tolerance at its best price. */
  lemma BidLadderIsFunded(cfg: LadderConfig, spec: LadderSpec, x: SideInput, orderSize: real, cash: real, inventory: real)
    requires x.pricing.side == Buy && x.pricing.ref >= 0.0 && cfg.levelSpreadStepBPS >= 0.0 && spec.minSize >= 0.0
    requires PriceOf(cfg, spec, x.pricing, 0) > 0.0 && x.capacity <= cash / PriceOf(cfg, spec, x.pricing, 0)
    ensures var best := PriceOf(cfg, spec, x.pricing, 0);
            Notional(Targets(cfg, spec, x, orderSize, inventory)) <= Max(0.0, cash + Slack(spec.sizeStep) * best)
  {
    hide PriceOf, PriceStands, LevelsFrom, Slack, BestSize, SideQuotes, Notional, TotalSize, Sum;
    var best := PriceOf(cfg, spec, x.pricing, 0);
    var targets := Targets(cfg, spec, x, orderSize, inventory);
    TargetsAreCommitted(cfg, spec, x, orderSize, inventory);
    SumOfSizes(targets);
    LadderIsWellFormed(cfg, spec, x.pricing, 0, orderSize, x.capacity, Headroom(x.pricing.side, inventory, x.limit));
    forall i | 0 <= i < |targets| ensures targets[i].size >= 0.0 && targets[i].price <= best {
      assert targets[i].size == SizesOf(targets)[i];
      PricesStepOut(cfg, spec, x.pricing, 0, i);
    }
    NotionalBelowBest(targets, best);
    Funded(TotalSize(targets), cash, Slack(spec.sizeStep), best);
  }

  lemma Funded(total: real, cash: real, slack: real, best: real)
    requires best > 0.0 && total <= Max(0.0, cash / best + slack)
    ensures total * best <= Max(0.0, cash + slack * best)
  {
    var q := cash / best;
    assert q * best == cash;
    Distribute(q, slack, best);
    ScaleWeakly(total, Max(0.0, q + slack), best);
    if q + slack < 0.0 {
      assert 0.0 * best == 0.0;
    }
  }
}
