/** What the bot's own resting orders do to the budget its next ladder is sized from. */
module NextBudget {
  import opened Market
  import opened Rounding
  import opened Ladder
  import opened Exposure
  import opened FixedLadder
  import opened SelfFeedback

  /** Available plus reusable is what others leave of the total, or what the bot itself holds where that is
      more: reservations beyond the total take nothing from what a ladder can free. */
  lemma BudgetIsTheLarger(listings: seq<Listing>, market: Listing, cfg: Config, rows: seq<Row>, key: Key, total: real)
    requires RowsPositive(rows)
    ensures Budget(BalanceOf(total, Reserved(listings, rows, key), Reusable(listings, market, cfg, rows, key)))
            == Max(total - ForeignReserved(listings, market, cfg, rows, key), Reusable(listings, market, cfg, rows, key))
  {
    ReservationsAddUp(listings, market, cfg, rows, key);
  }

  // ----- the account's rows and this market's open orders -----

  predicate IsOn(market: Listing, r: Row) {
    r.asset == market.asset && r.sub == market.sub
  }

  /** The rows of this market, or all the others. */
  function Those(market: Listing, rows: seq<Row>, here: bool): seq<Row> {
    if rows == [] then []
    else Those(market, rows[..|rows| - 1], here) + if IsOn(market, rows[|rows| - 1]) == here then [rows[|rows| - 1]] else []
  }

  function RowsOf(market: Listing, orders: seq<Order>): seq<Row> {
    if orders == [] then []
    else
      var o := orders[|orders| - 1];
      RowsOf(market, orders[..|orders| - 1]) + [Row(o.id, o.side, o.size, o.price, market.asset, market.sub)]
  }

  function AmountOf(side: Side, size: real, price: real): real {
    match side
    case Buy => size * price
    case Sell => size
  }

  /** What the protected, or the unprotected, orders of one side hold. */
  function HeldBy(cfg: Config, orders: seq<Order>, side: Side, shielded: bool): real {
    if orders == [] then 0.0
    else
      var o := orders[|orders| - 1];
      HeldBy(cfg, orders[..|orders| - 1], side, shielded)
      + if o.side == side && Protected(cfg, o.id) == shielded then AmountOf(side, o.size, o.price) else 0.0
  }

  /** A bid holds the quote asset, an ask the base asset. */
  function KeyOf(market: Listing, side: Side): Key {
    match side
    case Buy => Key(market.quote, "0")
    case Sell => Key(market.asset, market.sub)
  }

  predicate WellListed(listings: seq<Listing>, market: Listing) {
    ListingOf(listings, market.asset, market.sub) == Some(market) && KeyOf(market, Buy) != KeyOf(market, Sell)
  }

  lemma {:induction false} OwnRows(listings: seq<Listing>, market: Listing, cfg: Config, orders: seq<Order>, side: Side)
    requires WellListed(listings, market)
    ensures Reusable(listings, market, cfg, RowsOf(market, orders), KeyOf(market, side)) == HeldBy(cfg, orders, side, false)
    ensures ForeignReserved(listings, market, cfg, RowsOf(market, orders), KeyOf(market, side)) == HeldBy(cfg, orders, side, true)
  {
    hide Protected, ListingOf;
    if orders != [] {
      var init, o := orders[..|orders| - 1], orders[|orders| - 1];
      OwnRows(listings, market, cfg, init, side);
      var rows := RowsOf(market, orders);
      assert rows[..|rows| - 1] == RowsOf(market, init);
    }
  }

  lemma ReplaceableIsHere(market: Listing, cfg: Config, r: Row)
    ensures Replaceable(market, cfg, r) ==> IsOn(market, r)
  {
    hide Protected;
  }

  lemma {:induction false} RowsSplit(listings: seq<Listing>, market: Listing, cfg: Config, rows: seq<Row>, key: Key)
    ensures Reusable(listings, market, cfg, rows, key) == Reusable(listings, market, cfg, Those(market, rows, true), key)
    ensures ForeignReserved(listings, market, cfg, rows, key)
            == ForeignReserved(listings, market, cfg, Those(market, rows, true), key) + ForeignReserved(listings, market, cfg, Those(market, rows, false), key)
  {
    hide Held, Replaceable, IsOn;
    if rows != [] {
      var init, last := rows[..|rows| - 1], rows[|rows| - 1];
      RowsSplit(listings, market, cfg, init, key);
      ReplaceableIsHere(market, cfg, last);
      var here := IsOn(market, last);
      var those := Those(market, rows, here);
      assert those[..|those| - 1] == Those(market, init, here) && Those(market, rows, !here) == Those(market, init, !here);
    }
  }

  /** This market's rows are the open orders the cycle loaded. */
  ghost predicate Ties(market: Listing, x: Loaded) {
    RowsPositive(x.rows) && Those(market, x.rows, true) == RowsOf(market, x.openOrders)
  }

  /** What a side's ladder cannot free: the other markets' rows and the side's protected orders. */
  ghost function Others(listings: seq<Listing>, market: Listing, cfg: Config, x: Loaded, side: Side): real {
    ForeignReserved(listings, market, cfg, Those(market, x.rows, false), KeyOf(market, side)) + HeldBy(cfg, x.openOrders, side, true)
  }

  lemma SideReserves(listings: seq<Listing>, market: Listing, cfg: Config, x: Loaded, side: Side)
    requires WellListed(listings, market) && Ties(market, x)
    ensures var key := KeyOf(market, side);
            && Reusable(listings, market, cfg, x.rows, key) == HeldBy(cfg, x.openOrders, side, false)
            && ForeignReserved(listings, market, cfg, x.rows, key) == Others(listings, market, cfg, x, side)
            && Reserved(listings, x.rows, key) == HeldBy(cfg, x.openOrders, side, false) + Others(listings, market, cfg, x, side)
  {
    hide Reserved, Reusable, ForeignReserved, HeldBy;
    RowsSplit(listings, market, cfg, x.rows, KeyOf(market, side));
    OwnRows(listings, market, cfg, x.openOrders, side);
    ReservationsAddUp(listings, market, cfg, x.rows, KeyOf(market, side));
  }

  /** The budgets a load gives, in terms of the open orders. */
  lemma BudgetsOfLoad(listings: seq<Listing>, market: Listing, cfg: Config, x: Loaded, v: View)
    requires WellListed(listings, market) && Ties(market, x) && Sees(listings, market, cfg, x, v)
    ensures v.quoteBudget == Max(x.quoteTotal - Others(listings, market, cfg, x, Buy), HeldBy(cfg, x.openOrders, Buy, false))
    ensures v.baseBudget == Max(x.baseTotal - Others(listings, market, cfg, x, Sell), HeldBy(cfg, x.openOrders, Sell, false))
  {
    hide Reserved, Reusable, ForeignReserved, HeldBy, Others, BalanceOf, Budget, IsBestBid, IsBestAsk;
    SideReserves(listings, market, cfg, x, Buy);
    SideReserves(listings, market, cfg, x, Sell);
    BudgetIsTheLarger(listings, market, cfg, x.rows, KeyOf(market, Buy), x.quoteTotal);
    BudgetIsTheLarger(listings, market, cfg, x.rows, KeyOf(market, Sell), x.baseTotal);
  }

  /** With the first load's reservations inside its totals, the same others and the same protected orders, the
      next budget is the larger of the last one and what the bot's own orders now hold. */
  lemma NextBudgets(listings: seq<Listing>, market: Listing, cfg: Config, x: Loaded, y: Loaded, v: View, w: View)
    requires WellListed(listings, market) && Ties(market, x) && Ties(market, y) && Covered(listings, market, x)
    requires Sees(listings, market, cfg, x, v) && Sees(listings, market, cfg, y, w)
    requires x.baseTotal == y.baseTotal && x.quoteTotal == y.quoteTotal
    requires Others(listings, market, cfg, x, Buy) == Others(listings, market, cfg, y, Buy)
    requires Others(listings, market, cfg, x, Sell) == Others(listings, market, cfg, y, Sell)
    ensures w.quoteBudget == Max(v.quoteBudget, HeldBy(cfg, y.openOrders, Buy, false))
    ensures w.baseBudget == Max(v.baseBudget, HeldBy(cfg, y.openOrders, Sell, false))
  {
    hide Reserved, HeldBy, Others, Sees;
    BudgetsOfLoad(listings, market, cfg, x, v);
    BudgetsOfLoad(listings, market, cfg, y, w);
    SideReserves(listings, market, cfg, x, Buy);
    SideReserves(listings, market, cfg, x, Sell);
  }

  // ----- the quotes from the next budget -----

  lemma CapacityGrows(spec: LadderSpec, cfg: SpotConfig, cash: real, more: real, total: real, price: real)
    requires price > 0.0 && cash <= more <= Max(cash, total * price)
    ensures var c := Capped(spec, cfg, cash / price, price);
            c <= Capped(spec, cfg, more / price, price) <= Max(c, total)
  {
    var a, b := cash / price, more / price;
    assert a * price == cash && b * price == more;
    QuotientMonotone(cash, more, price);
    if more > cash {
      QuotientMonotone(more, total * price, price);
      assert total * price / price == total;
    }
  }

  lemma SizeCapacityGrows(spec: LadderSpec, cfg: SpotConfig, budget: real, more: real, total: real, price: real)
    requires price > 0.0 && budget <= more <= Max(budget, total)
    ensures var c := Capped(spec, cfg, budget, price);
            c <= Capped(spec, cfg, more, price) <= Max(c, total)
  {
  }

  /** A bid ladder holds no more than its total size at its best price. */
  lemma BidsHoldAtMost(cfg: LadderConfig, spec: LadderSpec, x: SideInput, orderSize: real, inventory: real)
    requires x.pricing.side == Buy && x.pricing.ref >= 0.0 && cfg.levelSpreadStepBPS >= 0.0 && spec.minSize >= 0.0
    ensures var targets := Targets(cfg, spec, x, orderSize, inventory);
            Notional(targets) <= TotalSize(targets) * PriceOf(cfg, spec, x.pricing, 0)
  {
    hide PriceOf, PriceStands, LevelsFrom, Slack, BestSize;
    var best := PriceOf(cfg, spec, x.pricing, 0);
    var targets := Targets(cfg, spec, x, orderSize, inventory);
    TargetsAreCommitted(cfg, spec, x, orderSize, inventory);
    LadderIsWellFormed(cfg, spec, x.pricing, 0, orderSize, x.capacity, Headroom(x.pricing.side, inventory, x.limit));
    forall i | 0 <= i < |targets| ensures targets[i].size >= 0.0 && targets[i].price <= best {
      assert targets[i].size == SizesOf(targets)[i];
      PricesStepOut(cfg, spec, x.pricing, 0, i);
    }
    NotionalBelowBest(targets, best);
  }

  /** Budgets size the two sides and nothing else. */
  lemma SizingKeeps(cfg: SpotConfig, spec: LadderSpec, ov: Overrides, v: View, w: View, ref: real, external: bool)
    requires ref > 0.0 && w == v.(baseBudget := w.baseBudget, quoteBudget := w.quoteBudget)
    requires SpotSizing(cfg, spec, ov, v, ref, external).Some?
    ensures var z := SpotSizing(cfg, spec, ov, v, ref, external).value;
            var bid, ask := z.ask.pricing.opposite, z.bid.pricing.opposite;
            && bid > 0.0 && ask > 0.0 && bid == PriceOf(cfg.ladder, spec, z.bid.pricing.(opposite := 0.0), 0)
            && z.bid.capacity == Capped(spec, cfg, v.quoteBudget / bid, bid) && z.ask.capacity == Capped(spec, cfg, v.baseBudget, ask)
            && z.bid.pricing.side == Buy && z.bid.pricing.ref == Shifted(ref, 1.0 + ov.midShiftBPS / 10000.0)
            && SpotSizing(cfg, spec, ov, w, ref, external)
               == Some(z.(bid := z.bid.(capacity := Capped(spec, cfg, w.quoteBudget / bid, bid)),
                          ask := z.ask.(capacity := Capped(spec, cfg, w.baseBudget, ask))))
  {
    hide PriceOf, Capped, Shifted, LongLimit, ShortLimit, SpotSkew, PerUnit, HalfSpreadOf, OrderSizeOf;
  }

  lemma SameTargetsSameQuotes(cfg: SpotConfig, spec: LadderSpec, ov: Overrides, feed: Feed, v: View, w: View, z: Sizing, y: Sizing)
    requires w.bestBid == v.bestBid && w.bestAsk == v.bestAsk && w.inventory == v.inventory && y.orderSize == z.orderSize
    requires Reference(v.bestBid, v.bestAsk, feed).0 > 0.0
    requires var (ref, source) := Reference(v.bestBid, v.bestAsk, feed);
             && SpotSizing(cfg, spec, ov, v, ref, source == FromExternal) == Some(z)
             && SpotSizing(cfg, spec, ov, w, ref, source == FromExternal) == Some(y)
    requires !ov.bidOff ==> Targets(cfg.ladder, spec, y.bid, z.orderSize, v.inventory) == Targets(cfg.ladder, spec, z.bid, z.orderSize, v.inventory)
    requires !ov.askOff ==> Targets(cfg.ladder, spec, y.ask, z.orderSize, v.inventory) == Targets(cfg.ladder, spec, z.ask, z.orderSize, v.inventory)
    ensures BuildSpotQuotes(cfg, spec, ov, feed, w) == BuildSpotQuotes(cfg, spec, ov, feed, v)
  {
    hide SpotSizing, Targets, Reference;
  }

  /** Two views that differ in their budgets only, the second ones no more than what the first ladder would
      itself hold, give the same quotes. */
  lemma QuotesKeep(cfg: SpotConfig, spec: LadderSpec, ov: Overrides, feed: Feed, v: View, w: View)
    requires spec.minSize > 0.0 && cfg.ladder.levelSpreadStepBPS >= 0.0 && ov.midShiftBPS >= -10000.0
    requires w == v.(baseBudget := w.baseBudget, quoteBudget := w.quoteBudget)
    requires BuildSpotQuotes(cfg, spec, ov, feed, v).Laddered?
    requires var q := BuildSpotQuotes(cfg, spec, ov, feed, v);
             && v.quoteBudget <= w.quoteBudget <= Max(v.quoteBudget, Notional(q.bids))
             && v.baseBudget <= w.baseBudget <= Max(v.baseBudget, TotalSize(q.asks))
    ensures BuildSpotQuotes(cfg, spec, ov, feed, w) == BuildSpotQuotes(cfg, spec, ov, feed, v)
  {
    hide PriceOf, Targets, Capped, Shifted, SpotSizing, Notional, TotalSize, Reference;
    var (ref, source) := Reference(v.bestBid, v.bestAsk, feed);
    var z := SpotSizing(cfg, spec, ov, v, ref, source == FromExternal).value;
    var bid, ask := z.ask.pricing.opposite, z.bid.pricing.opposite;
    SizingKeeps(cfg, spec, ov, v, w, ref, source == FromExternal);
    ShiftedReference(ref, 1.0 + ov.midShiftBPS / 10000.0);
    if !ov.bidOff {
      var targets := Targets(cfg.ladder, spec, z.bid, z.orderSize, v.inventory);
      OppositeDoesNotPrice(cfg.ladder, spec, z.bid.pricing, 0);
      BidsHoldAtMost(cfg.ladder, spec, z.bid, z.orderSize, v.inventory);
      CapacityGrows(spec, cfg, v.quoteBudget, w.quoteBudget, TotalSize(targets), bid);
      TargetsKeep(cfg.ladder, spec, z.bid, Capped(spec, cfg, w.quoteBudget / bid, bid), z.orderSize, v.inventory);
    }
    if !ov.askOff {
      var targets := Targets(cfg.ladder, spec, z.ask, z.orderSize, v.inventory);
      SizeCapacityGrows(spec, cfg, v.baseBudget, w.baseBudget, TotalSize(targets), ask);
      TargetsKeep(cfg.ladder, spec, z.ask, Capped(spec, cfg, w.baseBudget, ask), z.orderSize, v.inventory);
    }
    SameTargetsSameQuotes(cfg, spec, ov, feed, v, w, z, SpotSizing(cfg, spec, ov, w, ref, source == FromExternal).value);
  }
}
