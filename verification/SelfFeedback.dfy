/** The bot's own quotes against its own target: what the reference and the budget see of them
    (othersBestPrices and localReference in service.go, the reservation arithmetic of GetBalances in
    client.go, the spot path of BuildQuotesWithOverrides in strategy.go). */
module SelfFeedback {
  import opened Market
  import opened Ladder
  import opened Rounding
  import opened Exposure

  // ----- others' best prices -----

  datatype BookLevel = BookLevel(id: string, price: real)
  datatype Book = Book(bids: seq<BookLevel>, asks: seq<BookLevel>)

  predicate IsOwn(own: set<string>, level: BookLevel) {
    level.id != "" && level.id in own
  }

  /** Not under the id of an open order of ours; a level without an id is nobody we know. */
  ghost predicate SomeoneElses(openOrders: seq<Order>, level: BookLevel) {
    level.id == "" || forall o :: o in openOrders ==> o.id != level.id
  }

  /** The best prices of everyone else; 0 where nobody else quotes. */
  method OthersBestPrices(book: Book, openOrders: seq<Order>) returns (bestBid: real, bestAsk: real)
    ensures IsBestBid(book.bids, OwnIDs(openOrders), bestBid)
    ensures IsBestAsk(book.asks, OwnIDs(openOrders), bestAsk)
    ensures forall level :: level in book.bids && SomeoneElses(openOrders, level) ==> level.price <= bestBid
    ensures bestBid > 0.0 ==> exists level :: level in book.bids && SomeoneElses(openOrders, level) && level.price == bestBid
    ensures forall level :: level in book.asks && SomeoneElses(openOrders, level) && level.price > 0.0 ==> 0.0 < bestAsk <= level.price
    ensures bestAsk > 0.0 ==> exists level :: level in book.asks && SomeoneElses(openOrders, level) && level.price == bestAsk
  {
    var own: set<string> := {};
    for i := 0 to |openOrders|
      invariant own == OwnIDs(openOrders[..i])
    {
      assert openOrders[..i + 1] == openOrders[..i] + [openOrders[i]];
      own := own + {openOrders[i].id};
    }
    assert openOrders[..|openOrders|] == openOrders;
    bestBid, bestAsk := 0.0, 0.0;
    for i := 0 to |book.bids|
      invariant IsBestBid(book.bids[..i], own, bestBid)
    {
      var level := book.bids[i];
      assert book.bids[..i + 1] == book.bids[..i] + [level];
      if !IsOwn(own, level) && level.price > bestBid {
        bestBid := level.price;
      }
    }
    assert book.bids[..|book.bids|] == book.bids;
    for i := 0 to |book.asks|
      invariant IsBestAsk(book.asks[..i], own, bestAsk)
    {
      var level := book.asks[i];
      assert book.asks[..i + 1] == book.asks[..i] + [level];
      if !IsOwn(own, level) && level.price > 0.0 && (bestAsk == 0.0 || level.price < bestAsk) {
        bestAsk := level.price;
      }
    }
    assert book.asks[..|book.asks|] == book.asks;
    forall level ensures IsOwn(own, level) <==> !SomeoneElses(openOrders, level) {
    }
  }

  function OwnIDs(orders: seq<Order>): set<string> {
    set o | o in orders :: o.id
  }

  /** Someone else quotes this price. */
  ghost predicate Foreign(levels: seq<BookLevel>, own: set<string>, price: real) {
    exists level :: level in levels && !IsOwn(own, level) && level.price == price
  }

  ghost predicate IsBestBid(levels: seq<BookLevel>, own: set<string>, best: real) {
    && best >= 0.0 && (best > 0.0 ==> Foreign(levels, own, best))
    && forall level :: level in levels && !IsOwn(own, level) ==> level.price <= best
  }

  ghost predicate IsBestAsk(levels: seq<BookLevel>, own: set<string>, best: real) {
    && best >= 0.0 && (best > 0.0 ==> Foreign(levels, own, best))
    && forall level :: level in levels && !IsOwn(own, level) && level.price > 0.0 ==> 0.0 < best <= level.price
  }

  ghost predicate SameForeign(a: seq<BookLevel>, ownA: set<string>, b: seq<BookLevel>, ownB: set<string>) {
    forall price :: Foreign(a, ownA, price) <==> Foreign(b, ownB, price)
  }

  /** Two books in which everyone else quotes the same prices have the same best prices, wherever the
      bot's own orders sit in either. */
  lemma BestPricesIgnoreOwnOrders(
    a: seq<BookLevel>, ownA: set<string>, b: seq<BookLevel>, ownB: set<string>, bestA: real, bestB: real)
    requires SameForeign(a, ownA, b, ownB)
    ensures IsBestBid(a, ownA, bestA) && IsBestBid(b, ownB, bestB) ==> bestA == bestB
    ensures IsBestAsk(a, ownA, bestA) && IsBestAsk(b, ownB, bestB) ==> bestA == bestB
  {
    assert Foreign(a, ownA, bestA) <==> Foreign(b, ownB, bestA);
    assert Foreign(a, ownA, bestB) <==> Foreign(b, ownB, bestB);
  }

  // ----- reservations -----

  /** A balance on chain: an asset and a sub id. */
  datatype Key = Key(asset: string, sub: string)

  datatype Listing = Listing(asset: string, sub: string, quote: string)

  /** One active order of the subaccount, on any market. */
  datatype Row = Row(id: string, side: Side, size: real, price: real, asset: string, sub: string)

  function ListingOf(listings: seq<Listing>, asset: string, sub: string): Option<Listing> {
    if listings == [] then None
    else if listings[0].asset == asset && listings[0].sub == sub then Some(listings[0])
    else ListingOf(listings[1..], asset, sub)
  }

  /** An order's own listing is found whenever there is one. */
  lemma {:induction false} ListingIsFound(listings: seq<Listing>, asset: string, sub: string)
    ensures var l := ListingOf(listings, asset, sub);
            && (l.Some? <==> exists x :: x in listings && x.asset == asset && x.sub == sub)
            && (l.Some? ==> l.value in listings && l.value.asset == asset && l.value.sub == sub)
  {
    if listings != [] {
      ListingIsFound(listings[1..], asset, sub);
      assert forall x :: x in listings <==> x == listings[0] || x in listings[1..];
    }
  }

  /** What an order holds: a bid size x price of the quote, an ask its size of the base. */
  function ReservedKey(listings: seq<Listing>, r: Row): Key {
    var l := ListingOf(listings, r.asset, r.sub);
    if r.side == Buy && l.Some? then Key(l.value.quote, "0") else Key(r.asset, r.sub)
  }

  function ReservedAmount(r: Row): real {
    match r.side
    case Buy => r.size * r.price
    case Sell => r.size
  }

  /** Freed again by this ladder: on this market and not protected. */
  predicate Replaceable(market: Listing, cfg: Config, r: Row) {
    r.asset == market.asset && r.sub == market.sub && !Protected(cfg, r.id)
  }

  function Held(listings: seq<Listing>, key: Key, r: Row): real {
    if ReservedKey(listings, r) == key then ReservedAmount(r) else 0.0
  }

  function Reserved(listings: seq<Listing>, rows: seq<Row>, key: Key): real {
    if rows == [] then 0.0 else Reserved(listings, rows[..|rows| - 1], key) + Held(listings, key, rows[|rows| - 1])
  }

  function Reusable(listings: seq<Listing>, market: Listing, cfg: Config, rows: seq<Row>, key: Key): real {
    if rows == [] then 0.0
    else
      var last := rows[|rows| - 1];
      Reusable(listings, market, cfg, rows[..|rows| - 1], key) + if Replaceable(market, cfg, last) then Held(listings, key, last) else 0.0
  }

  /** Held by orders this ladder cannot free: other markets' and protected ones. */
  function ForeignReserved(listings: seq<Listing>, market: Listing, cfg: Config, rows: seq<Row>, key: Key): real {
    if rows == [] then 0.0
    else
      var last := rows[|rows| - 1];
      ForeignReserved(listings, market, cfg, rows[..|rows| - 1], key) + if Replaceable(market, cfg, last) then 0.0 else Held(listings, key, last)
  }

  datatype Balance = Balance(total: real, reserved: real, available: real, reusable: real)

  function At(m: map<Key, real>, key: Key): real {
    if key in m then m[key] else 0.0
  }

  function BalanceOf(total: real, reserved: real, reusable: real): Balance {
    Balance(total, reserved, Max(0.0, total - reserved), Min(reserved, reusable))
  }

  /** The base and quote balances as the strategy sees them. */
  method GetBalances(listings: seq<Listing>, market: Listing, cfg: Config, rows: seq<Row>, positions: map<Key, real>)
    returns (base: Balance, quote: Balance)
    ensures var key := Key(market.asset, market.sub); base.total == if key in positions then positions[key] else 0.0
    ensures var key := Key(market.quote, "0"); quote.total == if key in positions then positions[key] else 0.0
    ensures var key := Key(market.asset, market.sub);
            base == BalanceOf(At(positions, key), Reserved(listings, rows, key), Reusable(listings, market, cfg, rows, key))
    ensures var key := Key(market.quote, "0");
            quote == BalanceOf(At(positions, key), Reserved(listings, rows, key), Reusable(listings, market, cfg, rows, key))
  {
    hide ReservedAmount, ReservedKey, Protected;
    var exposures: map<Key, real>, reusable: map<Key, real> := map[], map[];
    for i := 0 to |rows|
      invariant forall key :: At(exposures, key) == Reserved(listings, rows[..i], key)
      invariant forall key :: At(reusable, key) == Reusable(listings, market, cfg, rows[..i], key)
    {
      assert rows[..i + 1][..i] == rows[..i];
      var r := rows[i];
      var key := ReservedKey(listings, r);
      exposures := exposures[key := At(exposures, key) + ReservedAmount(r)];
      if Replaceable(market, cfg, r) {
        reusable := reusable[key := At(reusable, key) + ReservedAmount(r)];
      }
    }
    assert rows[..|rows|] == rows;
    var baseKey, quoteKey := Key(market.asset, market.sub), Key(market.quote, "0");
    base := BalanceOf(At(positions, baseKey), At(exposures, baseKey), At(reusable, baseKey));
    quote := BalanceOf(At(positions, quoteKey), At(exposures, quoteKey), At(reusable, quoteKey));
  }

  ghost predicate RowsPositive(rows: seq<Row>) {
    forall i :: 0 <= i < |rows| ==> rows[i].size >= 0.0 && rows[i].price >= 0.0
  }

  lemma {:induction false} ReservationsAddUp(listings: seq<Listing>, market: Listing, cfg: Config, rows: seq<Row>, key: Key)
    requires RowsPositive(rows)
    ensures Reserved(listings, rows, key) == Reusable(listings, market, cfg, rows, key) + ForeignReserved(listings, market, cfg, rows, key)
    ensures Reusable(listings, market, cfg, rows, key) >= 0.0 && ForeignReserved(listings, market, cfg, rows, key) >= 0.0
  {
    hide Protected, ReservedKey;
    if rows != [] {
      ReservationsAddUp(listings, market, cfg, rows[..|rows| - 1], key);
      HeldNotNegative(listings, key, rows[|rows| - 1]);
    }
  }

  lemma HeldNotNegative(listings: seq<Listing>, key: Key, r: Row)
    requires r.size >= 0.0 && r.price >= 0.0
    ensures Held(listings, key, r) >= 0.0
  {
    assert r.size * r.price >= 0.0;
  }

  function Budget(b: Balance): real {
    b.available + b.reusable
  }

  /** Available plus reusable is the total less what others hold, exactly when the reservations as a
      whole fit in the total; once they do not, the budget no longer follows the total. */
  lemma BudgetIsTotalLessForeign(listings: seq<Listing>, market: Listing, cfg: Config, rows: seq<Row>, key: Key, total: real)
    requires RowsPositive(rows)
    ensures var reserved := Reserved(listings, rows, key);
            var b := BalanceOf(total, reserved, Reusable(listings, market, cfg, rows, key));
            Budget(b) == total - ForeignReserved(listings, market, cfg, rows, key) <==> reserved <= total
  {
    ReservationsAddUp(listings, market, cfg, rows, key);
  }

  /** Foreign reservations alone fitting in the total is not enough. */
  lemma ForeignFittingIsNotEnough()
    ensures var b := BalanceOf(100.0, 120.0, 60.0); 120.0 - 60.0 <= 100.0 && Budget(b) != 100.0 - (120.0 - 60.0)
  {
  }

  // ----- the spot quotes of one cycle -----

  /** What else the spot reference can come from: the external rate and the last trade, 0 for none. */
  datatype Feed = Feed(external: real, lastTrade: Option<real>)

  datatype Source = FromBook | FromExternal | FromTrade | FromNothing

  function LocalReference(bestBid: real, bestAsk: real, lastTrade: Option<real>): (real, Source) {
    if bestBid > 0.0 && bestAsk > 0.0 then ((bestBid + bestAsk) / 2.0, FromBook)
    else if lastTrade.Some? then (lastTrade.value, FromTrade)
    else (0.0, FromNothing)
  }

  function Reference(bestBid: real, bestAsk: real, feed: Feed): (real, Source) {
    var (local, source) := LocalReference(bestBid, bestAsk, feed.lastTrade);
    if local > 0.0 && source == FromBook then (local, source)
    else if feed.external > 0.0 then (feed.external, FromExternal)
    else if local > 0.0 then (local, source)
    else (0.0, FromNothing)
  }

  datatype SpotConfig = SpotConfig(
    ladder: LadderConfig,
    limits: Limits,
    orderSize: real,
    halfSpreadBPS: real,
    skewBPS: real,
    skewFullAt: real,
    externalSpread: real,
    externalSize: real,
    maxNotional: real)

  /** The operator's lean: mid shift, added spread, size multiplier, and which sides are pulled. */
  datatype Overrides = Overrides(midShiftBPS: real, spreadAddBPS: real, sizeMult: real, bidOff: bool, askOff: bool)

  /** Everything of the venue and the account that a spot cycle's quotes are computed from. */
  datatype View = View(bestBid: real, bestAsk: real, inventory: real, baseBudget: real, quoteBudget: real)

  /** Leans linearly with inventory, reaching the maximum at fullAt and holding there. */
  function InventorySkew(inventory: real, fullAt: real, maxSkewBPS: real): real {
    if maxSkewBPS == 0.0 || fullAt <= 0.0 then 0.0
    else Max(-1.0, Min(1.0, inventory / fullAt)) * maxSkewBPS
  }

  function PerUnit(spec: LadderSpec, usd: real, price: real): real {
    if !spec.baseSized then usd else if price > 0.0 then usd / price else 0.0
  }

  datatype SpotQuotes =
    | NoReference
    | InvalidPrices
    | Laddered(bids: seq<Quote>, asks: seq<Quote>)

  function SpotSkew(cfg: SpotConfig, spec: LadderSpec, inventory: real, ref: real, long: real, short: real): real {
    InventorySkew(inventory, if cfg.skewFullAt > 0.0 then PerUnit(spec, cfg.skewFullAt, ref) else Max(Abs(long), Abs(short)), cfg.skewBPS)
  }

  function Capped(spec: LadderSpec, cfg: SpotConfig, capacity: real, price: real): real
    requires price > 0.0
  {
    if cfg.maxNotional <= 0.0 then capacity
    else if spec.baseSized then Min(capacity, cfg.maxNotional) else Min(capacity, cfg.maxNotional / price)
  }

  /** How the two sides are priced and sized, before anything is quoted. */
  datatype Sizing = Sizing(bid: SideInput, ask: SideInput, orderSize: real)

  function Shifted(ref: real, factor: real): real {
    ref * factor
  }

  /** Half the spread as a fraction; the external rate's multiplier first, then what the operator added. */
  function HalfSpreadOf(cfg: SpotConfig, ov: Overrides, external: bool): real {
    (cfg.halfSpreadBPS * (if external then cfg.externalSpread else 1.0) + ov.spreadAddBPS) / 10000.0
  }

  function OrderSizeOf(cfg: SpotConfig, ov: Overrides, external: bool): real {
    cfg.orderSize * (if external then cfg.externalSize else 1.0) * ov.sizeMult
  }

  /** None when the prices come out invalid. */
  function SpotSizing(cfg: SpotConfig, spec: LadderSpec, ov: Overrides, v: View, ref: real, external: bool): Option<Sizing>
    requires ref > 0.0
  {
    var long, short := LongLimit(cfg.limits, spec.baseSized, ref), ShortLimit(cfg.limits, spec.baseSized, ref);
    var skew := SpotSkew(cfg, spec, v.inventory, ref, long, short) / 10000.0;
    var halfSpread := HalfSpreadOf(cfg, ov, external);
    var orderSize := PerUnit(spec, OrderSizeOf(cfg, ov, external), ref);
    var pricingRef := Shifted(ref, 1.0 + ov.midShiftBPS / 10000.0);
    var bid, ask := Pricing(Buy, pricingRef, halfSpread, skew, 0.0), Pricing(Sell, pricingRef, halfSpread, skew, 0.0);
    var bidPrice, askPrice := PriceOf(cfg.ladder, spec, bid, 0), PriceOf(cfg.ladder, spec, ask, 0);
    if bidPrice <= 0.0 || askPrice <= 0.0 || bidPrice >= askPrice then None
    else
      Some(Sizing(SideInput(bid.(opposite := askPrice), Capped(spec, cfg, v.quoteBudget / bidPrice, bidPrice), long),
                  SideInput(ask.(opposite := bidPrice), Capped(spec, cfg, v.baseBudget, askPrice), short), orderSize))
  }

  function BuildSpotQuotes(cfg: SpotConfig, spec: LadderSpec, ov: Overrides, feed: Feed, v: View): SpotQuotes {
    var (ref, source) := Reference(v.bestBid, v.bestAsk, feed);
    if ref <= 0.0 then NoReference
    else
      match SpotSizing(cfg, spec, ov, v, ref, source == FromExternal)
      case None => InvalidPrices
      case Some(z) =>
        Laddered(if ov.bidOff then [] else Targets(cfg.ladder, spec, z.bid, z.orderSize, v.inventory),
                 if ov.askOff then [] else Targets(cfg.ladder, spec, z.ask, z.orderSize, v.inventory))
  }

  lemma CapOnlyLowers(spec: LadderSpec, cfg: SpotConfig, capacity: real, price: real)
    requires price > 0.0
    ensures Capped(spec, cfg, capacity, price) <= capacity
  {
  }

  /** What a ladder will itself reserve fits the budget it was sized from, up to the rounding tolerance. */
  lemma LadderFitsItsBudget(cfg: SpotConfig, spec: LadderSpec, ov: Overrides, feed: Feed, v: View) returns (best: real)
    requires BuildSpotQuotes(cfg, spec, ov, feed, v).Laddered? && spec.minSize >= 0.0 && cfg.ladder.levelSpreadStepBPS >= 0.0
    requires ov.midShiftBPS >= -10000.0
    ensures var q := BuildSpotQuotes(cfg, spec, ov, feed, v);
            && TotalSize(q.asks) <= Max(0.0, v.baseBudget + Slack(spec.sizeStep))
            && (q.bids != [] ==> best == q.bids[0].price) && best > 0.0
            && Notional(q.bids) <= Max(0.0, v.quoteBudget + Slack(spec.sizeStep) * best)
  {
    hide PriceOf, Targets, Slack, Capped, Shifted, LongLimit, ShortLimit, SpotSkew, PerUnit;
    var (ref, source) := Reference(v.bestBid, v.bestAsk, feed);
    var z := SpotSizing(cfg, spec, ov, v, ref, source == FromExternal).value;
    var bidPrice, askPrice := z.ask.pricing.opposite, z.bid.pricing.opposite;
    CapOnlyLowers(spec, cfg, v.quoteBudget / bidPrice, bidPrice);
    CapOnlyLowers(spec, cfg, v.baseBudget, askPrice);
    ShiftedReference(ref, 1.0 + ov.midShiftBPS / 10000.0);
    OppositeDoesNotPrice(cfg.ladder, spec, z.bid.pricing, 0);
    best := bidPrice;
    TargetsAreCommitted(cfg.ladder, spec, z.ask, z.orderSize, v.inventory);
    SumOfSizes(Targets(cfg.ladder, spec, z.ask, z.orderSize, v.inventory));
    BidLadderIsFunded(cfg.ladder, spec, z.bid, z.orderSize, v.quoteBudget, v.inventory);
    FirstTargetIsBest(cfg.ladder, spec, z.bid, z.orderSize, v.inventory);
    EmptyTotals(spec.sizeStep);
  }

  lemma EmptyTotals(step: real)
    ensures TotalSize([]) == 0.0 && Notional([]) == 0.0 && Slack(step) >= 0.0
  {
  }

  lemma ShiftedReference(ref: real, factor: real)
    requires ref > 0.0 && factor >= 0.0
    ensures Shifted(ref, factor) >= 0.0
  {
  }

  lemma RawPriceIgnoresOpposite(cfg: LadderConfig, p: Pricing, k: nat)
    ensures RawPrice(cfg, p, k) == RawPrice(cfg, p.(opposite := 0.0), k)
  {
    hide Offset;
    var d := Distance(cfg, p, k);
    assert d == Distance(cfg, p.(opposite := 0.0), k);
    assert p.ref * d == RawPrice(cfg, p, k);
    hide Distance;
  }

  /** The other side's best limits a ladder but does not price it. */
  lemma OppositeDoesNotPrice(cfg: LadderConfig, spec: LadderSpec, p: Pricing, k: nat)
    ensures PriceOf(cfg, spec, p, k) == PriceOf(cfg, spec, p.(opposite := 0.0), k)
  {
    hide RoundDown, RoundUp, RawPrice;
    RawPriceIgnoresOpposite(cfg, p, k);
  }

  lemma FirstTargetIsBest(cfg: LadderConfig, spec: LadderSpec, x: SideInput, orderSize: real, inventory: real)
    ensures var targets := Targets(cfg, spec, x, orderSize, inventory); targets != [] ==> targets[0].price == PriceOf(cfg, spec, x.pricing, 0)
  {
    hide PriceOf, PriceStands, LevelsFrom, BestSize;
    LadderIsWellFormed(cfg, spec, x.pricing, 0, orderSize, x.capacity, Headroom(x.pricing.side, inventory, x.limit));
  }

  // ----- no self-feedback -----

  /** One load of the venue and the account. */
  datatype Loaded = Loaded(book: Book, openOrders: seq<Order>, rows: seq<Row>, baseTotal: real, quoteTotal: real)

  /** The view a load gives, whatever order the method found its best prices in. */
  ghost predicate Sees(listings: seq<Listing>, market: Listing, cfg: Config, x: Loaded, v: View) {
    var own := OwnIDs(x.openOrders);
    var baseKey, quoteKey := Key(market.asset, market.sub), Key(market.quote, "0");
    && IsBestBid(x.book.bids, own, v.bestBid) && IsBestAsk(x.book.asks, own, v.bestAsk)
    && v.inventory == x.baseTotal
    && v.baseBudget == Budget(BalanceOf(x.baseTotal, Reserved(listings, x.rows, baseKey), Reusable(listings, market, cfg, x.rows, baseKey)))
    && v.quoteBudget == Budget(BalanceOf(x.quoteTotal, Reserved(listings, x.rows, quoteKey), Reusable(listings, market, cfg, x.rows, quoteKey)))
  }

  /** Reservations as a whole do not exceed what is there. */
  predicate Covered(listings: seq<Listing>, market: Listing, x: Loaded) {
    && Reserved(listings, x.rows, Key(market.asset, market.sub)) <= x.baseTotal
    && Reserved(listings, x.rows, Key(market.quote, "0")) <= x.quoteTotal
  }

  /** Two loads that differ only in the bot's own replaceable orders on this market. */
  ghost predicate DifferInOwnOrdersOnly(listings: seq<Listing>, market: Listing, cfg: Config, x: Loaded, y: Loaded) {
    && SameForeign(x.book.bids, OwnIDs(x.openOrders), y.book.bids, OwnIDs(y.openOrders))
    && SameForeign(x.book.asks, OwnIDs(x.openOrders), y.book.asks, OwnIDs(y.openOrders))
    && x.baseTotal == y.baseTotal && x.quoteTotal == y.quoteTotal
    && forall key :: ForeignReserved(listings, market, cfg, x.rows, key) == ForeignReserved(listings, market, cfg, y.rows, key)
  }

  /** The bot's own quotes do not move its own target: with the same others' book, the same totals and
      the same foreign reservations, any two sets of its own replaceable orders lead to the same view
      and so to the same ladder -- as long as the reservations fit in the totals. */
  lemma OwnQuotesDoNotMoveTheTarget(
    listings: seq<Listing>, market: Listing, cfg: Config, x: Loaded, y: Loaded, v: View, w: View,
    spot: SpotConfig, spec: LadderSpec, ov: Overrides, feed: Feed)
    requires RowsPositive(x.rows) && RowsPositive(y.rows)
    requires Covered(listings, market, x) && Covered(listings, market, y)
    requires DifferInOwnOrdersOnly(listings, market, cfg, x, y)
    requires Sees(listings, market, cfg, x, v) && Sees(listings, market, cfg, y, w)
    ensures v == w
    ensures BuildSpotQuotes(spot, spec, ov, feed, v) == BuildSpotQuotes(spot, spec, ov, feed, w)
  {
    hide BuildSpotQuotes, Reserved, Reusable, ForeignReserved, BalanceOf, Budget, IsBestBid, IsBestAsk, Foreign, SameForeign;
    var baseKey, quoteKey := Key(market.asset, market.sub), Key(market.quote, "0");
    BestPricesIgnoreOwnOrders(x.book.bids, OwnIDs(x.openOrders), y.book.bids, OwnIDs(y.openOrders), v.bestBid, w.bestBid);
    BestPricesIgnoreOwnOrders(x.book.asks, OwnIDs(x.openOrders), y.book.asks, OwnIDs(y.openOrders), v.bestAsk, w.bestAsk);
    BudgetIsTotalLessForeign(listings, market, cfg, x.rows, baseKey, x.baseTotal);
    BudgetIsTotalLessForeign(listings, market, cfg, y.rows, baseKey, y.baseTotal);
    BudgetIsTotalLessForeign(listings, market, cfg, x.rows, quoteKey, x.quoteTotal);
    BudgetIsTotalLessForeign(listings, market, cfg, y.rows, quoteKey, y.quoteTotal);
  }
}
