/** From one cycle to the next on the spot market: the ladder the strategy builds, the reconciliation that
    puts it on the book, and the next cycle's view of a book that now holds it. */
module EndToEnd {
  import opened Market
  import opened PairingFixpoint
  import opened Reconcile
  import opened SettledBook
  import opened Quiescence
  import opened Ladder
  import opened LadderSpacing
  import opened NextBudget
  import opened Holdings
  import Decision
  import Exposure
  import Terms = ReconcileTerms
  import F = SelfFeedback

  // ----- the strategy's ladders -----

  /** What the settings loader and the control API accept of a level step and of a mid shift. */
  predicate SettingsInRange(cfg: F.SpotConfig, ov: F.Overrides) {
    cfg.ladder.levelSpreadStepBPS >= 0.0 && ov.midShiftBPS >= -10000.0
  }

  /** The configuration is wide enough, at the prices of this view, for both ladders to be left alone. */
  predicate RoomyBothSides(cfg: F.SpotConfig, spec: LadderSpec, ov: F.Overrides, feed: F.Feed, v: F.View, toleranceBPS: real) {
    var (ref, source) := F.Reference(v.bestBid, v.bestAsk, feed);
    ref > 0.0 &&
    match F.SpotSizing(cfg, spec, ov, v, ref, source == F.FromExternal)
    case None => true
    case Some(z) => Roomy(cfg.ladder, spec, z.bid.pricing, toleranceBPS) && Roomy(cfg.ladder, spec, z.ask.pricing, toleranceBPS)
  }

  /** How the two sides of a laddered result are priced. */
  lemma SidesOfQuotes(cfg: F.SpotConfig, spec: LadderSpec, ov: F.Overrides, feed: F.Feed, v: F.View) returns (z: F.Sizing)
    requires SettingsInRange(cfg, ov) && F.BuildSpotQuotes(cfg, spec, ov, feed, v).Laddered?
    ensures var (ref, source) := F.Reference(v.bestBid, v.bestAsk, feed);
            ref > 0.0 && F.SpotSizing(cfg, spec, ov, v, ref, source == F.FromExternal) == Some(z)
    ensures var q := F.BuildSpotQuotes(cfg, spec, ov, feed, v);
            && q.bids == (if ov.bidOff then [] else Exposure.Targets(cfg.ladder, spec, z.bid, z.orderSize, v.inventory))
            && q.asks == (if ov.askOff then [] else Exposure.Targets(cfg.ladder, spec, z.ask, z.orderSize, v.inventory))
    ensures z.bid.pricing.side == Buy && z.ask.pricing.side == Sell && z.bid.pricing.ref >= 0.0 && z.ask.pricing.ref >= 0.0
    ensures 0.0 < PriceOf(cfg.ladder, spec, z.bid.pricing, 0) < PriceOf(cfg.ladder, spec, z.ask.pricing, 0)
  {
    hide PriceOf, Exposure.Targets, F.Capped, F.Shifted, Exposure.LongLimit, Exposure.ShortLimit, F.SpotSkew, F.PerUnit;
    var (ref, source) := F.Reference(v.bestBid, v.bestAsk, feed);
    z := F.SpotSizing(cfg, spec, ov, v, ref, source == F.FromExternal).value;
    F.ShiftedReference(ref, 1.0 + ov.midShiftBPS / 10000.0);
    F.OppositeDoesNotPrice(cfg.ladder, spec, z.bid.pricing, 0);
    F.OppositeDoesNotPrice(cfg.ladder, spec, z.ask.pricing, 0);
  }

  /** A roomy configuration spaces both ladders. */
  lemma RoomyIsSpaced(cfg: F.SpotConfig, spec: LadderSpec, ov: F.Overrides, feed: F.Feed, v: F.View, toleranceBPS: real)
    requires toleranceBPS > 0.0 && SettingsInRange(cfg, ov) && RoomyBothSides(cfg, spec, ov, feed, v, toleranceBPS)
    requires F.BuildSpotQuotes(cfg, spec, ov, feed, v).Laddered?
    ensures var q := F.BuildSpotQuotes(cfg, spec, ov, feed, v); Spaced(q.bids, toleranceBPS) && Spaced(q.asks, toleranceBPS)
  {
    hide PriceOf, Exposure.Targets, Roomy, F.SpotSizing, F.BuildSpotQuotes, Spaced;
    var z := SidesOfQuotes(cfg, spec, ov, feed, v);
    RoomyLadderIsSpaced(cfg.ladder, spec, z.bid, z.orderSize, v.inventory, toleranceBPS);
    RoomyLadderIsSpaced(cfg.ladder, spec, z.ask, z.orderSize, v.inventory, toleranceBPS);
    NoTargetsAreSpaced(toleranceBPS);
  }

  lemma NoTargetsAreSpaced(toleranceBPS: real)
    ensures Spaced([], toleranceBPS)
  {
  }

  /** Spaced ladders of the strategy's are all that a syncer asks for: strict, positive and uncrossed. */
  lemma StrategyLaddersAreClean(cfg: F.SpotConfig, spec: LadderSpec, ov: F.Overrides, feed: F.Feed, v: F.View, toleranceBPS: real)
    requires toleranceBPS > 0.0 && SettingsInRange(cfg, ov)
    requires F.BuildSpotQuotes(cfg, spec, ov, feed, v).Laddered?
    requires var q := F.BuildSpotQuotes(cfg, spec, ov, feed, v); Spaced(q.bids, toleranceBPS) && Spaced(q.asks, toleranceBPS)
    ensures var q := F.BuildSpotQuotes(cfg, spec, ov, feed, v); Ladders(q.bids, q.asks) && Restful(q.bids, q.asks, toleranceBPS)
  {
    hide PriceOf, Exposure.Targets, F.SpotSizing, F.BuildSpotQuotes, Spaced;
    var z := SidesOfQuotes(cfg, spec, ov, feed, v);
    if !ov.bidOff {
      SpacedLadderIsStrict(cfg.ladder, spec, z.bid, z.orderSize, v.inventory, toleranceBPS);
    }
    if !ov.askOff {
      SpacedLadderIsStrict(cfg.ladder, spec, z.ask, z.orderSize, v.inventory, toleranceBPS);
    }
    F.FirstTargetIsBest(cfg.ladder, spec, z.bid, z.orderSize, v.inventory);
    F.FirstTargetIsBest(cfg.ladder, spec, z.ask, z.orderSize, v.inventory);
  }

  lemma LevelsHoldSomething(cfg: F.SpotConfig, spec: LadderSpec, ov: F.Overrides, feed: F.Feed, v: F.View)
    requires SettingsInRange(cfg, ov) && spec.minSize >= 0.0 && F.BuildSpotQuotes(cfg, spec, ov, feed, v).Laddered?
    ensures var q := F.BuildSpotQuotes(cfg, spec, ov, feed, v);
            && (forall k :: 0 <= k < |q.bids| ==> AmountOf(Buy, q.bids[k].size, q.bids[k].price) >= 0.0)
            && forall k :: 0 <= k < |q.asks| ==> AmountOf(Sell, q.asks[k].size, q.asks[k].price) >= 0.0
  {
    hide PriceOf, Exposure.Targets, F.SpotSizing, F.BuildSpotQuotes, AmountOf;
    var z := SidesOfQuotes(cfg, spec, ov, feed, v);
    TargetsHoldSomething(cfg.ladder, spec, z.bid, z.orderSize, v.inventory);
    TargetsHoldSomething(cfg.ladder, spec, z.ask, z.orderSize, v.inventory);
  }

  lemma TargetsHoldSomething(cfg: LadderConfig, spec: LadderSpec, x: Exposure.SideInput, orderSize: real, inventory: real)
    requires spec.minSize >= 0.0 && PriceOf(cfg, spec, x.pricing, 0) > 0.0
    ensures var targets := Exposure.Targets(cfg, spec, x, orderSize, inventory);
            forall k :: 0 <= k < |targets| ==> AmountOf(x.pricing.side, targets[k].size, targets[k].price) >= 0.0
  {
    hide PriceOf, Exposure.Targets;
    var targets := Exposure.Targets(cfg, spec, x, orderSize, inventory);
    Exposure.TargetsAreCommitted(cfg, spec, x, orderSize, inventory);
    TargetPrices(cfg, spec, x, orderSize, inventory);
    forall k | 0 <= k < |targets| ensures AmountOf(x.pricing.side, targets[k].size, targets[k].price) >= 0.0 {
      assert targets[k].size == Exposure.SizesOf(targets)[k];
      NotNegative(targets[k].size, targets[k].price);
    }
  }

  lemma NotNegative(a: real, b: real)
    requires a >= 0.0 && b >= 0.0
    ensures a * b >= 0.0
  {
  }

  // ----- two cycles -----

  /** A cycle's plan carries the strategy's own ladders over the orders it loaded. */
  ghost predicate Plans(cfg: F.SpotConfig, spec: LadderSpec, ov: F.Overrides, feed: F.Feed, v: F.View, x: F.Loaded, p: Plan) {
    var q := F.BuildSpotQuotes(cfg, spec, ov, feed, v);
    q.Laddered? && p.bids == q.bids && p.asks == q.asks && p.listed == x.openOrders
  }

  /** Nothing but the bot's own orders on this market has moved: everyone else quotes the same prices, the
      totals are the same, and so are the account's orders on other markets. */
  ghost predicate SameElsewhere(market: F.Listing, x: F.Loaded, y: F.Loaded) {
    && F.SameForeign(x.book.bids, F.OwnIDs(x.openOrders), y.book.bids, F.OwnIDs(y.openOrders))
    && F.SameForeign(x.book.asks, F.OwnIDs(x.openOrders), y.book.asks, F.OwnIDs(y.openOrders))
    && x.baseTotal == y.baseTotal && x.quoteTotal == y.quoteTotal
    && Those(market, x.rows, false) == Those(market, y.rows, false)
  }

  /** The clock has not gone back and nothing of ours is inside its replace margin when the next cycle looks. */
  ghost predicate NotExpiring(desk: Desk, book: seq<Order>, earlier: nat -> Moment, later: nat -> Moment) {
    && (forall i: nat, j: nat :: earlier(i).now <= later(j).now)
    && forall o, j: nat :: o in book && Decision.ExpiringWithin(o, desk.cfg.expiryMargin, later(j).now) ==> Protected(desk.cfg, o.id)
  }

  /** The book left on a side holds what the budget covers, or no kept order holds more than its level. */
  ghost predicate Affordable(desk: Desk, task: Task, side: Side, moments: nat -> Moment, left: seq<Order>, budget: real) {
    HeldBy(desk.cfg, left, side, false) <= budget || KeptWithinLevels(desk, task, side, moments)
  }

  lemma BookHolds(desk: Desk, p: Plan, st: State, bidMoments: nat -> Moment, askMoments: nat -> Moment, quoteBudget: real, baseBudget: real)
    requires PlanIsClean(desk, p) && Completed(desk, p, st, bidMoments, askMoments)
    requires var book := RunSync(desk, p, st, bidMoments, askMoments).book;
             && Affordable(desk, BidTask(p), Buy, bidMoments, book, quoteBudget) && Affordable(desk, AskTask(p), Sell, askMoments, book, baseBudget)
    requires forall k :: 0 <= k < |p.bids| ==> AmountOf(Buy, p.bids[k].size, p.bids[k].price) >= 0.0
    requires forall k :: 0 <= k < |p.asks| ==> AmountOf(Sell, p.asks[k].size, p.asks[k].price) >= 0.0
    ensures var book := RunSync(desk, p, st, bidMoments, askMoments).book;
            && HeldBy(desk.cfg, book, Buy, false) <= Max(quoteBudget, Exposure.Notional(p.bids))
            && HeldBy(desk.cfg, book, Sell, false) <= Max(baseBudget, TotalSize(p.asks))
  {
    hide RunSide, SideSetting, LeftBefore, SideSlots, PlanIsClean, SideBook, HeldBy, KeptWithinLevels, AmountOf, BookIsClean, Ladders, SideReady;
    PlanParts(desk, p);
    BookAfterBoth(desk, p, st, bidMoments, askMoments);
    SidesAreSet(desk, p, st, bidMoments, askMoments);
    var book := RunSync(desk, p, st, bidMoments, askMoments).book;
    if KeptWithinLevels(desk, BidTask(p), Buy, bidMoments) {
      SideHolds(desk, BidTask(p), Buy, st, bidMoments, book);
    }
    if KeptWithinLevels(desk, AskTask(p), Sell, askMoments) {
      SideHolds(desk, AskTask(p), Sell, RunSide(desk, BidTask(p), st, bidMoments), askMoments, book);
    }
  }

  /** Two loads that differ only in the bot's own unprotected orders differ in their views only by budgets. */
  lemma ViewsDifferInBudgets(listings: seq<F.Listing>, market: F.Listing, cfg: Config, x: F.Loaded, y: F.Loaded, v: F.View, w: F.View)
    requires SameElsewhere(market, x, y) && F.Sees(listings, market, cfg, x, v) && F.Sees(listings, market, cfg, y, w)
    ensures w == v.(baseBudget := w.baseBudget, quoteBudget := w.quoteBudget)
  {
    hide F.IsBestBid, F.IsBestAsk, F.SameForeign, F.Budget, F.BalanceOf, F.Reserved, F.Reusable, Those;
    F.BestPricesIgnoreOwnOrders(x.book.bids, F.OwnIDs(x.openOrders), y.book.bids, F.OwnIDs(y.openOrders), v.bestBid, w.bestBid);
    F.BestPricesIgnoreOwnOrders(x.book.asks, F.OwnIDs(x.openOrders), y.book.asks, F.OwnIDs(y.openOrders), v.bestAsk, w.bestAsk);
  }

  lemma OthersAreTheSame(listings: seq<F.Listing>, market: F.Listing, cfg: Config, x: F.Loaded, y: F.Loaded, side: Side)
    requires SameElsewhere(market, x, y) && Shielded(cfg, y.openOrders) == Shielded(cfg, x.openOrders)
    ensures Others(listings, market, cfg, x, side) == Others(listings, market, cfg, y, side)
  {
    hide F.SameForeign, F.ForeignReserved, Those, HeldBy, Shielded;
    ShieldedHold(cfg, x.openOrders, side);
    ShieldedHold(cfg, y.openOrders, side);
  }

  /** The strategy asks for the same quotes again. */
  lemma SameQuotesAgain(
    desk: Desk, cfg: F.SpotConfig, spec: LadderSpec, ov: F.Overrides, feed: F.Feed, listings: seq<F.Listing>, market: F.Listing,
    x: F.Loaded, y: F.Loaded, v: F.View, w: F.View, p: Plan, st: State, bidMoments: nat -> Moment, askMoments: nat -> Moment)
    requires SettingsInRange(cfg, ov) && spec.minSize > 0.0 && WellListed(listings, market)
    requires Ties(market, x) && Ties(market, y) && F.Covered(listings, market, x) && SameElsewhere(market, x, y)
    requires F.Sees(listings, market, desk.cfg, x, v) && F.Sees(listings, market, desk.cfg, y, w)
    requires Plans(cfg, spec, ov, feed, v, x, p) && PlanIsClean(desk, p) && OwnNames(desk.cfg, p.bidIDs) && OwnNames(desk.cfg, p.askIDs)
    requires Completed(desk, p, st, bidMoments, askMoments)
    requires y.openOrders == RunSync(desk, p, st, bidMoments, askMoments).book
    requires Affordable(desk, BidTask(p), Buy, bidMoments, y.openOrders, v.quoteBudget)
    requires Affordable(desk, AskTask(p), Sell, askMoments, y.openOrders, v.baseBudget)
    ensures F.BuildSpotQuotes(cfg, spec, ov, feed, w) == F.BuildSpotQuotes(cfg, spec, ov, feed, v)
  {
    hide F.BuildSpotQuotes, F.Sees, F.Covered, PlanIsClean, SideBook, Affordable, AmountOf, Ties, SameElsewhere, WellListed, HeldBy, Others, Shielded,
         OwnNames, SettingsInRange, RunSync;
    LevelsHoldSomething(cfg, spec, ov, feed, v);
    BookHolds(desk, p, st, bidMoments, askMoments, v.quoteBudget, v.baseBudget);
    CompletedIsSmooth(desk, p, st, bidMoments, askMoments);
    SyncKeepsShielded(desk, p, st, bidMoments, askMoments);
    OthersAreTheSame(listings, market, desk.cfg, x, y, Buy);
    OthersAreTheSame(listings, market, desk.cfg, x, y, Sell);
    ViewsDifferInBudgets(listings, market, desk.cfg, x, y, v, w);
    SameTotals(market, x, y);
    NextBudgets(listings, market, desk.cfg, x, y, v, w);
    InRange(cfg, ov);
    QuotesKeep(cfg, spec, ov, feed, v, w);
  }

  lemma CompletedIsSmooth(desk: Desk, p: Plan, st: State, bidMoments: nat -> Moment, askMoments: nat -> Moment)
    requires Completed(desk, p, st, bidMoments, askMoments)
    ensures st.book == p.listed && forall i: nat :: bidMoments(i).departed == {} && askMoments(i).departed == {}
  {
  }

  lemma SameTotals(market: F.Listing, x: F.Loaded, y: F.Loaded)
    requires SameElsewhere(market, x, y)
    ensures x.baseTotal == y.baseTotal && x.quoteTotal == y.quoteTotal
  {
  }

  lemma InRange(cfg: F.SpotConfig, ov: F.Overrides)
    requires SettingsInRange(cfg, ov)
    ensures cfg.ladder.levelSpreadStepBPS >= 0.0 && ov.midShiftBPS >= -10000.0
  {
  }

  /** The bot settles: once one cycle's spaced ladder has been placed in full on a spot market where nothing
      else moves, every later cycle over the book that was left computes the same ladder, although its own
      orders now hold part of the balances, and sends nothing at all. What the ladder over-reserves by the
      rounding tolerance makes no difference. */
  lemma TheBotSettles(
    desk: Desk, cfg: F.SpotConfig, spec: LadderSpec, ov: F.Overrides, feed: F.Feed, listings: seq<F.Listing>, market: F.Listing,
    x: F.Loaded, y: F.Loaded, v: F.View, w: F.View, p: Plan, next: Plan,
    st: State, bidMoments: nat -> Moment, askMoments: nat -> Moment, opening: State, bidsLater: nat -> Moment, asksLater: nat -> Moment)
    requires SettingsInRange(cfg, ov) && spec.minSize > 0.0 && WellListed(listings, market)
    requires Ties(market, x) && Ties(market, y) && F.Covered(listings, market, x) && SameElsewhere(market, x, y)
    requires F.Sees(listings, market, desk.cfg, x, v) && F.Sees(listings, market, desk.cfg, y, w)
    requires Plans(cfg, spec, ov, feed, v, x, p) && Plans(cfg, spec, ov, feed, w, y, next)
    requires BookIsClean(desk, p) && OwnNames(desk.cfg, p.bidIDs) && OwnNames(desk.cfg, p.askIDs)
    requires Spaced(p.bids, desk.cfg.staleBPS) && Spaced(p.asks, desk.cfg.staleBPS)
    requires Completed(desk, p, st, bidMoments, askMoments)
    requires y.openOrders == RunSync(desk, p, st, bidMoments, askMoments).book
    requires Affordable(desk, BidTask(p), Buy, bidMoments, y.openOrders, v.quoteBudget)
    requires Affordable(desk, AskTask(p), Sell, askMoments, y.openOrders, v.baseBudget)
    requires NotExpiring(desk, y.openOrders, bidMoments, bidsLater) && NotExpiring(desk, y.openOrders, askMoments, asksLater)
    requires !opening.failed
    ensures next.bids == p.bids && next.asks == p.asks
    ensures var end := RunSync(desk, next, opening, bidsLater, asksLater);
            && Untouched(desk, next.listed, opening, end)
            && (Smooth(bidsLater) && Smooth(asksLater) ==> end.book == opening.book)
  {
    hide F.BuildSpotQuotes, F.Sees, F.Covered, RunSide, Completed, SideBook, Spaced, StrictLadder, Protected, Affordable, Ties, SameElsewhere, Smooth,
         WellListed, OwnNames, SettingsInRange, Untouched;
    assert desk.cfg.staleBPS > 0.0;
    StrategyLaddersAreClean(cfg, spec, ov, feed, v, desk.cfg.staleBPS);
    assert PlanIsClean(desk, p);
    SameQuotesAgain(desk, cfg, spec, ov, feed, listings, market, x, y, v, w, p, st, bidMoments, askMoments);
    NextTaskHolds(desk, BidTask(p), Buy, bidMoments, y.openOrders, BidTask(next), bidsLater);
    NextTaskHolds(desk, AskTask(p), Sell, askMoments, y.openOrders, AskTask(next), asksLater);
    SecondSyncIsQuiet(desk, p, st, bidMoments, askMoments, next, opening, bidsLater, asksLater);
  }

  lemma NextTaskHolds(desk: Desk, task: Task, side: Side, moments: nat -> Moment, book: seq<Order>, next: Task, later: nat -> Moment)
    requires NotExpiring(desk, book, moments, later)
    requires next.existing == SideBook(side, book) && next.targets == task.targets && next.opposite == task.opposite
    ensures NextTask(desk, task, side, moments, book, next, later)
  {
    hide Decision.ExpiringWithin, Protected;
    Terms.SideBookAll(side, book);
  }
}
