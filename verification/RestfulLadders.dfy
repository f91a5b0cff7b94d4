/** Which ladders a syncer without limits leaves alone: exactly those spaced by the stale tolerance on both
    sides that do not cross. On any other some Sync that was accepted in full is followed by one that
    sends. */
module RestfulLadders {
  import opened Market
  import opened Pairing
  import opened PairingLaws
  import opened PairingFixpoint
  import opened StrayOrders
  import opened Decision
  import opened Reconcile
  import opened ReconcileTerms
  import opened ReconcileRequests
  import opened SettledBook
  import opened Quiescence
  import opened FeeBound
  import Budget = CancelBudget

  // ----- two Syncs in a row -----

  /** A Sync and the next one over the same targets, each with what happens around it. */
  datatype Twice = Twice(
    p: Plan, st: State, bidMoments: nat -> Moment, askMoments: nat -> Moment,
    next: Plan, opening: State, bidsLater: nat -> Moment, asksLater: nat -> Moment)

  /** The first is accepted in full over a clean book and the second finds the book as the first left it. */
  ghost predicate Follows(desk: Desk, t: Twice) {
    && BookIsClean(desk, t.p) && Completed(desk, t.p, t.st, t.bidMoments, t.askMoments) && !t.opening.failed
    && NextPlan(desk, t.p, RunSync(desk, t.p, t.st, t.bidMoments, t.askMoments).book, t.bidMoments, t.askMoments,
                t.next, t.bidsLater, t.asksLater)
  }

  ghost predicate SecondSends(desk: Desk, t: Twice) {
    RunSync(desk, t.next, t.opening, t.bidsLater, t.asksLater).sent != t.opening.sent
  }

  ghost predicate AlwaysLeftAlone(desk: Desk, bids: seq<Quote>, asks: seq<Quote>) {
    forall t: Twice :: Follows(desk, t) && t.p.bids == bids && t.p.asks == asks ==> !SecondSends(desk, t)
  }

  lemma RestfulIsLeftAlone(desk: Desk, bids: seq<Quote>, asks: seq<Quote>)
    requires Ladders(bids, asks) && Restful(bids, asks, desk.cfg.staleBPS)
    ensures AlwaysLeftAlone(desk, bids, asks)
  {
    hide Completed, NextPlan, RunSync, Ladders, Restful, BookIsClean;
    forall t: Twice | Follows(desk, t) && t.p.bids == bids && t.p.asks == asks ensures !SecondSends(desk, t) {
      SecondSyncIsQuiet(desk, t.p, t.st, t.bidMoments, t.askMoments, t.next, t.opening, t.bidsLater, t.asksLater);
    }
  }

  // ----- a side with some levels quoted and the rest to be placed -----

  /** The levels, the price each ends up quoted at, and how many are listed already. Only the last listed
      one may be off its level's own price. */
  datatype Scene = Scene(targets: seq<Quote>, prices: seq<real>, listed: nat)

  ghost predicate SceneFits(x: Scene, side: Side, tolerance: real) {
    && tolerance > 0.0 && StrictLadder(side, x.targets) && (forall k :: 0 <= k < |x.targets| ==> x.targets[k].side == side)
    && |x.prices| == |x.targets| && x.listed <= |x.targets|
    && NoRepeat(x.prices) && (forall i :: 0 <= i < |x.prices| ==> x.prices[i] > 0.0)
    && (forall i :: 0 <= i < |x.prices| && i != x.listed - 1 ==> x.prices[i] == x.targets[i].price)
    && forall i :: 0 <= i < x.listed ==> Closer(PriceDrift(x.prices[i], x.targets[i].price), Bps(tolerance))
  }

  /** Ids no prefix protects. */
  function Blanks(n: nat): (s: string)
    ensures |s| == n
  {
    if n == 0 then "" else [' '] + Blanks(n - 1)
  }

  lemma {:induction false} BlanksTrim(n: nat)
    ensures TrimLeft(Blanks(n)) == ""
  {
    if n > 0 {
      BlanksTrim(n - 1);
    }
  }

  lemma BlanksAreUnprotected(cfg: Config, n: nat)
    ensures !Protected(cfg, Blanks(n))
  {
    BlanksTrim(n);
  }

  function RestingAt(desk: Desk, q: Quote, price: real, id: string): Order {
    Order(id, q.side, price, q.size, desk.cfg.postOnly, SignedWorstFee(desk.fee, price), 0, None)
  }

  function SceneOrders(desk: Desk, x: Scene, offset: nat): (orders: seq<Order>)
    requires x.listed <= |x.targets| == |x.prices|
    ensures |orders| == x.listed
    ensures forall i :: 0 <= i < x.listed ==> orders[i] == RestingAt(desk, x.targets[i], x.prices[i], Blanks(4 * i + offset))
  {
    seq(x.listed, i requires 0 <= i < x.listed => RestingAt(desk, x.targets[i], x.prices[i], Blanks(4 * i + offset)))
  }

  function Names(n: nat, offset: nat): (ids: seq<Identity>)
    ensures |ids| == n && forall i :: 0 <= i < n ==> ids[i] == Identity(Blanks(4 * i + offset), i)
  {
    seq(n, i requires 0 <= i < n => Identity(Blanks(4 * i + offset), i))
  }

  function ScenePlan(desk: Desk, b: Scene, a: Scene): Plan
    requires b.listed <= |b.targets| == |b.prices| && a.listed <= |a.targets| == |a.prices|
  {
    Plan(SceneOrders(desk, b, 0) + SceneOrders(desk, a, 1), b.targets, a.targets, Names(|b.targets|, 2), Names(|a.targets|, 3), None)
  }

  ghost predicate ScenesFit(desk: Desk, b: Scene, a: Scene) {
    SceneFits(b, Buy, desk.cfg.staleBPS) && SceneFits(a, Sell, desk.cfg.staleBPS)
  }

  /** Which listed order of a plan is whose. */
  lemma ListedIs(desk: Desk, b: Scene, a: Scene, o: Order)
    requires ScenesFit(desk, b, a)
    ensures o in ScenePlan(desk, b, a).listed && o.side == Buy <==> o in SceneOrders(desk, b, 0)
    ensures o in ScenePlan(desk, b, a).listed && o.side == Sell <==> o in SceneOrders(desk, a, 1)
  {
    hide StrictLadder, NoRepeat;
  }

  function ListedLength(bids: nat, i: nat): nat {
    if i < bids then 4 * i else 4 * (i - bids) + 1
  }

  lemma LengthsDiffer(bids: nat, i: nat, j: nat)
    ensures ListedLength(bids, i) % 4 < 2 && (ListedLength(bids, i) == ListedLength(bids, j) ==> i == j)
  {
  }

  lemma ListedIDLength(desk: Desk, b: Scene, a: Scene, i: nat)
    requires ScenesFit(desk, b, a) && i < |ScenePlan(desk, b, a).listed|
    ensures |ScenePlan(desk, b, a).listed[i].id| == ListedLength(b.listed, i)
  {
    hide StrictLadder, NoRepeat;
  }

  /** No two ids of a scene are as long: listed bids, listed asks and both sides' names are told apart by
      the length of the id modulo four. */
  lemma SceneIDs(desk: Desk, b: Scene, a: Scene)
    requires ScenesFit(desk, b, a)
    ensures DistinctIDs(ScenePlan(desk, b, a).listed)
    ensures forall o :: o in ScenePlan(desk, b, a).listed ==> |o.id| % 4 < 2
  {
    ScenesHaveRoom(desk, b, a);
    hide ScenesFit, ListedLength, ScenePlan;
    var listed := ScenePlan(desk, b, a).listed;
    forall i, j | 0 <= i < |listed| && 0 <= j < |listed| ensures |listed[i].id| % 4 < 2 && (listed[i].id == listed[j].id ==> i == j) {
      ListedIDLength(desk, b, a, i);
      ListedIDLength(desk, b, a, j);
      LengthsDiffer(b.listed, i, j);
    }
  }

  lemma ScenesHaveRoom(desk: Desk, b: Scene, a: Scene)
    requires ScenesFit(desk, b, a)
    ensures b.listed <= |b.targets| == |b.prices| && a.listed <= |a.targets| == |a.prices|
  {
  }

  lemma NamesAreFresh(n: nat, offset: nat, book: seq<Order>)
    requires 2 <= offset < 4 && forall o :: o in book ==> |o.id| % 4 < 2
    ensures FreshIdentities(Names(n, offset), book)
  {
    forall i | 0 <= i < n ensures |Names(n, offset)[i].orderID| == 4 * i + offset {
    }
  }

  lemma ScenePricesDiffer(desk: Desk, x: Scene, side: Side, offset: nat, o: Order, q: Order)
    requires SceneFits(x, side, desk.cfg.staleBPS)
    requires o in SceneOrders(desk, x, offset) && q in SceneOrders(desk, x, offset) && o != q
    ensures o.price != q.price
  {
    hide StrictLadder;
    var i :| 0 <= i < x.listed && SceneOrders(desk, x, offset)[i] == o;
    var k :| 0 <= k < x.listed && SceneOrders(desk, x, offset)[k] == q;
  }

  lemma SceneIsClean(desk: Desk, b: Scene, a: Scene)
    requires ScenesFit(desk, b, a) && !desk.cfg.dryRun && desk.signer == desk.fee
    ensures BookIsClean(desk, ScenePlan(desk, b, a)) && Ladders(b.targets, a.targets)
  {
    hide SceneOrders, Names;
    var p := ScenePlan(desk, b, a);
    SceneIDs(desk, b, a);
    NamesAreFresh(|b.targets|, 2, p.listed);
    NamesAreFresh(|a.targets|, 3, p.listed);
    NamesDiffer(|b.targets|, |a.targets|);
    forall x, y | x in p.listed && y in p.listed && x.side == y.side && x != y ensures x.price != y.price {
      ListedIs(desk, b, a, x);
      ListedIs(desk, b, a, y);
      if x.side == Buy {
        ScenePricesDiffer(desk, b, Buy, 0, x, y);
      } else {
        ScenePricesDiffer(desk, a, Sell, 1, x, y);
      }
    }
  }

  lemma NamesDiffer(n: nat, m: nat)
    ensures forall i, j :: 0 <= i < n && 0 <= j < m ==> Names(n, 2)[i].orderID != Names(m, 3)[j].orderID
  {
    forall i, j | 0 <= i < n && 0 <= j < m ensures Names(n, 2)[i].orderID != Names(m, 3)[j].orderID {
      assert |Names(n, 2)[i].orderID| == 4 * i + 2 && |Names(m, 3)[j].orderID| == 4 * j + 3;
    }
  }

  // ----- the first Sync over a scene -----

  /** A side of a scene as it is reconciled. */
  ghost predicate Staged(desk: Desk, task: Task, x: Scene, side: Side, offset: nat) {
    && SceneFits(x, side, desk.cfg.staleBPS) && task.targets == x.targets
    && DistinctIDs(task.existing) && (forall o :: o in task.existing <==> o in SceneOrders(desk, x, offset))
    && (x.listed > 0 ==> forall k :: 0 <= k < |x.targets| ==> !Crosses(side, x.targets[k], task.opposite))
  }

  lemma StagedOrder(desk: Desk, task: Task, x: Scene, side: Side, offset: nat, e: nat) returns (i: nat)
    requires Staged(desk, task, x, side, offset) && e < |task.existing|
    ensures i < x.listed && task.existing[e] == SceneOrders(desk, x, offset)[i]
  {
    assert task.existing[e] in SceneOrders(desk, x, offset);
    i :| 0 <= i < x.listed && SceneOrders(desk, x, offset)[i] == task.existing[e];
  }

  lemma StagedPrices(desk: Desk, task: Task, x: Scene, side: Side, offset: nat)
    requires Staged(desk, task, x, side, offset)
    ensures OnePerPrice(task.existing)
    ensures forall e :: 0 <= e < |task.existing| ==> task.existing[e].price in x.prices[..x.listed]
  {
    hide StrictLadder;
    forall e | 0 <= e < |task.existing| ensures task.existing[e].price > 0.0 && task.existing[e].price in x.prices[..x.listed] {
      var i := StagedOrder(desk, task, x, side, offset, e);
      assert x.prices[..x.listed][i] == task.existing[e].price;
    }
    forall e, f | 0 <= e < f < |task.existing| ensures task.existing[e].price != task.existing[f].price {
      var i := StagedOrder(desk, task, x, side, offset, e);
      var k := StagedOrder(desk, task, x, side, offset, f);
      assert i != k;
    }
  }

  lemma StagedIsDestined(desk: Desk, task: Task, x: Scene, side: Side, offset: nat, i: nat)
    requires Staged(desk, task, x, side, offset) && i < x.listed
    ensures Destined(task.existing, x.targets, desk.cfg.staleBPS, x.prices, i)
  {
    hide StrictLadder, NoRepeat;
    StagedPrices(desk, task, x, side, offset);
    var o := SceneOrders(desk, x, offset)[i];
    assert o in task.existing;
    var e :| 0 <= e < |task.existing| && task.existing[e] == o;
    assert QuotedAt(task.existing, x.prices[i]);
  }

  lemma StagedClaims(desk: Desk, task: Task, x: Scene, side: Side, offset: nat)
    requires Staged(desk, task, x, side, offset)
    ensures ClaimedAt(task.existing, PassOne(task.existing, x.targets, desk.cfg.staleBPS, x.listed), x.prices)
  {
    hide Destined, PassOne, SceneOrders;
    StagedPrices(desk, task, x, side, offset);
    forall i | 0 <= i < x.listed ensures Destined(task.existing, x.targets, desk.cfg.staleBPS, x.prices, i) {
      StagedIsDestined(desk, task, x, side, offset, i);
    }
    DestinedAreClaimed(task.existing, x.targets, desk.cfg.staleBPS, x.prices, x.listed);
  }

  /** A listed order is in its own level's slot. */
  lemma StagedSlot(desk: Desk, task: Task, x: Scene, side: Side, offset: nat, i: nat)
    requires Staged(desk, task, x, side, offset) && i < x.listed
    ensures var slots := SideSlots(desk, task);
            && |slots| >= |x.targets| && slots[i].order.Some? && slots[i].target == Some(i)
            && task.existing[slots[i].order.value] == SceneOrders(desk, x, offset)[i]
  {
    hide PassOne, Destined, StrictLadder;
    StagedClaims(desk, task, x, side, offset);
    PassOnePrefix(task.existing, x.targets, desk.cfg.staleBPS, x.listed, |x.targets|);
    SecondPassPairsAreFar(task.existing, x.targets, desk.cfg.staleBPS, i);
    PairingPartitions(task.existing, x.targets, desk.cfg.staleBPS);
    var c := PassOne(task.existing, x.targets, desk.cfg.staleBPS, |x.targets|)[i];
    assert c == PassOne(task.existing, x.targets, desk.cfg.staleBPS, x.listed)[i];
    var k := StagedOrder(desk, task, x, side, offset, c);
    assert x.prices[k] == x.prices[i];
  }

  /** The other slots have no order. */
  lemma UnlistedSlot(desk: Desk, task: Task, x: Scene, side: Side, offset: nat, i: nat)
    requires Staged(desk, task, x, side, offset) && x.listed <= i < |SideSlots(desk, task)|
    ensures SideSlots(desk, task)[i].order.None?
  {
    hide StrictLadder, Slots, SceneOrders;
    var slots := SideSlots(desk, task);
    PairingPartitions(task.existing, x.targets, desk.cfg.staleBPS);
    if slots[i].order.Some? {
      var e := slots[i].order.value;
      var k := StagedOrder(desk, task, x, side, offset, e);
      StagedSlot(desk, task, x, side, offset, k);
    }
  }

  lemma StagedIsKept(desk: Desk, task: Task, x: Scene, side: Side, offset: nat, i: nat, m: Moment)
    requires Staged(desk, task, x, side, offset) && i < |SideSlots(desk, task)|
    ensures KeptAt(desk, task, SideSlots(desk, task)[i], m) <==> i < x.listed
  {
    hide StrictLadder, Slots, SignedWorstFee, NoRepeat;
    if i < x.listed {
      StagedSlot(desk, task, x, side, offset, i);
    } else {
      UnlistedSlot(desk, task, x, side, offset, i);
    }
  }

  /** The desk can sign every level now, with more than the replace margin to run. */
  predicate CanQuote(desk: Desk, quotes: seq<Quote>, now: int) {
    && SignedExpiry(desk, now).Some?
    && (SignedExpiry(desk, now).value > 0 ==> SignedExpiry(desk, now).value - now > desk.cfg.expiryMargin)
    && forall k :: 0 <= k < |quotes| ==> SignedWorstFee(desk.signer, quotes[k].price).Some?
  }

  /** On a calm venue nothing fails that can be signed. */
  lemma {:induction false} CalmNeverFails(desk: Desk, task: Task, st: State, slots: seq<Slot>, now: int, k: nat)
    requires SlotsFit(task, slots) && k <= |slots| && !st.failed && CanQuote(desk, task.targets, now)
    ensures !RunSlots(desk, task, st, slots, Calm(now), k).failed
  {
    hide VerdictOn, SignedOrder, Without;
    if k > 0 {
      CalmNeverFails(desk, task, st, slots, now, k - 1);
      CalmSlotSucceeds(desk, task, RunSlots(desk, task, st, slots, Calm(now), k - 1), slots[k - 1], now, k - 1);
    }
  }

  lemma CalmSlotSucceeds(desk: Desk, task: Task, st: State, s: Slot, now: int, i: nat)
    requires SlotFits(task, s) && !st.failed && CanQuote(desk, task.targets, now)
    ensures !SlotStep(desk, task, st, s, Calm(now)(i)).failed
  {
    hide VerdictOn, SignedOrder, Without;
  }

  ghost predicate PriceRests(book: seq<Order>, side: Side, price: real) {
    exists o :: o in book && o.side == side && o.price == price
  }

  /** What rests on a side of the scene afterwards: one order at each level's price. */
  ghost predicate Rests(desk: Desk, x: Scene, book: seq<Order>, side: Side, now: int) {
    && (forall o :: o in book && o.side == side ==>
         !Protected(desk.cfg, o.id) && !ExpiringWithin(o, desk.cfg.expiryMargin, now) && o.price in x.prices)
    && (forall i :: 0 <= i < |x.prices| ==> PriceRests(book, side, x.prices[i]))
    && forall o, q :: o in book && q in book && o.side == side && q.side == side && o.price == q.price ==> o == q
  }

  lemma StagedIsSettled(desk: Desk, task: Task, x: Scene, side: Side, offset: nat, st: State, now: int)
    requires Staged(desk, task, x, side, offset)
    ensures NothingHeld(desk, task, st, SideSlots(desk, task), Calm(now)) && NoneBeside(desk, task, SideSlots(desk, task), Calm(now))
  {
    hide Staged, SideSlots, KeptAt, SlotCancel;
    forall k: nat | k < |SideSlots(desk, task)| && SideSlots(desk, task)[k].order.Some?
      ensures KeptAt(desk, task, SideSlots(desk, task)[k], Calm(now)(k))
    {
      StagedIsKept(desk, task, x, side, offset, k, Calm(now)(k));
      if k >= x.listed {
        UnlistedSlot(desk, task, x, side, offset, k);
      }
    }
  }

  /** Level i is left with an order of its own at the scene's price. */
  lemma StagedLeaves(desk: Desk, task: Task, x: Scene, side: Side, offset: nat, now: int, i: nat, o: Order)
    requires Staged(desk, task, x, side, offset) && i < |SideSlots(desk, task)| && CanQuote(desk, task.targets, now)
    requires |task.ids| >= |task.targets| && forall k :: 0 <= k < |task.ids| ==> !Protected(desk.cfg, task.ids[k].orderID)
    requires LeftAt(desk, task, SideSlots(desk, task), Calm(now), i, o)
    ensures i < |x.prices| && o.side == side && o.price == x.prices[i]
    ensures IsFinal(desk, task, SideSlots(desk, task), Calm(now), i, o)
    ensures !Protected(desk.cfg, o.id) && !ExpiringWithin(o, desk.cfg.expiryMargin, now)
  {
    hide StrictLadder, Slots, NoRepeat, KeptAt, Protected;
    StagedIsKept(desk, task, x, side, offset, i, Calm(now)(i));
    if i < x.listed {
      StagedSlot(desk, task, x, side, offset, i);
      BlanksAreUnprotected(desk.cfg, 4 * i + offset);
    } else {
      UnlistedSlot(desk, task, x, side, offset, i);
    }
  }

  lemma LevelIsLeft(desk: Desk, task: Task, x: Scene, side: Side, offset: nat, now: int, i: nat) returns (o: Order)
    requires Staged(desk, task, x, side, offset) && i < |x.targets| && CanQuote(desk, task.targets, now)
    requires |task.ids| >= |task.targets|
    ensures i < |SideSlots(desk, task)| && LeftAt(desk, task, SideSlots(desk, task), Calm(now), i, o)
  {
    hide StrictLadder, Slots, NoRepeat, KeptAt, SignedOrder;
    PairingPartitions(task.existing, task.targets, desk.cfg.staleBPS);
    StagedIsKept(desk, task, x, side, offset, i, Calm(now)(i));
    if i < x.listed {
      StagedSlot(desk, task, x, side, offset, i);
      o := task.existing[SideSlots(desk, task)[i].order.value];
    } else {
      o := SignedOrder(desk, task.targets[i], task.ids[i], now);
    }
  }

  lemma StagedRests(desk: Desk, task: Task, x: Scene, side: Side, offset: nat, now: int, book: seq<Order>)
    requires Staged(desk, task, x, side, offset) && CanQuote(desk, task.targets, now)
    requires |task.ids| >= |task.targets| && forall k :: 0 <= k < |task.ids| ==> !Protected(desk.cfg, task.ids[k].orderID)
    requires forall o :: o in book && o.side == side <==> o.side == side && LeftBefore(desk, task, SideSlots(desk, task), Calm(now), |SideSlots(desk, task)|, o)
    ensures Rests(desk, x, book, side, now)
  {
    hide Staged, SideSlots, LeftAt, IsFinal, CanQuote, Protected;
    var slots := SideSlots(desk, task);
    StagedSizes(desk, task, x, side, offset);
    forall o | o in book && o.side == side
      ensures !Protected(desk.cfg, o.id) && !ExpiringWithin(o, desk.cfg.expiryMargin, now) && o.price in x.prices
    {
      var i: nat :| i < |slots| && LeftAt(desk, task, slots, Calm(now), i, o);
      StagedLeaves(desk, task, x, side, offset, now, i, o);
    }
    forall o, q | o in book && q in book && o.side == side && q.side == side && o.price == q.price ensures o == q {
      var i: nat :| i < |slots| && LeftAt(desk, task, slots, Calm(now), i, o);
      var k: nat :| k < |slots| && LeftAt(desk, task, slots, Calm(now), k, q);
      StagedLeaves(desk, task, x, side, offset, now, i, o);
      StagedLeaves(desk, task, x, side, offset, now, k, q);
      OneFinalEach(desk, task, Calm(now), i, o, q);
    }
    forall i | 0 <= i < |x.prices| ensures PriceRests(book, side, x.prices[i]) {
      var o := LevelIsLeft(desk, task, x, side, offset, now, i);
      StagedLeaves(desk, task, x, side, offset, now, i, o);
      assert LeftBefore(desk, task, slots, Calm(now), |slots|, o);
    }
  }

  lemma StagedSizes(desk: Desk, task: Task, x: Scene, side: Side, offset: nat)
    requires Staged(desk, task, x, side, offset)
    ensures |x.prices| == |x.targets| && x.targets == task.targets && NoRepeat(x.prices)
  {
  }

  /** Nothing listed has to be cancelled for crossing. */
  ghost predicate Playable(desk: Desk, b: Scene, a: Scene, now: int) {
    && b.listed <= |b.targets| == |b.prices| && a.listed <= |a.targets| == |a.prices|
    && !desk.cfg.dryRun && desk.signer == desk.fee && ScenesFit(desk, b, a)
    && (b.listed > 0 || a.listed > 0 ==> Uncrossed(b.targets, a.targets))
    && CanQuote(desk, b.targets, now) && CanQuote(desk, a.targets, now)
  }

  lemma SceneStages(desk: Desk, b: Scene, a: Scene, now: int)
    requires Playable(desk, b, a, now)
    ensures Staged(desk, BidTask(ScenePlan(desk, b, a)), b, Buy, 0) && Staged(desk, AskTask(ScenePlan(desk, b, a)), a, Sell, 1)
    ensures BookIsClean(desk, ScenePlan(desk, b, a)) && Ladders(b.targets, a.targets)
  {
    hide SceneOrders, Names, SideBook, StrictLadder, NoRepeat, Crosses, CanQuote;
    var p := ScenePlan(desk, b, a);
    SceneIsClean(desk, b, a);
    SideIsListed(desk, p, Buy);
    SideIsListed(desk, p, Sell);
    forall o ensures o in BidTask(p).existing <==> o in SceneOrders(desk, b, 0) {
      ListedIs(desk, b, a, o);
    }
    forall o ensures o in AskTask(p).existing <==> o in SceneOrders(desk, a, 1) {
      ListedIs(desk, b, a, o);
    }
    if Uncrossed(b.targets, a.targets) {
      UncrossedLadders(p);
    }
  }

  function Start(book: seq<Order>): State {
    Opening(book, Budget.Budget([], []), {})
  }

  lemma SceneCompletes(desk: Desk, b: Scene, a: Scene, now: int)
    requires Playable(desk, b, a, now)
    ensures var p := ScenePlan(desk, b, a);
            BookIsClean(desk, p) && Ladders(p.bids, p.asks) && Completed(desk, p, Start(p.listed), Calm(now), Calm(now))
  {
    hide Staged, ScenesFit, SideSlots, SlotStep, CanQuote, BookIsClean, Ladders, NothingHeld, NoneBeside;
    var p := ScenePlan(desk, b, a);
    SceneStages(desk, b, a, now);
    StagedIsSettled(desk, BidTask(p), b, Buy, 0, Start(p.listed), now);
    StagedIsSettled(desk, AskTask(p), a, Sell, 1, RunSide(desk, BidTask(p), Start(p.listed), Calm(now)), now);
    CalmNeverFails(desk, BidTask(p), Start(p.listed), SideSlots(desk, BidTask(p)), now, |SideSlots(desk, BidTask(p))|);
    CalmNeverFails(desk, AskTask(p), RunSide(desk, BidTask(p), Start(p.listed), Calm(now)), SideSlots(desk, AskTask(p)), now, |SideSlots(desk, AskTask(p))|);
  }

  /** The scene and the Sync after it, which has no new identities to place with. */
  function SceneTwice(desk: Desk, b: Scene, a: Scene, now: int): Twice
    requires b.listed <= |b.targets| == |b.prices| && a.listed <= |a.targets| == |a.prices|
  {
    var p := ScenePlan(desk, b, a);
    var book := RunSync(desk, p, Start(p.listed), Calm(now), Calm(now)).book;
    Twice(p, Start(p.listed), Calm(now), Calm(now), p.(listed := book, bidIDs := [], askIDs := []), Start(book), Calm(now), Calm(now))
  }

  lemma NamesAreUnprotected(cfg: Config, n: nat, offset: nat)
    ensures forall k :: 0 <= k < n ==> !Protected(cfg, Names(n, offset)[k].orderID)
  {
    hide Protected;
    forall k | 0 <= k < n ensures !Protected(cfg, Names(n, offset)[k].orderID) {
      BlanksAreUnprotected(cfg, 4 * k + offset);
    }
  }

  lemma SceneRests(desk: Desk, b: Scene, a: Scene, now: int)
    requires Playable(desk, b, a, now)
    ensures var book := SceneTwice(desk, b, a, now).next.listed;
            DistinctIDs(book) && Rests(desk, b, book, Buy, now) && Rests(desk, a, book, Sell, now)
  {
    hide Staged, ScenesFit, SideSlots, CanQuote, BookIsClean, Ladders, Completed, Rests, LeftBefore, SideBook, Protected;
    var p := ScenePlan(desk, b, a);
    SceneStages(desk, b, a, now);
    SceneCompletes(desk, b, a, now);
    BookAfterBoth(desk, p, Start(p.listed), Calm(now), Calm(now));
    NamesAreUnprotected(desk.cfg, |b.targets|, 2);
    NamesAreUnprotected(desk.cfg, |a.targets|, 3);
    var book := SceneTwice(desk, b, a, now).next.listed;
    StagedRests(desk, BidTask(p), b, Buy, 0, now, book);
    StagedRests(desk, AskTask(p), a, Sell, 1, now, book);
  }

  lemma RestsAreNext(desk: Desk, task: Task, x: Scene, side: Side, book: seq<Order>, next: Task, now: int)
    requires Rests(desk, x, book, side, now)
    requires next.existing == SideBook(side, book) && next.targets == task.targets && next.opposite == task.opposite
    ensures NextTask(desk, task, side, Calm(now), book, next, Calm(now))
  {
    hide SideBook, Protected;
    SideBookAll(side, book);
  }

  lemma SceneFollows(desk: Desk, b: Scene, a: Scene, now: int)
    requires Playable(desk, b, a, now)
    ensures Follows(desk, SceneTwice(desk, b, a, now))
  {
    hide ScenesFit, SideSlots, CanQuote, BookIsClean, Ladders, Completed, SideBook, RunSync, Rests, NextTask;
    SceneCompletes(desk, b, a, now);
    SceneRests(desk, b, a, now);
    var t := SceneTwice(desk, b, a, now);
    RestsAreNext(desk, BidTask(t.p), b, Buy, t.next.listed, BidTask(t.next), now);
    RestsAreNext(desk, AskTask(t.p), a, Sell, t.next.listed, AskTask(t.next), now);
  }

  // ----- the second Sync -----

  /** An order of ours that its slot does not keep is cancelled. */
  lemma UnkeptIsSent(desk: Desk, task: Task, st: State, now: int, s: nat)
    requires Unlimited(desk.cfg) && !desk.cfg.dryRun && CanQuote(desk, task.targets, now) && !st.failed && s < |SideSlots(desk, task)|
    requires SideSlots(desk, task)[s].order.Some? && !KeptAt(desk, task, SideSlots(desk, task)[s], Calm(now)(s))
    requires !Protected(desk.cfg, task.existing[SideSlots(desk, task)[s].order.value].id)
    ensures |RunSide(desk, task, st, Calm(now)).sent| > |st.sent| && !RunSide(desk, task, st, Calm(now)).failed
  {
    hide SideSlots, SlotStep, SlotCancel, KeptAt, CanQuote, Protected;
    var slots := SideSlots(desk, task);
    CalmNeverFails(desk, task, st, slots, now, s);
    CalmNeverFails(desk, task, st, slots, now, |slots|);
    SentOnlyGrows(desk, task, slots, st, Calm(now), 0, s);
    SentOnlyGrows(desk, task, slots, st, Calm(now), s + 1, |slots|);
    UnkeptSlotSends(desk, task, RunSlots(desk, task, st, slots, Calm(now), s), slots[s], Calm(now)(s));
  }

  lemma UnkeptSlotSends(desk: Desk, task: Task, st: State, s: Slot, m: Moment)
    requires SlotFits(task, s) && Unlimited(desk.cfg) && !desk.cfg.dryRun && !st.failed && m.cancelReply.Cancelled?
    requires s.order.Some? && !KeptAt(desk, task, s, m) && !Protected(desk.cfg, task.existing[s.order.value].id)
    ensures |SlotStep(desk, task, st, s, m).sent| > |st.sent|
  {
    hide Without, Protected, SignedOrder, CanSign;
    var v := VerdictOn(desk, task.existing[s.order.value], TargetOf(task, s), task.opposite, task.fallback, m.now);
    assert v.Cancel?;
    hide VerdictOn;
  }

  /** How the side is listed the second time: one order at each of the scene's prices. */
  lemma RestsSorted(desk: Desk, x: Scene, book: seq<Order>, side: Side, now: int)
    requires SceneFits(x, side, desk.cfg.staleBPS) && DistinctIDs(book) && Rests(desk, x, book, side, now)
    ensures var existing := SideBook(side, book);
            && OnePerPrice(existing) && (forall i :: 0 <= i < |x.prices| ==> QuotedAt(existing, x.prices[i]))
            && forall e :: 0 <= e < |existing| ==> !Protected(desk.cfg, existing[e].id) && existing[e].side == side
  {
    hide SideBook, Protected, StrictLadder;
    var existing := SideBook(side, book);
    SideBookAll(side, book);
    SideBookSorted(side, book);
    forall e | 0 <= e < |existing| ensures existing[e].price > 0.0 && !Protected(desk.cfg, existing[e].id) && existing[e].side == side {
      assert existing[e] in existing;
    }
    forall e, f | 0 <= e < f < |existing| ensures existing[e].price != existing[f].price {
      assert existing[e] in existing && existing[f] in existing;
    }
    forall i | 0 <= i < |x.prices| ensures QuotedAt(existing, x.prices[i]) {
      assert PriceRests(book, side, x.prices[i]);
      var o :| o in book && o.side == side && o.price == x.prices[i];
      assert o in existing;
    }
  }

  /** The slot an order that no level claims within tolerance ends up in does not keep it. */
  lemma UnclaimedIsUnkept(desk: Desk, task: Task, now: int, e: nat) returns (s: nat)
    requires desk.cfg.staleBPS > 0.0 && e < |task.existing|
    requires e !in PassOne(task.existing, task.targets, desk.cfg.staleBPS, |task.targets|)
    ensures s < |SideSlots(desk, task)| && SideSlots(desk, task)[s].order == Some(e)
    ensures !KeptAt(desk, task, SideSlots(desk, task)[s], Calm(now)(s))
  {
    hide PassOne, Slots;
    var slots := SideSlots(desk, task);
    PairingPartitions(task.existing, task.targets, desk.cfg.staleBPS);
    assert InSomeSlot(slots, e);
    s :| 0 <= s < |slots| && slots[s].order == Some(e);
    if s < |task.targets| && KeptAt(desk, task, slots[s], Calm(now)(s)) {
      KeptIsFirstPass(desk, task, Calm(now), s);
      assert false;
    }
  }

  /** After a scene that leaves a stray order some slot of the side does not keep its order. */
  lemma StrayIsUnkept(desk: Desk, x: Scene, book: seq<Order>, side: Side, task: Task, now: int) returns (s: nat)
    requires SceneFits(x, side, desk.cfg.staleBPS) && DistinctIDs(book) && Rests(desk, x, book, side, now)
    requires task.existing == SideBook(side, book) && task.targets == x.targets
    requires x.listed > 0 && Stray(side, x.targets, desk.cfg.staleBPS, x.listed - 1, x.prices[x.listed - 1])
    ensures s < |SideSlots(desk, task)| && SideSlots(desk, task)[s].order.Some?
    ensures !KeptAt(desk, task, SideSlots(desk, task)[s], Calm(now)(s))
    ensures !Protected(desk.cfg, task.existing[SideSlots(desk, task)[s].order.value].id)
  {
    hide PassOne, Slots, SideBook, KeptAt, Protected, Rests, OnePerPrice;
    var j := x.listed - 1;
    RestsSorted(desk, x, book, side, now);
    StrayIsForgotten(side, task.existing, x.targets, desk.cfg.staleBPS, j, x.prices[j]);
    assert QuotedAt(task.existing, x.prices[j]);
    var e :| 0 <= e < |task.existing| && task.existing[e].price == x.prices[j];
    s := UnclaimedIsUnkept(desk, task, now, e);
  }

  /** Level 0 has its order, and it does not keep it across the other side's best. */
  lemma CrossedIsUnkept(desk: Desk, x: Scene, book: seq<Order>, task: Task, now: int)
    requires SceneFits(x, Buy, desk.cfg.staleBPS) && x.listed == 0 && DistinctIDs(book) && Rests(desk, x, book, Buy, now)
    requires task.existing == SideBook(Buy, book) && task.targets == x.targets != [] && Crosses(Buy, task.targets[0], task.opposite)
    ensures |SideSlots(desk, task)| > 0 && SideSlots(desk, task)[0].order.Some?
    ensures !KeptAt(desk, task, SideSlots(desk, task)[0], Calm(now)(0))
    ensures !Protected(desk.cfg, task.existing[SideSlots(desk, task)[0].order.value].id)
  {
    hide PassOne, SideBook, Protected, Rests, Claims, Unclaimed;
    RestsSorted(desk, x, book, Buy, now);
    assert QuotedAt(task.existing, x.prices[0]);
    ExactAreClaimed(Buy, task.existing, task.targets, desk.cfg.staleBPS, 1);
    SecondPassPairsAreFar(task.existing, task.targets, desk.cfg.staleBPS, 0);
    var o := task.existing[SideSlots(desk, task)[0].order.value];
    assert o.side == Buy;
  }

  lemma BidsChurn(desk: Desk, b: Scene, a: Scene, now: int, s: nat)
    requires Playable(desk, b, a, now) && Unlimited(desk.cfg)
    requires var task := BidTask(SceneTwice(desk, b, a, now).next);
             && s < |SideSlots(desk, task)| && SideSlots(desk, task)[s].order.Some? && !KeptAt(desk, task, SideSlots(desk, task)[s], Calm(now)(s))
             && !Protected(desk.cfg, task.existing[SideSlots(desk, task)[s].order.value].id)
    ensures SecondSends(desk, SceneTwice(desk, b, a, now))
  {
    hide SideSlots, SlotStep, KeptAt, CanQuote, Protected, ScenesFit, SideBook;
    var t := SceneTwice(desk, b, a, now);
    UnkeptIsSent(desk, BidTask(t.next), t.opening, now, s);
    var mid := RunSide(desk, BidTask(t.next), t.opening, Calm(now));
    SentOnlyGrows(desk, AskTask(t.next), SideSlots(desk, AskTask(t.next)), mid, Calm(now), 0, |SideSlots(desk, AskTask(t.next))|);
  }

  lemma AsksChurn(desk: Desk, b: Scene, a: Scene, now: int, s: nat)
    requires Playable(desk, b, a, now) && Unlimited(desk.cfg)
    requires var task := AskTask(SceneTwice(desk, b, a, now).next);
             && s < |SideSlots(desk, task)| && SideSlots(desk, task)[s].order.Some? && !KeptAt(desk, task, SideSlots(desk, task)[s], Calm(now)(s))
             && !Protected(desk.cfg, task.existing[SideSlots(desk, task)[s].order.value].id)
    ensures SecondSends(desk, SceneTwice(desk, b, a, now))
  {
    hide SideSlots, SlotStep, KeptAt, CanQuote, Protected, ScenesFit, SideBook;
    var t := SceneTwice(desk, b, a, now);
    CalmNeverFails(desk, BidTask(t.next), t.opening, SideSlots(desk, BidTask(t.next)), now, |SideSlots(desk, BidTask(t.next))|);
    var mid := RunSide(desk, BidTask(t.next), t.opening, Calm(now));
    UnkeptIsSent(desk, AskTask(t.next), mid, now, s);
  }

  // ----- the ladders that are not left alone -----

  function ExactScene(targets: seq<Quote>): Scene {
    Scene(targets, PricesOf(targets), 0)
  }

  function StrayScene(targets: seq<Quote>, j: nat, a: real): Scene
    requires j < |targets|
  {
    Scene(targets, PricesOf(targets)[j := a], j + 1)
  }

  lemma ExactFits(targets: seq<Quote>, side: Side, tolerance: real)
    requires tolerance > 0.0 && StrictLadder(side, targets) && forall k :: 0 <= k < |targets| ==> targets[k].side == side
    ensures SceneFits(ExactScene(targets), side, tolerance)
  {
  }

  lemma StrayFits(targets: seq<Quote>, side: Side, tolerance: real, j: nat, a: real)
    requires tolerance > 0.0 && StrictLadder(side, targets) && forall k :: 0 <= k < |targets| ==> targets[k].side == side
    requires j < |targets| && Stray(side, targets, tolerance, j, a)
    ensures SceneFits(StrayScene(targets, j, a), side, tolerance)
  {
    var x := StrayScene(targets, j, a);
    forall i | 0 <= i < x.listed ensures Closer(PriceDrift(x.prices[i], x.targets[i].price), Bps(tolerance)) {
      DriftIsZero(targets[i].price, targets[i].price);
    }
  }

  /** What a desk needs for these ladders to be put on the book at all, without limits. */
  ghost predicate Quoting(desk: Desk, bids: seq<Quote>, asks: seq<Quote>, now: int) {
    && !desk.cfg.dryRun && desk.signer == desk.fee && Unlimited(desk.cfg) && 0.0 < desk.cfg.staleBPS < 10000.0
    && Ladders(bids, asks) && CanQuote(desk, bids, now) && CanQuote(desk, asks, now)
  }

  lemma CrossedIsNotLeftAlone(desk: Desk, bids: seq<Quote>, asks: seq<Quote>, now: int) returns (t: Twice)
    requires Quoting(desk, bids, asks, now) && !Uncrossed(bids, asks)
    ensures Follows(desk, t) && t.p.bids == bids && t.p.asks == asks && SecondSends(desk, t)
  {
    hide CanQuote, StrictLadder, SceneFits, SideSlots, SideBook, KeptAt, RunSync, Rests, Follows, SecondSends;
    var b, a := ExactScene(bids), ExactScene(asks);
    ExactFits(bids, Buy, desk.cfg.staleBPS);
    ExactFits(asks, Sell, desk.cfg.staleBPS);
    t := SceneTwice(desk, b, a, now);
    SceneFollows(desk, b, a, now);
    SceneRests(desk, b, a, now);
    CrossedIsUnkept(desk, b, t.next.listed, BidTask(t.next), now);
    BidsChurn(desk, b, a, now, 0);
  }

  lemma CrowdedBidsAreNotLeftAlone(desk: Desk, bids: seq<Quote>, asks: seq<Quote>, now: int) returns (t: Twice)
    requires Quoting(desk, bids, asks, now) && Uncrossed(bids, asks) && !Spaced(bids, desk.cfg.staleBPS)
    ensures Follows(desk, t) && t.p.bids == bids && t.p.asks == asks && SecondSends(desk, t)
  {
    hide CanQuote, StrictLadder, SceneFits, SideSlots, SideBook, KeptAt, RunSync, Rests, Follows, SecondSends, Stray, Uncrossed, Spaced;
    var j, price := StrayExists(Buy, bids, desk.cfg.staleBPS);
    var b, a := StrayScene(bids, j, price), ExactScene(asks);
    StrayFits(bids, Buy, desk.cfg.staleBPS, j, price);
    ExactFits(asks, Sell, desk.cfg.staleBPS);
    t := SceneTwice(desk, b, a, now);
    SceneFollows(desk, b, a, now);
    SceneRests(desk, b, a, now);
    var s := StrayIsUnkept(desk, b, t.next.listed, Buy, BidTask(t.next), now);
    BidsChurn(desk, b, a, now, s);
  }

  lemma CrowdedAsksAreNotLeftAlone(desk: Desk, bids: seq<Quote>, asks: seq<Quote>, now: int) returns (t: Twice)
    requires Quoting(desk, bids, asks, now) && Uncrossed(bids, asks) && !Spaced(asks, desk.cfg.staleBPS)
    ensures Follows(desk, t) && t.p.bids == bids && t.p.asks == asks && SecondSends(desk, t)
  {
    hide CanQuote, StrictLadder, SceneFits, SideSlots, SideBook, KeptAt, RunSync, Rests, Follows, SecondSends, Stray, Uncrossed, Spaced;
    var j, price := StrayExists(Sell, asks, desk.cfg.staleBPS);
    var b, a := ExactScene(bids), StrayScene(asks, j, price);
    ExactFits(bids, Buy, desk.cfg.staleBPS);
    StrayFits(asks, Sell, desk.cfg.staleBPS, j, price);
    t := SceneTwice(desk, b, a, now);
    SceneFollows(desk, b, a, now);
    SceneRests(desk, b, a, now);
    var s := StrayIsUnkept(desk, a, t.next.listed, Sell, AskTask(t.next), now);
    AsksChurn(desk, b, a, now, s);
  }

  /** Quiescence, exactly: for strict ladders that can be quoted, without limits and with a tolerance under
      the whole price, every Sync accepted in full over a clean book is followed by one that sends nothing
      if and only if both ladders are spaced by the tolerance and do not cross. */
  lemma LeftAloneIffRestful(desk: Desk, bids: seq<Quote>, asks: seq<Quote>, now: int)
    requires Quoting(desk, bids, asks, now)
    ensures AlwaysLeftAlone(desk, bids, asks) <==> Restful(bids, asks, desk.cfg.staleBPS)
  {
    hide CanQuote, StrictLadder, Follows, SecondSends, Spaced, Uncrossed;
    if Restful(bids, asks, desk.cfg.staleBPS) {
      RestfulIsLeftAlone(desk, bids, asks);
    } else if !Uncrossed(bids, asks) {
      var t := CrossedIsNotLeftAlone(desk, bids, asks, now);
    } else if !Spaced(bids, desk.cfg.staleBPS) {
      var t := CrowdedBidsAreNotLeftAlone(desk, bids, asks, now);
    } else {
      var t := CrowdedAsksAreNotLeftAlone(desk, bids, asks, now);
    }
  }
}
