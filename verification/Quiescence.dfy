/** A reconciled book is left alone: once a Sync has been accepted in full, the next Sync against the
    same targets sends nothing. */
module Quiescence {
  import opened Market
  import opened Pairing
  import opened PairingLaws
  import opened PairingFixpoint
  import opened Decision
  import opened Reconcile
  import opened ReconcileLaws
  import opened ReconcileTerms
  import opened ReconcileRequests
  import opened SettledBook

  // ----- the sorted side -----

  ghost predicate WeaklySorted(side: Side, orders: seq<Order>) {
    forall i, j :: 0 <= i < j < |orders| ==> !Better(side, orders[j].price, orders[i].price)
  }

  lemma {:induction false} InsertSorted(side: Side, sorted: seq<Order>, o: Order)
    requires WeaklySorted(side, sorted)
    ensures WeaklySorted(side, Insert(side, sorted, o))
  {
    if sorted != [] && Better(side, o.price, sorted[|sorted| - 1].price) {
      var init, last := sorted[..|sorted| - 1], sorted[|sorted| - 1];
      InsertSorted(side, init, o);
      var front := Insert(side, init, o);
      forall i | 0 <= i < |front| ensures !Better(side, last.price, front[i].price) {
        InsertIs(side, init, o, front[i]);
        assert front[i] in front;
      }
    }
  }

  lemma {:induction false} InsertDistinct(side: Side, sorted: seq<Order>, o: Order)
    requires DistinctIDs(sorted) && forall x :: x in sorted ==> x.id != o.id
    ensures DistinctIDs(Insert(side, sorted, o))
  {
    if sorted != [] && Better(side, o.price, sorted[|sorted| - 1].price) {
      var init, last := sorted[..|sorted| - 1], sorted[|sorted| - 1];
      InsertDistinct(side, init, o);
      var front := Insert(side, init, o);
      forall i | 0 <= i < |front| ensures front[i].id != last.id {
        InsertIs(side, init, o, front[i]);
        assert front[i] in front && last in sorted;
      }
    }
  }

  lemma {:induction false} SideBookSorted(side: Side, orders: seq<Order>)
    requires DistinctIDs(orders)
    ensures WeaklySorted(side, SideBook(side, orders)) && DistinctIDs(SideBook(side, orders))
  {
    if orders != [] {
      var init, last := orders[..|orders| - 1], orders[|orders| - 1];
      SideBookSorted(side, init);
      SideBookAll(side, init);
      InsertSorted(side, SideBook(side, init), last);
      forall x | x in SideBook(side, init) ensures x.id != last.id {
        var i :| 0 <= i < |init| && init[i] == x;
        assert orders[i] == x;
      }
      InsertDistinct(side, SideBook(side, init), last);
    }
  }

  ghost predicate DistinctPrices(side: Side, orders: seq<Order>) {
    forall x, y :: x in orders && y in orders && x.side == side && y.side == side && x != y ==> x.price != y.price
  }

  lemma SideBookStrict(side: Side, orders: seq<Order>)
    requires DistinctIDs(orders) && DistinctPrices(side, orders)
    ensures StrictlySorted(side, SideBook(side, orders))
  {
    var s := SideBook(side, orders);
    SideBookSorted(side, orders);
    SideBookAll(side, orders);
    forall i, j | 0 <= i < j < |s| ensures Better(side, s[i].price, s[j].price) {
      assert s[i] in s && s[j] in s && s[i] != s[j];
    }
  }

  // ----- verdicts the second time round -----

  lemma KeptIsKeptAgain(
    desk: Desk, o: Order, target: Option<Quote>, opposite: Option<Quote>, fallback: Option<int>, now: int,
    fallback': Option<int>, later: int)
    requires VerdictOn(desk, o, target, opposite, fallback, now).Keep?
    requires now <= later && (ExpiringWithin(o, desk.cfg.expiryMargin, later) ==> Protected(desk.cfg, o.id))
    ensures VerdictOn(desk, o, target, opposite, fallback', later).Keep?
  {
  }

  lemma PlacedIsKept(desk: Desk, q: Quote, opposite: Option<Quote>, id: Identity, now: int, fallback: Option<int>, later: int)
    requires CanSign(desk, q, now) && desk.signer == desk.fee
    requires q.price > 0.0 && desk.cfg.staleBPS > 0.0 && !Crosses(q.side, q, opposite)
    requires now <= later
    requires ExpiringWithin(SignedOrder(desk, q, id, now), desk.cfg.expiryMargin, later) ==> Protected(desk.cfg, id.orderID)
    ensures VerdictOn(desk, SignedOrder(desk, q, id, now), Some(q), opposite, fallback, later).Keep?
  {
    DriftIsZero(q.price, q.price);
  }

  /** A pair the verdict keeps was made by the first pass: it is within tolerance. */
  lemma KeptIsFirstPass(desk: Desk, task: Task, moments: nat -> Moment, k: nat)
    requires desk.cfg.staleBPS > 0.0 && k < |task.targets|
    requires KeptAt(desk, task, SideSlots(desk, task)[k], moments(k))
    ensures var c := PassOne(task.existing, task.targets, desk.cfg.staleBPS, |task.targets|);
            && c[k] >= 0 && SideSlots(desk, task)[k].order == Some(c[k])
            && Closer(PriceDrift(task.existing[c[k]].price, task.targets[k].price), Bps(desk.cfg.staleBPS))
  {
    SecondPassPairsAreFar(task.existing, task.targets, desk.cfg.staleBPS, k);
  }

  // ----- one side -----

  /** A protected order that a level claimed within tolerance was kept for it. One that was not frees its
      level without leaving it, and another order is placed beside it. */
  ghost predicate NoneBeside(desk: Desk, task: Task, slots: seq<Slot>, moments: nat -> Moment)
    requires SlotsFit(task, slots)
  {
    forall k: nat :: k < |slots| && slots[k].order.Some? && slots[k].target.Some? ==>
      var o := task.existing[slots[k].order.value];
      Protected(desk.cfg, o.id) && Closer(PriceDrift(o.price, task.targets[slots[k].target.value].price), Bps(desk.cfg.staleBPS)) ==>
      KeptAt(desk, task, slots[k], moments(k))
  }

  /** A strict, spaced ladder of positive prices that does not cross the opposite best, reconciled in
      full over a side with one order a price, under the schedule new orders are signed against. */
  ghost predicate SideSetting(desk: Desk, task: Task, side: Side, st: State, moments: nat -> Moment) {
    && desk.cfg.staleBPS > 0.0 && desk.signer == desk.fee
    && StrictLadder(side, task.targets) && Spaced(task.targets, desk.cfg.staleBPS)
    && (forall k :: 0 <= k < |task.targets| ==> !Crosses(side, task.targets[k], task.opposite))
    && StrictlySorted(side, task.existing)
    && SideReady(desk, task, side, st.book) && Smooth(moments)
    && NothingHeld(desk, task, st, SideSlots(desk, task), moments)
    && NoneBeside(desk, task, SideSlots(desk, task), moments)
    && !RunSide(desk, task, st, moments).failed
  }

  lemma FinalPricesDiffer(desk: Desk, task: Task, side: Side, st: State, moments: nat -> Moment, j: nat, k: nat, x: Order, y: Order)
    requires SideSetting(desk, task, side, st, moments)
    requires j < k < |task.targets| <= |SideSlots(desk, task)|
    requires IsFinal(desk, task, SideSlots(desk, task), moments, j, x)
    requires IsFinal(desk, task, SideSlots(desk, task), moments, k, y)
    ensures x.price != y.price
  {
    hide VerdictOn, SideReady, Smooth, NothingHeld, NoneBeside, RunSide, PassOne, Slots;
    var slots, tolerance := SideSlots(desk, task), desk.cfg.staleBPS;
    PairingPartitions(task.existing, task.targets, tolerance);
    var c := PassOne(task.existing, task.targets, tolerance, |task.targets|);
    var keptJ, keptK := KeptAt(desk, task, slots[j], moments(j)), KeptAt(desk, task, slots[k], moments(k));
    if keptJ {
      KeptIsFirstPass(desk, task, moments, j);
    }
    if keptK {
      KeptIsFirstPass(desk, task, moments, k);
    }
    if keptJ && keptK {
      PassOneInjective(task.existing, task.targets, tolerance, |task.targets|);
    } else if !keptJ && keptK && x.price == y.price {
      FreeAtLevel(task.existing, task.targets, tolerance, j, c[k]);
      ExactIsClaimed(side, task.existing, task.targets, tolerance, j, c[k]);
      PassOneInjective(task.existing, task.targets, tolerance, |task.targets|);
    }
  }

  /** Every level ends up with an order. */
  lemma LevelIsFilled(desk: Desk, task: Task, side: Side, st: State, moments: nat -> Moment, k: nat) returns (o: Order)
    requires SideSetting(desk, task, side, st, moments) && !st.failed
    requires k < |task.targets| <= |SideSlots(desk, task)|
    ensures IsFinal(desk, task, SideSlots(desk, task), moments, k, o)
  {
    hide VerdictOn, SlotCancel, PlacePhase, Spaced, StrictLadder, StrictlySorted, NoneBeside, Slots, Crosses;
    var slots := SideSlots(desk, task);
    PairingPartitions(task.existing, task.targets, desk.cfg.staleBPS);
    if KeptAt(desk, task, slots[k], moments(k)) {
      o := task.existing[slots[k].order.value];
    } else {
      var before := RunSlots(desk, task, st, slots, moments, k);
      if before.failed {
        FailureIsFinal(desk, task, st, slots, moments, k, |slots|);
      }
      if RunSlots(desk, task, st, slots, moments, k + 1).failed {
        FailureIsFinal(desk, task, st, slots, moments, k + 1, |slots|);
      }
      if slots[k].order.Some? {
        assert task.existing[slots[k].order.value] in task.existing;
      }
      SmoothSlot(desk, task, before, slots, moments, k);
      o := SignedOrder(desk, task.targets[k], task.ids[k], moments(k).now);
    }
  }

  /** Where each level's order is in the sorted side. */
  lemma {:induction false} Locate(
    desk: Desk, task: Task, side: Side, st: State, moments: nat -> Moment, sorted: seq<Order>, n: nat) returns (at: seq<nat>)
    requires SideSetting(desk, task, side, st, moments) && !st.failed
    requires n <= |task.targets| <= |SideSlots(desk, task)|
    requires forall o :: LeftBefore(desk, task, SideSlots(desk, task), moments, |SideSlots(desk, task)|, o) ==> o in sorted
    ensures |at| == n
    ensures forall k :: 0 <= k < n ==> at[k] < |sorted| && IsFinal(desk, task, SideSlots(desk, task), moments, k, sorted[at[k]])
  {
    hide SideSetting, IsFinal, Stands, LeftBefore;
    if n == 0 {
      at := [];
    } else {
      var before := Locate(desk, task, side, st, moments, sorted, n - 1);
      var o := LevelIsFilled(desk, task, side, st, moments, n - 1);
      FinalIsLeft(desk, task, moments, n - 1, o);
      var i :| 0 <= i < |sorted| && sorted[i] == o;
      at := before + [i];
    }
  }

  lemma FinalIsLeft(desk: Desk, task: Task, moments: nat -> Moment, k: nat, o: Order)
    requires k < |task.targets| <= |SideSlots(desk, task)| && IsFinal(desk, task, SideSlots(desk, task), moments, k, o)
    ensures LeftBefore(desk, task, SideSlots(desk, task), moments, |SideSlots(desk, task)|, o)
  {
    hide IsFinal, SideSlots;
    assert LeftAt(desk, task, SideSlots(desk, task), moments, k, o);
  }

  lemma OneFinalEach(desk: Desk, task: Task, moments: nat -> Moment, k: nat, x: Order, y: Order)
    requires k < |SideSlots(desk, task)|
    requires IsFinal(desk, task, SideSlots(desk, task), moments, k, x) && IsFinal(desk, task, SideSlots(desk, task), moments, k, y)
    ensures x == y
  {
  }

  lemma FinalIsKeptOrPlaced(desk: Desk, task: Task, moments: nat -> Moment, k: nat, o: Order)
    requires desk.cfg.staleBPS > 0.0 && k < |task.targets| <= |SideSlots(desk, task)|
    requires IsFinal(desk, task, SideSlots(desk, task), moments, k, o)
    ensures KeptOrPlaced(task.existing, task.targets, desk.cfg.staleBPS, o, k)
  {
    hide VerdictOn;
    if KeptAt(desk, task, SideSlots(desk, task)[k], moments(k)) {
      KeptIsFirstPass(desk, task, moments, k);
    }
  }

  /** The slot of an order that pass one gave to a level is that level's, and the two are within tolerance. */
  lemma ClaimedSlot(existing: seq<Order>, targets: seq<Quote>, tolerance: real, i: nat) returns (l: nat)
    requires tolerance > 0.0 && i < |Slots(existing, targets, tolerance)| && Slots(existing, targets, tolerance)[i].order.Some?
    requires Slots(existing, targets, tolerance)[i].order.value in PassOne(existing, targets, tolerance, |targets|)
    ensures l == i < |targets| && Slots(existing, targets, tolerance)[i].target == Some(i)
    ensures Closer(DriftOf(existing, Slots(existing, targets, tolerance)[i].order.value, targets[i]), Bps(tolerance))
  {
    hide Nearest;
    var slots, one := Slots(existing, targets, tolerance), PassOne(existing, targets, tolerance, |targets|);
    var x := slots[i].order.value;
    l :| 0 <= l < |one| && one[l] == x;
    SecondPassPairsAreFar(existing, targets, tolerance, l);
    PairingPartitions(existing, targets, tolerance);
    assert slots[l].order == Some(x);
  }

  lemma ClaimedIsKept(desk: Desk, task: Task, moments: nat -> Moment, i: nat)
    requires desk.cfg.staleBPS > 0.0 && i < |SideSlots(desk, task)| && NoneBeside(desk, task, SideSlots(desk, task), moments)
    requires SideSlots(desk, task)[i].order.Some? && Protected(desk.cfg, task.existing[SideSlots(desk, task)[i].order.value].id)
    requires SideSlots(desk, task)[i].order.value in PassOne(task.existing, task.targets, desk.cfg.staleBPS, |task.targets|)
    ensures KeptAt(desk, task, SideSlots(desk, task)[i], moments(i))
  {
    hide KeptAt, Slots, PassOne, Protected;
    var l := ClaimedSlot(task.existing, task.targets, desk.cfg.staleBPS, i);
  }

  lemma StandingIsLeftOver(desk: Desk, task: Task, side: Side, st: State, moments: nat -> Moment, i: nat, o: Order)
    requires SideSetting(desk, task, side, st, moments) && i < |SideSlots(desk, task)|
    requires Stands(desk, task, SideSlots(desk, task)[i], moments(i), o)
    ensures LeftOver(task.existing, task.targets, desk.cfg.staleBPS, o)
    ensures var x := SideSlots(desk, task)[i].order.value;
            x < |task.existing| && task.existing[x] == o && x !in PassOne(task.existing, task.targets, desk.cfg.staleBPS, |task.targets|)
  {
    hide VerdictOn, SideReady, Smooth, NothingHeld, RunSide, StrictLadder, StrictlySorted, Spaced, Protected, Slots, PassOne;
    var slots, tolerance := SideSlots(desk, task), desk.cfg.staleBPS;
    assert SlotFits(task, slots[i]);
    if slots[i].order.value in PassOne(task.existing, task.targets, tolerance, |task.targets|) {
      ClaimedIsKept(desk, task, moments, i);
    }
  }

  /** A placed order is at no standing order's price. */
  lemma StandingApart(desk: Desk, task: Task, side: Side, st: State, moments: nat -> Moment, k: nat, i: nat, x: Order, y: Order)
    requires SideSetting(desk, task, side, st, moments) && k < |task.targets| <= |SideSlots(desk, task)| && i < |SideSlots(desk, task)|
    requires IsFinal(desk, task, SideSlots(desk, task), moments, k, x)
    requires Stands(desk, task, SideSlots(desk, task)[i], moments(i), y)
    ensures x.price != y.price
  {
    hide VerdictOn, SideReady, Smooth, NothingHeld, NoneBeside, RunSide, Spaced, Protected, Slots, PassOne;
    var tolerance := desk.cfg.staleBPS;
    StandingIsLeftOver(desk, task, side, st, moments, i, y);
    var e := SideSlots(desk, task)[i].order.value;
    assert SlotFits(task, SideSlots(desk, task)[i]);
    assert SideSlots(desk, task)[k].target == Some(k) by {
      PairingPartitions(task.existing, task.targets, tolerance);
    }
    if KeptAt(desk, task, SideSlots(desk, task)[k], moments(k)) {
      KeptIsFirstPass(desk, task, moments, k);
    } else if x.price == y.price {
      FreeAtLevel(task.existing, task.targets, tolerance, k, e);
      ExactIsClaimed(side, task.existing, task.targets, tolerance, k, e);
    }
  }

  /** Everything left on the side is at its own price. */
  lemma LeftApart(desk: Desk, task: Task, side: Side, st: State, moments: nat -> Moment, x: Order, y: Order)
    requires SideSetting(desk, task, side, st, moments) && |task.targets| <= |SideSlots(desk, task)|
    requires LeftBefore(desk, task, SideSlots(desk, task), moments, |SideSlots(desk, task)|, x)
    requires LeftBefore(desk, task, SideSlots(desk, task), moments, |SideSlots(desk, task)|, y)
    requires x != y
    ensures x.price != y.price
  {
    hide IsFinal, SideSetting, Stands, PassOne, Slots;
    var slots := SideSlots(desk, task);
    var j: nat :| j < |slots| && LeftAt(desk, task, slots, moments, j, x);
    var k: nat :| k < |slots| && LeftAt(desk, task, slots, moments, k, y);
    var finalX := j < |task.targets| && IsFinal(desk, task, slots, moments, j, x);
    var finalY := k < |task.targets| && IsFinal(desk, task, slots, moments, k, y);
    if finalX && finalY {
      if j < k {
        FinalPricesDiffer(desk, task, side, st, moments, j, k, x, y);
      } else if k < j {
        FinalPricesDiffer(desk, task, side, st, moments, k, j, y, x);
      } else {
        OneFinalEach(desk, task, moments, k, x, y);
      }
    } else if finalX {
      StandingApart(desk, task, side, st, moments, j, k, x, y);
    } else if finalY {
      StandingApart(desk, task, side, st, moments, k, j, y, x);
    } else {
      StandingIsLeftOver(desk, task, side, st, moments, j, x);
      StandingIsLeftOver(desk, task, side, st, moments, k, y);
      SortedPricesDiffer(desk, task, side, st, moments, x, y);
    }
  }

  lemma SortedPricesDiffer(desk: Desk, task: Task, side: Side, st: State, moments: nat -> Moment, x: Order, y: Order)
    requires SideSetting(desk, task, side, st, moments) && x in task.existing && y in task.existing && x != y
    ensures x.price != y.price
  {
    hide SideReady, NothingHeld, NoneBeside, RunSide, Spaced, StrictLadder, Smooth;
  }

  /** The sorted side of the settled book is what re-pairing expects: one order a level, and protected
      orders no level claimed. */
  lemma SettledSideIsReconciled(desk: Desk, task: Task, side: Side, st: State, moments: nat -> Moment, book: seq<Order>) returns (at: seq<nat>)
    requires SideSetting(desk, task, side, st, moments) && !st.failed
    requires DistinctIDs(book) && |task.targets| <= |SideSlots(desk, task)|
    requires forall o :: o in book && o.side == side <==> o.side == side && LeftBefore(desk, task, SideSlots(desk, task), moments, |SideSlots(desk, task)|, o)
    requires forall o :: LeftBefore(desk, task, SideSlots(desk, task), moments, |SideSlots(desk, task)|, o) ==> o.side == side
    ensures Reconciled(side, task.existing, task.targets, desk.cfg.staleBPS, SideBook(side, book), at)
    ensures forall k :: 0 <= k < |at| ==> IsFinal(desk, task, SideSlots(desk, task), moments, k, SideBook(side, book)[at[k]])
    ensures forall i :: 0 <= i < |SideBook(side, book)| ==> i in at || Protected(desk.cfg, SideBook(side, book)[i].id)
  {
    hide IsFinal, SideReady, Smooth, NothingHeld, NoneBeside, RunSide, VerdictOn, Slots, PassOne, Protected, LeftOver;
    var sorted := SideBook(side, book);
    SideBookAll(side, book);
    var slots := SideSlots(desk, task);
    forall x, y | x in book && y in book && x.side == side && y.side == side && x != y ensures x.price != y.price {
      LeftApart(desk, task, side, st, moments, x, y);
    }
    SideBookStrict(side, book);
    at := Locate(desk, task, side, st, moments, sorted, |task.targets|);
    forall k | 0 <= k < |at| ensures KeptOrPlaced(task.existing, task.targets, desk.cfg.staleBPS, sorted[at[k]], k) {
      FinalIsKeptOrPlaced(desk, task, moments, k, sorted[at[k]]);
    }
    forall j, k | 0 <= j < k < |at| ensures at[j] != at[k] {
      FinalPricesDiffer(desk, task, side, st, moments, j, k, sorted[at[j]], sorted[at[k]]);
    }
    forall i | 0 <= i < |sorted|
      ensures i in at || (LeftOver(task.existing, task.targets, desk.cfg.staleBPS, sorted[i]) && Protected(desk.cfg, sorted[i].id))
    {
      assert sorted[i] in sorted;
      LeftIsPlacedSomewhere(desk, task, side, st, moments, sorted, at, i);
    }
  }

  lemma LeftIsPlacedSomewhere(
    desk: Desk, task: Task, side: Side, st: State, moments: nat -> Moment, sorted: seq<Order>, at: seq<nat>, i: nat)
    requires SideSetting(desk, task, side, st, moments) && |at| == |task.targets| <= |SideSlots(desk, task)| && i < |sorted|
    requires StrictlySorted(side, sorted)
    requires forall k :: 0 <= k < |at| ==> at[k] < |sorted| && IsFinal(desk, task, SideSlots(desk, task), moments, k, sorted[at[k]])
    requires LeftBefore(desk, task, SideSlots(desk, task), moments, |SideSlots(desk, task)|, sorted[i])
    ensures i in at || (LeftOver(task.existing, task.targets, desk.cfg.staleBPS, sorted[i]) && Protected(desk.cfg, sorted[i].id))
  {
    hide IsFinal, SideSetting, PassOne, Slots, LeftOver, Protected;
    var slots := SideSlots(desk, task);
    var k: nat :| k < |slots| && LeftAt(desk, task, slots, moments, k, sorted[i]);
    if k < |task.targets| && IsFinal(desk, task, slots, moments, k, sorted[i]) {
      OneFinalEach(desk, task, moments, k, sorted[i], sorted[at[k]]);
      assert at[k] == i;
    } else {
      StandingIsLeftOver(desk, task, side, st, moments, k, sorted[i]);
    }
  }

  // ----- the second time round -----

  /** What the next cycle reconciles: the same targets against the book as it now lists, on a clock
      that has not gone back, with nothing of ours inside its replace margin. */
  ghost predicate NextTask(desk: Desk, task: Task, side: Side, moments: nat -> Moment, book: seq<Order>, next: Task, later: nat -> Moment) {
    && next.existing == SideBook(side, book) && next.targets == task.targets && next.opposite == task.opposite
    && (forall i: nat, j: nat :: moments(i).now <= later(j).now)
    && forall o, j: nat :: o in next.existing && ExpiringWithin(o, desk.cfg.expiryMargin, later(j).now) ==> Protected(desk.cfg, o.id)
  }

  lemma FinalIsKeptAgain(desk: Desk, task: Task, side: Side, st: State, moments: nat -> Moment, k: nat, o: Order, fallback: Option<int>, later: int)
    requires SideSetting(desk, task, side, st, moments)
    requires k < |task.targets| <= |SideSlots(desk, task)|
    requires IsFinal(desk, task, SideSlots(desk, task), moments, k, o)
    requires moments(k).now <= later && (ExpiringWithin(o, desk.cfg.expiryMargin, later) ==> Protected(desk.cfg, o.id))
    ensures VerdictOn(desk, o, Some(task.targets[k]), task.opposite, fallback, later).Keep?
  {
    hide VerdictOn, Smooth, NothingHeld, RunSide, Slots;
    var slots := SideSlots(desk, task);
    PairingPartitions(task.existing, task.targets, desk.cfg.staleBPS);
    assert slots[k].target == Some(k);
    if KeptAt(desk, task, slots[k], moments(k)) {
      KeptIsKeptAgain(desk, o, Some(task.targets[k]), task.opposite, task.fallback, moments(k).now, fallback, later);
    } else {
      PlacedIsKept(desk, task.targets[k], task.opposite, task.ids[k], moments(k).now, fallback, later);
    }
  }

  /** A slot that asks for nothing: its order is kept, or it is a protected one no level wants. */
  ghost predicate AtRest(desk: Desk, task: Task, s: Slot, m: Moment)
    requires SlotFits(task, s)
  {
    KeptAt(desk, task, s, m) || (s.order.Some? && s.target.None? && Protected(desk.cfg, task.existing[s.order.value].id))
  }

  /** Nothing sent, nothing noted as cancelled, no cancel budget spent. The result reports a change only
      where a protected order stands unclaimed. */
  ghost predicate Untouched(desk: Desk, existing: seq<Order>, before: State, after: State) {
    && !after.failed && after.sent == before.sent && after.cancelled == before.cancelled && after.budget == before.budget
    && ((forall o :: o in existing ==> !Protected(desk.cfg, o.id)) ==> after.changed == before.changed)
  }

  lemma NoTargetIsCancelled(desk: Desk, o: Order, opposite: Option<Quote>, fallback: Option<int>, now: int)
    ensures VerdictOn(desk, o, None, opposite, fallback, now) == Cancel(NoTarget, false)
  {
  }

  lemma RestingSlotSendsNothing(desk: Desk, task: Task, st: State, s: Slot, m: Moment)
    requires SlotFits(task, s) && !st.failed && AtRest(desk, task, s, m)
    ensures var after := SlotStep(desk, task, st, s, m);
            Untouched(desk, task.existing, st, after) && (m.departed == {} ==> after.book == st.book)
  {
    hide VerdictOn, PlacePhase, Protected;
    WithoutNothing(st.book);
    var o := task.existing[s.order.value];
    assert o in task.existing;
    NoTargetIsCancelled(desk, o, task.opposite, task.fallback, m.now);
  }

  /** A run in which every slot is at rest sends nothing, and leaves the book as it was if nothing else
      happens to it. */
  lemma {:induction false} AllAtRestSendsNothing(desk: Desk, task: Task, st: State, slots: seq<Slot>, moments: nat -> Moment, k: nat)
    requires SlotsFit(task, slots) && k <= |slots| && !st.failed
    requires forall i: nat :: i < |slots| ==> AtRest(desk, task, slots[i], moments(i))
    ensures var now := RunSlots(desk, task, st, slots, moments, k);
            Untouched(desk, task.existing, st, now) && (Smooth(moments) ==> now.book == st.book)
  {
    hide SlotStep, AtRest, Protected;
    if k > 0 {
      AllAtRestSendsNothing(desk, task, st, slots, moments, k - 1);
      RestingSlotSendsNothing(desk, task, RunSlots(desk, task, st, slots, moments, k - 1), slots[k - 1], moments(k - 1));
    }
  }

  lemma SecondRunIsQuiet(
    desk: Desk, task: Task, side: Side, st: State, moments: nat -> Moment, book: seq<Order>, at: seq<nat>,
    next: Task, later: nat -> Moment, opening: State)
    requires SideSetting(desk, task, side, st, moments) && |task.targets| <= |SideSlots(desk, task)|
    requires Reconciled(side, task.existing, task.targets, desk.cfg.staleBPS, SideBook(side, book), at)
    requires forall k :: 0 <= k < |at| ==> IsFinal(desk, task, SideSlots(desk, task), moments, k, SideBook(side, book)[at[k]])
    requires forall i :: 0 <= i < |SideBook(side, book)| ==> i in at || Protected(desk.cfg, SideBook(side, book)[i].id)
    requires NextTask(desk, task, side, moments, book, next, later) && !opening.failed
    ensures var end := RunSide(desk, next, opening, later);
            Untouched(desk, next.existing, opening, end) && (Smooth(later) ==> end.book == opening.book)
  {
    hide IsFinal, SideSetting, VerdictOn, Reconciled, Protected, Unclaimed, Smooth;
    RepairingIsFixed(side, task.existing, task.targets, desk.cfg.staleBPS, SideBook(side, book), at);
    var slots := SideSlots(desk, next);
    AtIsLevels(side, task, desk.cfg.staleBPS, SideBook(side, book), at);
    UnclaimedIs(at, |next.existing|);
    forall i: nat | i < |slots| ensures AtRest(desk, next, slots[i], later(i)) {
      if i < |at| {
        var o := next.existing[at[i]];
        assert o in next.existing;
        FinalIsKeptAgain(desk, task, side, st, moments, i, o, next.fallback, later(i).now);
      } else {
        assert slots[i] == Unclaimed(at, |next.existing|)[i - |at|];
      }
    }
    AllAtRestSendsNothing(desk, next, opening, slots, later, |slots|);
  }

  lemma AtIsLevels(side: Side, task: Task, tolerance: real, book: seq<Order>, at: seq<nat>)
    requires Reconciled(side, task.existing, task.targets, tolerance, book, at)
    ensures tolerance > 0.0 && |at| == |task.targets| && forall k :: 0 <= k < |at| ==> at[k] < |book|
  {
  }

  // ----- both sides -----

  /** One listed order a price on each side, a fresh identity for every level, and new orders signed
      under the schedule resting ones are judged by. */
  ghost predicate BookIsClean(desk: Desk, p: Plan) {
    && !desk.cfg.dryRun && desk.cfg.staleBPS > 0.0 && desk.signer == desk.fee
    && DistinctIDs(p.listed) && DistinctPrices(Buy, p.listed) && DistinctPrices(Sell, p.listed)
    && |p.bidIDs| >= |p.bids| && |p.askIDs| >= |p.asks|
    && FreshIdentities(p.bidIDs, p.listed) && FreshIdentities(p.askIDs, p.listed)
    && forall i, j :: 0 <= i < |p.bidIDs| && 0 <= j < |p.askIDs| ==> p.bidIDs[i].orderID != p.askIDs[j].orderID
  }

  /** Two ladders of positive prices, each strictly best first. */
  ghost predicate Ladders(bids: seq<Quote>, asks: seq<Quote>) {
    && StrictLadder(Buy, bids) && StrictLadder(Sell, asks)
    && (forall k :: 0 <= k < |bids| ==> bids[k].side == Buy) && forall k :: 0 <= k < |asks| ==> asks[k].side == Sell
  }

  ghost predicate Uncrossed(bids: seq<Quote>, asks: seq<Quote>) {
    bids != [] && asks != [] ==> bids[0].price < asks[0].price
  }

  /** Spaced by the tolerance and not crossing each other. */
  ghost predicate Restful(bids: seq<Quote>, asks: seq<Quote>, tolerance: real) {
    Spaced(bids, tolerance) && Spaced(asks, tolerance) && Uncrossed(bids, asks)
  }

  ghost predicate PlanIsClean(desk: Desk, p: Plan) {
    BookIsClean(desk, p) && Ladders(p.bids, p.asks) && Restful(p.bids, p.asks, desk.cfg.staleBPS)
  }

  /** The whole Sync ran over the listed book with every request accepted, nothing held back, and nothing
      placed beside a protected order that a level had claimed. */
  ghost predicate Completed(desk: Desk, p: Plan, st: State, bidMoments: nat -> Moment, askMoments: nat -> Moment) {
    var bids := RunSide(desk, BidTask(p), st, bidMoments);
    && st.book == p.listed && !st.failed && Smooth(bidMoments) && Smooth(askMoments)
    && NothingHeld(desk, BidTask(p), st, SideSlots(desk, BidTask(p)), bidMoments)
    && NothingHeld(desk, AskTask(p), bids, SideSlots(desk, AskTask(p)), askMoments)
    && NoneBeside(desk, BidTask(p), SideSlots(desk, BidTask(p)), bidMoments)
    && NoneBeside(desk, AskTask(p), SideSlots(desk, AskTask(p)), askMoments)
    && !RunSync(desk, p, st, bidMoments, askMoments).failed
  }

  lemma UncrossedLadders(p: Plan)
    requires Ladders(p.bids, p.asks) && Uncrossed(p.bids, p.asks)
    ensures forall k :: 0 <= k < |p.bids| ==> !Crosses(Buy, p.bids[k], First(p.asks))
    ensures forall k :: 0 <= k < |p.asks| ==> !Crosses(Sell, p.asks[k], First(p.bids))
  {
    forall k | 0 <= k < |p.bids| ensures !Crosses(Buy, p.bids[k], First(p.asks)) {
      assert k > 0 ==> Better(Buy, p.bids[0].price, p.bids[k].price);
    }
    forall k | 0 <= k < |p.asks| ensures !Crosses(Sell, p.asks[k], First(p.bids)) {
      assert k > 0 ==> Better(Sell, p.asks[0].price, p.asks[k].price);
    }
  }

  lemma SideIsListed(desk: Desk, p: Plan, side: Side)
    requires BookIsClean(desk, p)
    ensures var s := SideBook(side, p.listed);
            && StrictlySorted(side, s) && DistinctIDs(s)
            && (forall o :: o in s <==> o in p.listed && o.side == side)
            && (forall k :: 0 <= k < |s| ==> s[k].side == side)
  {
    hide Insert;
    SideBookAll(side, p.listed);
    SideBookSorted(side, p.listed);
    SideBookStrict(side, p.listed);
    forall k | 0 <= k < |SideBook(side, p.listed)| ensures SideBook(side, p.listed)[k].side == side {
      assert SideBook(side, p.listed)[k] in SideBook(side, p.listed);
    }
  }

  lemma BidsAreReady(desk: Desk, p: Plan)
    requires BookIsClean(desk, p) && Ladders(p.bids, p.asks)
    ensures SideReady(desk, BidTask(p), Buy, p.listed)
  {
    hide SideBook;
    SideIsListed(desk, p, Buy);
  }

  /** A completed side leaves distinct ids, and the other side's identities unused. */
  lemma SideStaysDistinct(desk: Desk, task: Task, side: Side, st: State, moments: nat -> Moment)
    requires SideReady(desk, task, side, st.book)
    ensures DistinctIDs(RunSide(desk, task, st, moments).book)
    ensures forall o :: o in RunSide(desk, task, st, moments).book ==> o in st.book || exists i :: 0 <= i < |task.ids| && o.id == task.ids[i].orderID
  {
    hide RunSlots, VerdictOn;
    var slots := SideSlots(desk, task);
    PairingPartitions(task.existing, task.targets, desk.cfg.staleBPS);
    RunKeepsDistinct(desk, task, slots, st, moments, |slots|);
    RunOrigins(desk, task, st, slots, moments, |slots|);
  }

  lemma AsksAreReady(desk: Desk, p: Plan, st: State, bidMoments: nat -> Moment)
    requires BookIsClean(desk, p) && Ladders(p.bids, p.asks) && st.book == p.listed && Smooth(bidMoments)
    requires NothingHeld(desk, BidTask(p), st, SideSlots(desk, BidTask(p)), bidMoments)
    requires !RunSide(desk, BidTask(p), st, bidMoments).failed
    ensures SideReady(desk, AskTask(p), Sell, RunSide(desk, BidTask(p), st, bidMoments).book)
  {
    hide RunSide, SideBook, Smooth, NothingHeld, LeftBefore;
    BidsAreReady(desk, p);
    SideStaysDistinct(desk, BidTask(p), Buy, st, bidMoments);
    SideSettles(desk, BidTask(p), Buy, st, bidMoments);
    SideIsListed(desk, p, Sell);
  }

  lemma SidesAreSet(desk: Desk, p: Plan, st: State, bidMoments: nat -> Moment, askMoments: nat -> Moment)
    requires PlanIsClean(desk, p) && Completed(desk, p, st, bidMoments, askMoments)
    ensures SideSetting(desk, BidTask(p), Buy, st, bidMoments)
    ensures SideSetting(desk, AskTask(p), Sell, RunSide(desk, BidTask(p), st, bidMoments), askMoments)
  {
    hide RunSide, VerdictOn, SideBook, Crosses, Protected, Smooth, NothingHeld, NoneBeside, SideReady;
    BidsAreReady(desk, p);
    AsksAreReady(desk, p, st, bidMoments);
    SideIsListed(desk, p, Buy);
    SideIsListed(desk, p, Sell);
    UncrossedLadders(p);
  }

  /** The same targets against the book the first Sync left, on a clock that has not gone back, with
      nothing inside its replace margin. Identities and the quote time may be anything. */
  ghost predicate NextPlan(
    desk: Desk, p: Plan, book: seq<Order>, bidMoments: nat -> Moment, askMoments: nat -> Moment,
    next: Plan, bidsLater: nat -> Moment, asksLater: nat -> Moment)
  {
    && next.listed == book && next.bids == p.bids && next.asks == p.asks
    && NextTask(desk, BidTask(p), Buy, bidMoments, book, BidTask(next), bidsLater)
    && NextTask(desk, AskTask(p), Sell, askMoments, book, AskTask(next), asksLater)
  }

  lemma LeftOnTheirSide(desk: Desk, task: Task, side: Side, st: State, moments: nat -> Moment)
    requires SideSetting(desk, task, side, st, moments) && |task.targets| <= |SideSlots(desk, task)|
    ensures forall o :: LeftBefore(desk, task, SideSlots(desk, task), moments, |SideSlots(desk, task)|, o) ==> o.side == side
  {
    hide VerdictOn, RunSide, NothingHeld, NoneBeside, Smooth, Protected;
  }

  /** The bid side of the book both sides left is the one the bid side left, and the ask side is the
      ask side's own. */
  lemma BookAfterBoth(desk: Desk, p: Plan, st: State, bidMoments: nat -> Moment, askMoments: nat -> Moment)
    requires BookIsClean(desk, p) && Ladders(p.bids, p.asks) && Completed(desk, p, st, bidMoments, askMoments)
    ensures var bids := RunSide(desk, BidTask(p), st, bidMoments);
            var book := RunSync(desk, p, st, bidMoments, askMoments).book;
            && DistinctIDs(book) && !bids.failed
            && SideReady(desk, BidTask(p), Buy, st.book) && SideReady(desk, AskTask(p), Sell, bids.book)
            && |p.bids| <= |SideSlots(desk, BidTask(p))| && |p.asks| <= |SideSlots(desk, AskTask(p))|
            && (forall o :: o in book && o.side == Buy <==>
                 o.side == Buy && LeftBefore(desk, BidTask(p), SideSlots(desk, BidTask(p)), bidMoments, |SideSlots(desk, BidTask(p))|, o))
            && (forall o :: o in book && o.side == Sell <==>
                 o.side == Sell && LeftBefore(desk, AskTask(p), SideSlots(desk, AskTask(p)), askMoments, |SideSlots(desk, AskTask(p))|, o))
  {
    hide RunSide, SideBook, LeftBefore, SideSlots, NothingHeld, NoneBeside, SideReady, Smooth;
    var bids := RunSide(desk, BidTask(p), st, bidMoments);
    BidsAreReady(desk, p);
    AsksAreReady(desk, p, st, bidMoments);
    SideSettles(desk, BidTask(p), Buy, st, bidMoments);
    SideSettles(desk, AskTask(p), Sell, bids, askMoments);
    SideStaysDistinct(desk, AskTask(p), Sell, bids, askMoments);
  }

  /** One side of the next Sync is quiet. */
  lemma NextSideIsQuiet(
    desk: Desk, task: Task, side: Side, st: State, moments: nat -> Moment, book: seq<Order>, next: Task, later: nat -> Moment, opening: State)
    requires SideSetting(desk, task, side, st, moments) && !st.failed && DistinctIDs(book)
    requires |task.targets| <= |SideSlots(desk, task)|
    requires forall o :: o in book && o.side == side <==> o.side == side && LeftBefore(desk, task, SideSlots(desk, task), moments, |SideSlots(desk, task)|, o)
    requires NextTask(desk, task, side, moments, book, next, later) && !opening.failed
    ensures var end := RunSide(desk, next, opening, later);
            Untouched(desk, next.existing, opening, end) && (Smooth(later) ==> end.book == opening.book)
  {
    hide SideSetting, NextTask, LeftBefore, Untouched, Smooth, RunSide, IsFinal, SideSlots, Reconciled;
    LeftOnTheirSide(desk, task, side, st, moments);
    var at := SettledSideIsReconciled(desk, task, side, st, moments, book);
    SecondRunIsQuiet(desk, task, side, st, moments, book, at, next, later, opening);
  }

  lemma PlanParts(desk: Desk, p: Plan)
    requires PlanIsClean(desk, p)
    ensures BookIsClean(desk, p) && Ladders(p.bids, p.asks)
  {
  }

  /** Quiescence: once a Sync over clean ladders has been accepted in full with nothing held back, the
      next Sync against the same targets sends no cancel and no placement, notes nothing as cancelled,
      and, if nothing else happens to the book, leaves it as it is. */
  lemma SecondSyncIsQuiet(
    desk: Desk, p: Plan, st: State, bidMoments: nat -> Moment, askMoments: nat -> Moment,
    next: Plan, opening: State, bidsLater: nat -> Moment, asksLater: nat -> Moment)
    requires PlanIsClean(desk, p) && Completed(desk, p, st, bidMoments, askMoments)
    requires NextPlan(desk, p, RunSync(desk, p, st, bidMoments, askMoments).book, bidMoments, askMoments, next, bidsLater, asksLater)
    requires !opening.failed
    ensures var end := RunSync(desk, next, opening, bidsLater, asksLater);
            && Untouched(desk, next.listed, opening, end)
            && (Smooth(bidsLater) && Smooth(asksLater) ==> end.book == opening.book)
  {
    hide RunSide, SideSetting, NextTask, LeftBefore, SideSlots, PlanIsClean, SideBook, Smooth, Protected;
    PlanParts(desk, p);
    BookAfterBoth(desk, p, st, bidMoments, askMoments);
    SidesAreSet(desk, p, st, bidMoments, askMoments);
    var book := RunSync(desk, p, st, bidMoments, askMoments).book;
    NextSideIsQuiet(desk, BidTask(p), Buy, st, bidMoments, book, BidTask(next), bidsLater, opening);
    NextSideIsQuiet(desk, AskTask(p), Sell, RunSide(desk, BidTask(p), st, bidMoments), askMoments, book, AskTask(next), asksLater,
                    RunSide(desk, BidTask(next), opening, bidsLater));
    SideBookAll(Buy, next.listed);
    SideBookAll(Sell, next.listed);
  }

  /** No minimum lifetime, no minimum move and no cancel budget configured. */
  predicate Unlimited(cfg: Config) {
    cfg.minQuoteLifetime <= 0 && cfg.minReplaceMoveBPS <= 0.0 && cfg.maxCancelsPerMinute <= 0
  }

  /** Without such limits nothing is ever held back: every order is kept or its slot is freed. */
  lemma NothingIsHeldWithoutLimits(desk: Desk, task: Task, st: State, moments: nat -> Moment)
    requires Unlimited(desk.cfg)
    requires Smooth(moments)
    ensures NothingHeld(desk, task, st, SideSlots(desk, task), moments)
  {
    var slots := SideSlots(desk, task);
    forall k: nat | k < |slots| && slots[k].order.Some?
      ensures KeptAt(desk, task, slots[k], moments(k)) || SlotCancel(desk, task, RunSlots(desk, task, st, slots, moments, k), slots[k], moments(k)).1
    {
      FreedOrKept(desk, task, RunSlots(desk, task, st, slots, moments, k), slots[k], moments(k));
    }
  }

  lemma FreedOrKept(desk: Desk, task: Task, st: State, s: Slot, m: Moment)
    requires Unlimited(desk.cfg)
    requires SlotFits(task, s) && s.order.Some? && !m.cancelReply.CancelFailed?
    ensures KeptAt(desk, task, s, m) || SlotCancel(desk, task, st, s, m).1
  {
  }
}
