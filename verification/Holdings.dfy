/** What the book that a Sync leaves holds of the account's balances. */
module Holdings {
  import opened Market
  import opened Pairing
  import opened PairingLaws
  import opened PairingFixpoint
  import opened Reconcile
  import opened ReconcileLaws
  import opened SettledBook
  import opened Quiescence
  import opened NextBudget
  import Exposure
  import Ladder

  // ----- protected orders are not touched -----

  function Shielded(cfg: Config, book: seq<Order>): seq<Order> {
    if book == [] then []
    else Shielded(cfg, book[..|book| - 1]) + if Protected(cfg, book[|book| - 1].id) then [book[|book| - 1]] else []
  }

  lemma HeldAppend(cfg: Config, book: seq<Order>, o: Order, side: Side, shielded: bool)
    ensures HeldBy(cfg, book + [o], side, shielded)
            == HeldBy(cfg, book, side, shielded) + if o.side == side && Protected(cfg, o.id) == shielded then AmountOf(side, o.size, o.price) else 0.0
  {
    hide Protected, AmountOf;
    assert (book + [o])[..|book|] == book;
  }

  lemma {:induction false} ShieldedHold(cfg: Config, book: seq<Order>, side: Side)
    ensures HeldBy(cfg, book, side, true) == HeldBy(cfg, Shielded(cfg, book), side, true)
  {
    hide Protected;
    if book != [] {
      var init, last := book[..|book| - 1], book[|book| - 1];
      ShieldedHold(cfg, init, side);
      assert book == init + [last];
      ShieldedAppend(cfg, init, last);
      HeldAppend(cfg, init, last, side, true);
      HeldAppend(cfg, Shielded(cfg, init), last, side, true);
      assert Shielded(cfg, init) + [] == Shielded(cfg, init);
      hide HeldBy, Shielded, AmountOf;
    }
  }

  lemma ShieldedAppend(cfg: Config, book: seq<Order>, o: Order)
    ensures Shielded(cfg, book + [o]) == Shielded(cfg, book) + if Protected(cfg, o.id) then [o] else []
  {
    hide Protected;
    assert (book + [o])[..|book|] == book;
  }

  lemma {:induction false} WithoutKeepsShielded(cfg: Config, book: seq<Order>, id: string)
    requires !Protected(cfg, id)
    ensures Shielded(cfg, Without(book, {id})) == Shielded(cfg, book)
  {
    hide Protected;
    if book != [] {
      var init, last := book[..|book| - 1], book[|book| - 1];
      WithoutKeepsShielded(cfg, init, id);
      assert book == init + [last];
      ShieldedAppend(cfg, init, last);
      ShieldedAppend(cfg, Without(init, {id}), last);
      assert last.id in {id} ==> Without(book, {id}) == Without(init, {id});
    }
  }

  ghost predicate OwnNames(cfg: Config, ids: seq<Identity>) {
    forall i :: 0 <= i < |ids| ==> !Protected(cfg, ids[i].orderID)
  }

  lemma SlotKeepsShielded(desk: Desk, task: Task, st: State, s: Slot, m: Moment)
    requires SlotFits(task, s) && m.departed == {} && OwnNames(desk.cfg, task.ids)
    ensures Shielded(desk.cfg, SlotStep(desk, task, st, s, m).book) == Shielded(desk.cfg, st.book)
  {
    hide Without, Protected, PlacePhase, Shielded;
    WithoutNothing(st.book);
    if s.order.Some? && !Protected(desk.cfg, task.existing[s.order.value].id) {
      WithoutKeepsShielded(desk.cfg, st.book, task.existing[s.order.value].id);
    }
    var half := SlotCancel(desk, task, st, s, m).0;
    assert Shielded(desk.cfg, half.book) == Shielded(desk.cfg, st.book) by {
      hide VerdictOn;
    }
    if s.target.Some? {
      var q := task.targets[s.target.value];
      PlacesAtMostOne(desk, half, q, s.level, task.ids, m);
      if 0 <= s.level < |task.ids| && CanSign(desk, q, m.now) {
        ShieldedAppend(desk.cfg, half.book, SignedOrder(desk, q, task.ids[s.level], m.now));
      }
    }
    hide SlotCancel;
  }

  lemma PlacesAtMostOne(desk: Desk, st: State, q: Quote, level: int, ids: seq<Identity>, m: Moment)
    ensures var after := PlacePhase(desk, st, q, level, ids, m).book;
            after == st.book || (0 <= level < |ids| && CanSign(desk, q, m.now) && after == st.book + [SignedOrder(desk, q, ids[level], m.now)])
  {
  }

  lemma {:induction false} RunKeepsShielded(desk: Desk, task: Task, st: State, slots: seq<Slot>, moments: nat -> Moment, k: nat)
    requires SlotsFit(task, slots) && k <= |slots| && OwnNames(desk.cfg, task.ids)
    requires forall i: nat :: moments(i).departed == {}
    ensures Shielded(desk.cfg, RunSlots(desk, task, st, slots, moments, k).book) == Shielded(desk.cfg, st.book)
  {
    hide SlotStep, Shielded, OwnNames;
    if k > 0 {
      RunKeepsShielded(desk, task, st, slots, moments, k - 1);
      SlotKeepsShielded(desk, task, RunSlots(desk, task, st, slots, moments, k - 1), slots[k - 1], moments(k - 1));
    }
  }

  /** Whatever the venue answers, a Sync neither adds nor removes a protected order. */
  lemma SyncKeepsShielded(desk: Desk, p: Plan, st: State, bidMoments: nat -> Moment, askMoments: nat -> Moment)
    requires OwnNames(desk.cfg, p.bidIDs) && OwnNames(desk.cfg, p.askIDs)
    requires forall i: nat :: bidMoments(i).departed == {} && askMoments(i).departed == {}
    ensures Shielded(desk.cfg, RunSync(desk, p, st, bidMoments, askMoments).book) == Shielded(desk.cfg, st.book)
  {
    hide SideSlots, Shielded, OwnNames;
    RunKeepsShielded(desk, BidTask(p), st, SideSlots(desk, BidTask(p)), bidMoments, |SideSlots(desk, BidTask(p))|);
    RunKeepsShielded(desk, AskTask(p), RunSide(desk, BidTask(p), st, bidMoments), SideSlots(desk, AskTask(p)), askMoments, |SideSlots(desk, AskTask(p))|);
  }

  // ----- what the unprotected orders hold -----

  predicate Counted(cfg: Config, side: Side, o: Order) {
    o.side == side && !Protected(cfg, o.id)
  }

  lemma {:induction false} WithoutAbsent(book: seq<Order>, id: string)
    requires forall i :: 0 <= i < |book| ==> book[i].id != id
    ensures Without(book, {id}) == book
  {
    if book != [] {
      var init, last := book[..|book| - 1], book[|book| - 1];
      WithoutAbsent(init, id);
      assert Without(book, {id}) == init + [last] == book;
    }
  }

  lemma {:induction false} HeldWithout(cfg: Config, book: seq<Order>, side: Side, o: Order)
    requires DistinctIDs(book) && o in book && Counted(cfg, side, o)
    ensures HeldBy(cfg, book, side, false) == HeldBy(cfg, Without(book, {o.id}), side, false) + AmountOf(side, o.size, o.price)
  {
    hide Protected, AmountOf, HeldBy;
    var init, last := book[..|book| - 1], book[|book| - 1];
    assert book == init + [last];
    HeldAppend(cfg, init, last, side, false);
    if last == o {
      WithoutAbsent(init, o.id);
      assert init + [] == init;
    } else {
      assert o in init && last.id != o.id;
      HeldWithout(cfg, init, side, o);
      HeldAppend(cfg, Without(init, {o.id}), last, side, false);
    }
  }

  lemma {:induction false} NoneHeld(cfg: Config, book: seq<Order>, side: Side)
    requires forall o :: o in book ==> !Counted(cfg, side, o)
    ensures HeldBy(cfg, book, side, false) == 0.0
  {
    hide Protected;
    if book != [] {
      NoneHeld(cfg, book[..|book| - 1], side);
      assert book[|book| - 1] in book;
    }
  }

  /** What a ladder reserves once it rests. */
  function Committed(side: Side, targets: seq<Quote>): real {
    match side
    case Buy => Exposure.Notional(targets)
    case Sell => Ladder.TotalSize(targets)
  }

  ghost predicate HoldsNoMore(cfg: Config, side: Side, o: Order, q: Quote) {
    Counted(cfg, side, o) ==> AmountOf(side, o.size, o.price) <= AmountOf(side, q.size, q.price)
  }

  /** One order a level, none holding more than its level, hold together no more than the ladder. */
  lemma {:induction false} HeldAtMost(cfg: Config, side: Side, book: seq<Order>, finals: seq<Order>, targets: seq<Quote>)
    requires DistinctIDs(book) && |finals| == |targets|
    requires forall o :: o in book && Counted(cfg, side, o) ==> o in finals
    requires forall k :: 0 <= k < |finals| ==> HoldsNoMore(cfg, side, finals[k], targets[k]) && AmountOf(side, targets[k].size, targets[k].price) >= 0.0
    ensures HeldBy(cfg, book, side, false) <= Committed(side, targets)
    decreases |finals|
  {
    hide Counted, Without;
    if finals == [] {
      NoneHeld(cfg, book, side);
    } else {
      var f, rest := finals[0], finals[1..];
      assert HoldsNoMore(cfg, side, f, targets[0]);
      if f in book && Counted(cfg, side, f) {
        WithoutAll(book, {f.id});
        WithoutDistinct(book, {f.id});
        HeldWithout(cfg, book, side, f);
        forall o | o in Without(book, {f.id}) && Counted(cfg, side, o) ensures o in rest {
          assert o in finals;
        }
        HeldAtMost(cfg, side, Without(book, {f.id}), rest, targets[1..]);
      } else {
        forall o | o in book && Counted(cfg, side, o) ensures o in rest {
          assert o in finals;
        }
        HeldAtMost(cfg, side, book, rest, targets[1..]);
      }
    }
  }

  /** Every order a level keeps holds no more than the level would. */
  ghost predicate KeptWithinLevels(desk: Desk, task: Task, side: Side, moments: nat -> Moment) {
    var slots := SideSlots(desk, task);
    forall k: nat :: k < |slots| && slots[k].target.Some? && KeptAt(desk, task, slots[k], moments(k)) ==>
      HoldsNoMore(desk.cfg, side, task.existing[slots[k].order.value], task.targets[slots[k].target.value])
  }

  /** Over a side that lists nothing every order is placed at its level's own price and size. */
  lemma NothingListedIsWithin(desk: Desk, task: Task, side: Side, moments: nat -> Moment)
    requires task.existing == []
    ensures KeptWithinLevels(desk, task, side, moments)
  {
  }

  /** The level orders, one after the other. */
  lemma {:induction false} LevelOrders(desk: Desk, task: Task, side: Side, st: State, moments: nat -> Moment, n: nat) returns (finals: seq<Order>)
    requires SideSetting(desk, task, side, st, moments) && !st.failed && n <= |task.targets| <= |SideSlots(desk, task)|
    ensures |finals| == n && forall k :: 0 <= k < n ==> IsFinal(desk, task, SideSlots(desk, task), moments, k, finals[k])
  {
    hide SideSetting, IsFinal;
    if n == 0 {
      finals := [];
    } else {
      var before := LevelOrders(desk, task, side, st, moments, n - 1);
      var o := LevelIsFilled(desk, task, side, st, moments, n - 1);
      finals := before + [o];
    }
  }

  lemma FinalHoldsNoMore(desk: Desk, task: Task, side: Side, st: State, moments: nat -> Moment, k: nat, o: Order)
    requires SideSetting(desk, task, side, st, moments) && k < |task.targets| <= |SideSlots(desk, task)|
    requires KeptWithinLevels(desk, task, side, moments) && IsFinal(desk, task, SideSlots(desk, task), moments, k, o)
    ensures HoldsNoMore(desk.cfg, side, o, task.targets[k])
  {
    hide KeptAt, Protected, Slots, SideReady, NothingHeld, NoneBeside, RunSide, StrictLadder, StrictlySorted, Smooth, Spaced, AmountOf;
    PairingPartitions(task.existing, task.targets, desk.cfg.staleBPS);
    assert SideSlots(desk, task)[k].target == Some(k);
  }

  /** The unprotected orders a completed side leaves hold no more than its ladder. */
  lemma SideHolds(desk: Desk, task: Task, side: Side, st: State, moments: nat -> Moment, book: seq<Order>)
    requires SideSetting(desk, task, side, st, moments) && !st.failed && DistinctIDs(book) && |task.targets| <= |SideSlots(desk, task)|
    requires forall o :: o in book && o.side == side <==> o.side == side && LeftBefore(desk, task, SideSlots(desk, task), moments, |SideSlots(desk, task)|, o)
    requires KeptWithinLevels(desk, task, side, moments)
    requires forall k :: 0 <= k < |task.targets| ==> AmountOf(side, task.targets[k].size, task.targets[k].price) >= 0.0
    ensures HeldBy(desk.cfg, book, side, false) <= Committed(side, task.targets)
  {
    hide SideSetting, IsFinal, KeptWithinLevels, HoldsNoMore, SideSlots, HeldBy, Committed, AmountOf, Protected;
    var slots := SideSlots(desk, task);
    var finals := LevelOrders(desk, task, side, st, moments, |task.targets|);
    forall k | 0 <= k < |finals| ensures HoldsNoMore(desk.cfg, side, finals[k], task.targets[k]) {
      FinalHoldsNoMore(desk, task, side, st, moments, k, finals[k]);
    }
    forall o | o in book && Counted(desk.cfg, side, o) ensures o in finals {
      var i: nat :| i < |slots| && LeftAt(desk, task, slots, moments, i, o);
      OneFinalEach(desk, task, moments, i, o, finals[i]);
    }
    HeldAtMost(desk.cfg, side, book, finals, task.targets);
  }
}
