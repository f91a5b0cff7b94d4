/** What the spacing is for, in numbers: on a ladder tighter than the tolerance a Sync that was accepted in
    full is followed by one that cancels and replaces, on a wider one by silence. */
module Churn {
  import opened Market
  import opened Pairing
  import opened PairingLaws
  import opened PairingFixpoint
  import opened Decision
  import opened Reconcile
  import opened ReconcileLaws
  import opened ReconcileTerms
  import opened ReconcileRequests
  import opened SettledBook
  import opened Quiescence
  import opened FeeBound
  import Budget = CancelBudget

  /** A 150 bps tolerance over levels 50 bps apart. */
  function TightDesk(): Desk {
    Desk(Config(150.0, 0, 0.0, 30, 600, 0.0, 0, true, false, []), FeeSpec(25, false, 0.0, 0.0, None),
         FeeSpec(25, false, 0.0, 0.0, None), 0.0, Uncapped)
  }

  function FirstLevel(): Quote { Quote(Buy, 100.0, 1.0) }
  function SecondLevel(): Quote { Quote(Buy, 99.5, 2.0) }

  function Resting(id: string, price: real, size: real): Order {
    Order(id, Buy, price, size, true, SignedWorstFee(TightDesk().fee, price), 0, None)
  }

  function TightPlan(listed: seq<Order>, ids: seq<Identity>): Plan {
    Plan(listed, [FirstLevel(), SecondLevel()], [], ids, [], None)
  }

  function FirstPlan(): Plan {
    TightPlan([Kept()], [Identity("a", 1), Identity("b", 2)])
  }

  function SecondPlan(): Plan {
    TightPlan([Kept(), Placed()], [Identity("c", 3), Identity("d", 4)])
  }

  function Start(book: seq<Order>): State {
    Opening(book, Budget.Budget([], []), {})
  }

  lemma Readable(price: real)
    requires price > 0.0
    ensures SignedWorstFee(TightDesk().fee, price).Some?
  {
    BoundIsPositive(TightDesk().fee, price);
  }

  function Kept(): Order { Resting("x", 99.0, 1.0) }

  function Placed(): Order
  {
    Order("b", Buy, 99.5, 2.0, true, SignedWorstFee(TightDesk().signer, 99.5), 600, Some(0))
  }

  lemma PlacedIsSigned()
    ensures CanSign(TightDesk(), SecondLevel(), 0)
    ensures SignedOrder(TightDesk(), SecondLevel(), Identity("b", 2), 0) == Placed()
  {
    Readable(99.5);
  }

  // ----- the first Sync keeps one order and places the other -----

  lemma FirstPairing()
    ensures SideSlots(TightDesk(), BidTask(FirstPlan())) == [Slot(Some(0), Some(0), 0), Slot(None, Some(1), 1)]
  {
    hide SignedWorstFee;
    var task := BidTask(FirstPlan());
    OnlyBids([Kept()]);
    var one := PassOne(task.existing, task.targets, 150.0, 2);
    assert PassOne(task.existing, task.targets, 150.0, 1) == [0];
    assert one == [0, -1];
    assert PassTwo(task.existing, task.targets, one, 1) == one;
    assert PassTwo(task.existing, task.targets, one, 2) == one;
    assert TargetSlots([0, -1]) == [Slot(Some(0), Some(0), 0), Slot(None, Some(1), 1)];
    assert Unclaimed([0, -1], 1) == [];
  }

  lemma OneBid(o: Order)
    requires o.side == Buy
    ensures SideBook(Buy, [o]) == [o] && SideBook(Sell, [o]) == []
  {
    assert [o][..0] == [];
    assert SideBook(Buy, []) == [] && SideBook(Sell, []) == [];
  }

  lemma OnlyBids(listed: seq<Order>)
    requires listed == [Kept()]
    ensures SideBook(Buy, listed) == [Kept()] && SideBook(Sell, listed) == []
  {
    hide SignedWorstFee, SideBook;
    OneBid(Kept());
  }

  lemma FirstVerdict()
    ensures VerdictOn(TightDesk(), Kept(), Some(FirstLevel()), None, None, 0).Keep?
  {
    Readable(99.0);
  }

  lemma FirstRun()
    ensures var end := RunSide(TightDesk(), BidTask(FirstPlan()), Start([Kept()]), Calm(0));
            && !end.failed && end.book == [Kept(), Placed()] && end.sent == [PlaceSent(Identity("b", 2), SecondLevel(), Accepted)]
    ensures NothingHeld(TightDesk(), BidTask(FirstPlan()), Start([Kept()]), SideSlots(TightDesk(), BidTask(FirstPlan())), Calm(0))
  {
    hide SideSlots, VerdictOn, SignedOrder, SideBook, CanSign, SignedWorstFee;
    FirstPairing();
    FirstVerdict();
    PlacedIsSigned();
    OnlyBids([Kept()]);
    var desk, task, slots, st := TightDesk(), BidTask(FirstPlan()), SideSlots(TightDesk(), BidTask(FirstPlan())), Start([Kept()]);
    assert Without([Kept()], {}) == [Kept()] by {
      assert Without([], {}) == [];
    }
    assert RunSlots(desk, task, st, slots, Calm(0), 1) == st;
    assert RunSlots(desk, task, st, slots, Calm(0), 2) == SlotStep(desk, task, st, slots[1], Calm(0)(1));
  }

  // ----- the second Sync -----

  lemma TwoBids(worse: Order, better: Order)
    requires worse.side == Buy && better.side == Buy && better.price > worse.price
    ensures SideBook(Buy, [worse, better]) == [better, worse] && SideBook(Sell, [worse, better]) == []
  {
    OneBid(worse);
    assert [worse, better][..1] == [worse];
    assert Insert(Buy, [], better) == [better];
    assert [worse][..0] == [];
    assert Insert(Buy, [worse], better) == [better, worse];
  }

  lemma SecondBook()
    ensures SideBook(Buy, [Kept(), Placed()]) == [Placed(), Kept()] && SideBook(Sell, [Kept(), Placed()]) == []
  {
    hide SignedWorstFee, SideBook;
    TwoBids(Kept(), Placed());
  }

  lemma SecondPairing()
    ensures var slots := SideSlots(TightDesk(), BidTask(SecondPlan())); |slots| >= 1 && slots[0] == Slot(Some(0), Some(0), 0)
  {
    hide SignedWorstFee;
    SecondBook();
    var task := BidTask(SecondPlan());
    assert Nearest(task.existing, task.targets[0], [], Bps(150.0), 1) == 0;
    assert Nearest(task.existing, task.targets[0], [], Bps(150.0), 2) == 0;
    assert PassOne(task.existing, task.targets, 150.0, 1) == [0];
    PassOnePrefix(task.existing, task.targets, 150.0, 1, 2);
    var one := PassOne(task.existing, task.targets, 150.0, 2);
    assert one[0] == one[..1][0];
    SecondPassPairsAreFar(task.existing, task.targets, 150.0, 0);
  }

  lemma SecondVerdict()
    ensures VerdictOn(TightDesk(), Placed(), Some(FirstLevel()), None, None, 1) == Cancel(SizeMismatch, true)
  {
    Readable(99.5);
  }

  lemma SecondRun()
    ensures RunSide(TightDesk(), BidTask(SecondPlan()), Start([Kept(), Placed()]), Calm(1)).sent != []
  {
    hide SideSlots, VerdictOn, SideBook, SignedOrder, SignedWorstFee, CanSign, Without;
    SecondPairing();
    SecondVerdict();
    SecondBook();
    var desk, task, slots, st := TightDesk(), BidTask(SecondPlan()), SideSlots(TightDesk(), BidTask(SecondPlan())), Start([Kept(), Placed()]);
    var half := SlotCancel(desk, task, st, slots[0], Calm(1)(0)).0;
    assert half.sent == [CancelSent("b", Cancelled)];
    assert RunSlots(desk, task, st, slots, Calm(1), 1) == SlotStep(desk, task, st, slots[0], Calm(1)(0));
    SentOnlyGrows(desk, task, slots, st, Calm(1), 1, |slots|);
  }

  lemma NoAsks(listed: seq<Order>, ids: seq<Identity>, st: State, moments: nat -> Moment)
    requires SideBook(Sell, listed) == []
    ensures RunSide(TightDesk(), AskTask(TightPlan(listed, ids)), st, moments) == st
    ensures NothingHeld(TightDesk(), AskTask(TightPlan(listed, ids)), st, SideSlots(TightDesk(), AskTask(TightPlan(listed, ids))), moments)
  {
    assert SideSlots(TightDesk(), AskTask(TightPlan(listed, ids))) == [];
  }

  /** Two levels 50 bps apart under a 150 bps tolerance: the first Sync is accepted in full and the
      next one, against the same targets and the book it left, still sends. */
  lemma TightLadderChurns()
    ensures Completed(TightDesk(), FirstPlan(), Start([Kept()]), Calm(0), Calm(0))
    ensures RunSync(TightDesk(), FirstPlan(), Start([Kept()]), Calm(0), Calm(0)).book == SecondPlan().listed
    ensures RunSync(TightDesk(), SecondPlan(), Start(SecondPlan().listed), Calm(1), Calm(1)).sent != []
  {
    hide RunSide, NothingHeld, SideBook, SideSlots, SignedWorstFee, BidTask, AskTask;
    FirstRun();
    SecondRun();
    OnlyBids([Kept()]);
    SecondBook();
    NoAsks([Kept()], FirstPlan().bidIDs, RunSide(TightDesk(), BidTask(FirstPlan()), Start([Kept()]), Calm(0)), Calm(0));
    NoAsks([Kept(), Placed()], SecondPlan().bidIDs, RunSide(TightDesk(), BidTask(SecondPlan()), Start(SecondPlan().listed), Calm(1)), Calm(1));
  }

  // ----- the same tolerance over a wider ladder -----

  function LowerLevel(): Quote { Quote(Buy, 97.0, 2.0) }

  function WidePlan(): Plan {
    Plan([], [FirstLevel(), LowerLevel()], [], [Identity("a", 1), Identity("b", 2)], [], None)
  }

  function PlacedAt(q: Quote, id: string): Order {
    Order(id, Buy, q.price, q.size, true, SignedWorstFee(TightDesk().signer, q.price), 600, Some(0))
  }

  function WideBook(): seq<Order> {
    [PlacedAt(FirstLevel(), "a"), PlacedAt(LowerLevel(), "b")]
  }

  lemma WidePlanIsClean()
    ensures PlanIsClean(TightDesk(), WidePlan())
  {
    hide SignedWorstFee;
    assert PriceDrift(97.0, 100.0) == Bps(3.0 / 97.0 * 10000.0);
  }

  function NoClaims(n: nat): (c: seq<int>)
    ensures |c| == n && forall i :: 0 <= i < n ==> c[i] == -1
  {
    seq(n, _ => -1)
  }

  lemma {:induction false} EmptyPassOne(targets: seq<Quote>, tolerance: real, k: nat)
    requires k <= |targets|
    ensures PassOne([], targets, tolerance, k) == NoClaims(k)
  {
    if k > 0 {
      EmptyPassOne(targets, tolerance, k - 1);
    }
  }

  lemma {:induction false} EmptyPassTwo(targets: seq<Quote>, k: nat)
    requires k <= |targets|
    ensures PassTwo([], targets, NoClaims(|targets|), k) == NoClaims(|targets|)
  {
    if k > 0 {
      EmptyPassTwo(targets, k - 1);
    }
  }

  /** Over an empty side every level is a slot of its own. */
  lemma EmptySideSlots(targets: seq<Quote>, tolerance: real)
    requires tolerance > 0.0
    ensures Slots([], targets, tolerance) == TargetSlots(NoClaims(|targets|))
  {
    EmptyPassOne(targets, tolerance, |targets|);
    EmptyPassTwo(targets, |targets|);
  }

  lemma WidePairing()
    ensures SideSlots(TightDesk(), BidTask(WidePlan())) == [Slot(None, Some(0), 0), Slot(None, Some(1), 1)]
  {
    hide Slots, TargetSlots, NoClaims;
    EmptySideSlots(WidePlan().bids, 150.0);
    EmptySide();
    TwoEmptySlots();
  }

  lemma TwoEmptySlots()
    ensures TargetSlots(NoClaims(2)) == [Slot(None, Some(0), 0), Slot(None, Some(1), 1)]
  {
  }

  /** A level without an order, on a calm venue. */
  lemma EmptySlotIsFilled(task: Task, st: State, s: Slot, now: int)
    requires SlotFits(task, s) && !st.failed && s.order.None? && s.target.Some? && 0 <= s.level < |task.ids|
    requires CanSign(TightDesk(), task.targets[s.target.value], now)
    ensures var after := SlotStep(TightDesk(), task, st, s, Calm(now)(0));
            !after.failed && after.book == st.book + [SignedOrder(TightDesk(), task.targets[s.target.value], task.ids[s.level], now)]
  {
    hide CanSign, SignedOrder;
    WithoutNothing(st.book);
  }

  lemma WideIsSigned()
    ensures CanSign(TightDesk(), FirstLevel(), 0) && CanSign(TightDesk(), LowerLevel(), 0)
    ensures SignedOrder(TightDesk(), FirstLevel(), Identity("a", 1), 0) == PlacedAt(FirstLevel(), "a")
    ensures SignedOrder(TightDesk(), LowerLevel(), Identity("b", 2), 0) == PlacedAt(LowerLevel(), "b")
  {
    hide SignedWorstFee;
    Readable(100.0);
    Readable(97.0);
  }

  lemma WideRun()
    ensures var end := RunSide(TightDesk(), BidTask(WidePlan()), Start([]), Calm(0)); !end.failed && end.book == WideBook()
    ensures NothingHeld(TightDesk(), BidTask(WidePlan()), Start([]), SideSlots(TightDesk(), BidTask(WidePlan())), Calm(0))
  {
    hide SideSlots, SideBook, SignedWorstFee, SlotStep, CanSign, SignedOrder;
    WidePairing();
    WideIsSigned();
    var desk, task, slots, st := TightDesk(), BidTask(WidePlan()), SideSlots(TightDesk(), BidTask(WidePlan())), Start([]);
    EmptySlotIsFilled(task, st, slots[0], 0);
    var first := SlotStep(desk, task, st, slots[0], Calm(0)(0));
    EmptySlotIsFilled(task, first, slots[1], 0);
    assert RunSlots(desk, task, st, slots, Calm(0), 0) == st;
    assert RunSlots(desk, task, st, slots, Calm(0), 1) == first;
    assert RunSlots(desk, task, st, slots, Calm(0), 2) == SlotStep(desk, task, first, slots[1], Calm(0)(0));
  }

  /** With the second level 300 bps down instead of 50 the Sync after the first one sends nothing. */
  lemma WideLadderSettles()
    ensures Completed(TightDesk(), WidePlan(), Start([]), Calm(0), Calm(0))
    ensures RunSync(TightDesk(), WidePlan(), Start([]), Calm(0), Calm(0)).book == WideBook()
    ensures RunSync(TightDesk(), WidePlan().(listed := WideBook()), Start(WideBook()), Calm(1), Calm(1)).sent == []
  {
    hide RunSide, NothingHeld, SideSlots, SignedWorstFee, PlanIsClean, Completed;
    WidePlanIsClean();
    WideIsCompleted();
    WideIsNext();
    SecondSyncIsQuiet(TightDesk(), WidePlan(), Start([]), Calm(0), Calm(0), WidePlan().(listed := WideBook()), Start(WideBook()), Calm(1), Calm(1));
  }

  lemma WideIsCompleted()
    ensures Completed(TightDesk(), WidePlan(), Start([]), Calm(0), Calm(0))
    ensures RunSync(TightDesk(), WidePlan(), Start([]), Calm(0), Calm(0)).book == WideBook()
  {
    hide RunSide, NothingHeld, SideBook, SideSlots, SignedWorstFee, BidTask, AskTask;
    WideRun();
    assert SideBook(Sell, []) == [] by {
      EmptySide();
    }
    NoAsksWide(RunSide(TightDesk(), BidTask(WidePlan()), Start([]), Calm(0)), Calm(0));
  }

  lemma EmptySide()
    ensures SideBook(Buy, []) == [] && SideBook(Sell, []) == []
  {
  }

  lemma NoAsksWide(st: State, moments: nat -> Moment)
    ensures RunSide(TightDesk(), AskTask(WidePlan()), st, moments) == st
    ensures NothingHeld(TightDesk(), AskTask(WidePlan()), st, SideSlots(TightDesk(), AskTask(WidePlan())), moments)
  {
    assert SideSlots(TightDesk(), AskTask(WidePlan())) == [];
  }

  lemma WideIsNext()
    ensures NextPlan(TightDesk(), WidePlan(), WideBook(), Calm(0), Calm(0), WidePlan().(listed := WideBook()), Calm(1), Calm(1))
  {
    hide SignedWorstFee, SideBook;
    SideBookAll(Buy, WideBook());
    SideBookAll(Sell, WideBook());
  }
}
