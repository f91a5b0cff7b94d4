/** Books on which a spaced, uncrossed ladder is not left alone: a protected order at a level's own price, and
    two orders at one price. */
module Duplicates {
  import opened Market
  import opened Pairing
  import opened PairingLaws
  import opened PairingFixpoint
  import opened Decision
  import opened Reconcile
  import opened ReconcileLaws
  import opened SettledBook
  import opened Quiescence
  import opened FeeBound
  import opened Churn
  import RestfulLadders

  // ----- a protected order at a level's own price -----

  function GuardedDesk(): Desk {
    TightDesk().(cfg := TightDesk().cfg.(protectedPrefixes := ["keep"]))
  }

  /** Where the level is, five times its size. */
  function Shielded(): Order { Resting("keep", 100.0, 5.0) }

  function Duplicate(id: string, at: int): Order {
    Order(id, Buy, 100.0, 1.0, true, SignedWorstFee(TightDesk().signer, 100.0), at + 600, Some(at))
  }

  function GuardedPlan(listed: seq<Order>, id: Identity): Plan {
    Plan(listed, [FirstLevel()], [], [id], [], None)
  }

  lemma KeepIsProtected()
    ensures Protected(GuardedDesk().cfg, "keep")
  {
    assert TrimLeft("keep") == "keep" && TrimRight("keep") == "keep";
    assert Trim(GuardedDesk().cfg.protectedPrefixes[0]) == "keep";
  }

  lemma BothBids(x: Order, y: Order)
    requires x.side == Buy && y.side == Buy && x.price == y.price
    ensures SideBook(Buy, [x, y]) == [x, y] && SideBook(Sell, [x, y]) == []
  {
    OneBid(x);
    assert [x, y][..1] == [x];
    assert Insert(Buy, [x], y) == [x, y];
  }

  lemma GuardedPairing(id: string, at: int, next: Identity)
    ensures SideSlots(GuardedDesk(), BidTask(GuardedPlan([Shielded(), Duplicate(id, at)], next)))
            == [Slot(Some(0), Some(0), 0), Slot(Some(1), None, -1)]
  {
    hide SignedWorstFee, SideBook;
    var task := BidTask(GuardedPlan([Shielded(), Duplicate(id, at)], next));
    BothBids(Shielded(), Duplicate(id, at));
    assert Nearest(task.existing, task.targets[0], [], Bps(150.0), 1) == 0;
    assert Nearest(task.existing, task.targets[0], [], Bps(150.0), 2) == 0;
    var one := PassOne(task.existing, task.targets, 150.0, 1);
    assert one == [0];
    assert PassTwo(task.existing, task.targets, one, 1) == one;
    assert TargetSlots([0]) == [Slot(Some(0), Some(0), 0)];
    assert Unclaimed([0], 2) == [Slot(Some(1), None, -1)] by {
      assert Unclaimed([0], 1) == [];
    }
  }

  /** The level claims the protected order; its verdict frees the level and leaves the order. */
  lemma BesideTheShielded(task: Task, st: State, id: Identity, now: int)
    requires task.existing != [] && task.existing[0] == Shielded() && task.targets == [FirstLevel()] && task.opposite == None
    requires task.ids == [id] && !st.failed
    ensures var after := SlotStep(GuardedDesk(), task, st, Slot(Some(0), Some(0), 0), Calm(now)(0));
            && !after.failed && after.book == st.book + [Duplicate(id.orderID, now)]
            && after.sent == st.sent + [PlaceSent(id, FirstLevel(), Accepted)]
  {
    hide SignedWorstFee, Protected, Without;
    KeepIsProtected();
    WithoutNothing(st.book);
    Readable(100.0);
  }

  /** The level's earlier duplicate is wanted by nobody. */
  lemma TheOtherGoes(task: Task, st: State, d: Order, now: int)
    requires |task.existing| == 2 && task.existing[1] == d && !Protected(GuardedDesk().cfg, d.id) && !st.failed
    ensures var after := SlotStep(GuardedDesk(), task, st, Slot(Some(1), None, -1), Calm(now)(1));
            && !after.failed && after.book == Without(st.book, {d.id}) && after.sent == st.sent + [CancelSent(d.id, Cancelled)]
  {
    hide SignedWorstFee, Protected, Without;
    WithoutNothing(st.book);
  }

  /** Whenever the book holds the protected order and one duplicate of the level, a Sync accepted in full
      places another duplicate, cancels the first, and leaves just such a book: on every cycle. */
  lemma ProtectedOrderChurns(id: string, at: int, next: Identity, now: int)
    requires !Protected(GuardedDesk().cfg, id) && next.orderID != id && next.orderID != "keep" && id != "keep"
    ensures var p := GuardedPlan([Shielded(), Duplicate(id, at)], next);
            var end := RunSync(GuardedDesk(), p, Start(p.listed), Calm(now), Calm(now));
            && !end.failed && end.book == [Shielded(), Duplicate(next.orderID, now)]
            && end.sent == [PlaceSent(next, FirstLevel(), Accepted), CancelSent(id, Cancelled)]
  {
    hide SideSlots, SlotStep, SideBook, SignedWorstFee, Protected, Without;
    var desk, p := GuardedDesk(), GuardedPlan([Shielded(), Duplicate(id, at)], next);
    var task, st := BidTask(p), Start(p.listed);
    BothBids(Shielded(), Duplicate(id, at));
    GuardedPairing(id, at, next);
    var slots := SideSlots(desk, task);
    BesideTheShielded(task, st, next, now);
    var half := SlotStep(desk, task, st, slots[0], Calm(now)(0));
    TheOtherGoes(task, half, Duplicate(id, at), now);
    OneGone(Shielded(), Duplicate(id, at), Duplicate(next.orderID, now));
    assert RunSlots(desk, task, st, slots, Calm(now), 0) == st;
    assert RunSlots(desk, task, st, slots, Calm(now), 1) == half;
    assert RunSlots(desk, task, st, slots, Calm(now), 2) == SlotStep(desk, task, half, slots[1], Calm(now)(1));
    NothingToAsk(p);
  }

  lemma OneGone(x: Order, y: Order, z: Order)
    requires x.id != y.id && z.id != y.id
    ensures Without([x, y] + [z], {y.id}) == [x, z]
  {
    assert ([x, y] + [z])[..2] == [x, y] && [x, y][..1] == [x] && [x][..0] == [];
    assert Without([x], {y.id}) == [x];
    assert Without([x, y], {y.id}) == [x];
  }

  lemma NothingToAsk(p: Plan)
    requires SideBook(Sell, p.listed) == [] && p.asks == []
    ensures SideSlots(GuardedDesk(), AskTask(p)) == []
  {
  }

  // ----- two orders at one price -----

  function Upper(): Quote { Quote(Buy, 101.5, 1.0) }
  function Lower(): Quote { Quote(Buy, 100.0, 2.0) }

  /** Both at the upper level's price, one too large for it, the other as large as the lower level. */
  function TooLarge(): Order { Resting("x", 101.5, 5.0) }
  function AsLower(): Order { Resting("y", 101.5, 2.0) }

  function Replacement(): Order {
    Order("a", Buy, 101.5, 1.0, true, SignedWorstFee(TightDesk().signer, 101.5), 600, Some(0))
  }

  function PairPlan(listed: seq<Order>): Plan {
    Plan(listed, [Upper(), Lower()], [], [Identity("a", 1), Identity("b", 2)], [], None)
  }

  lemma PairIsRestful()
    ensures Ladders(PairPlan([]).bids, []) && Restful(PairPlan([]).bids, [], TightDesk().cfg.staleBPS)
  {
    assert PriceDrift(100.0, 101.5) == Bps(1.5 / 100.0 * 10000.0);
  }

  lemma {:induction false} FirstOfTwo(listed: seq<Order>)
    requires |listed| == 2 && listed[0].price == 101.5 && listed[1].price == 101.5
    ensures PassOne(listed, [Upper(), Lower()], 150.0, 2)[0] == 0
  {
    var targets := [Upper(), Lower()];
    assert Nearest(listed, targets[0], [], Bps(150.0), 1) == 0;
    assert Nearest(listed, targets[0], [], Bps(150.0), 2) == 0;
    assert PassOne(listed, targets, 150.0, 1) == [0];
    PassOnePrefix(listed, targets, 150.0, 1, 2);
    assert PassOne(listed, targets, 150.0, 2)[0] == PassOne(listed, targets, 150.0, 2)[..1][0];
  }

  lemma PairPairing()
    ensures SideSlots(TightDesk(), BidTask(PairPlan([TooLarge(), AsLower()]))) == [Slot(Some(0), Some(0), 0), Slot(Some(1), Some(1), 1)]
  {
    hide SignedWorstFee, SideBook;
    BothBids(TooLarge(), AsLower());
    var listed, targets := [TooLarge(), AsLower()], [Upper(), Lower()];
    assert PassOne(listed, targets, 150.0, 1) == [0] by {
      assert Nearest(listed, targets[0], [], Bps(150.0), 1) == 0;
    }
    assert Nearest(listed, targets[1], [0], Bps(150.0), 1) == -1;
    assert PriceDrift(101.5, 100.0) == Bps(1.5 / 101.5 * 10000.0);
    assert Nearest(listed, targets[1], [0], Bps(150.0), 2) == 1;
    var one := PassOne(listed, targets, 150.0, 2);
    assert one == [0, 1];
    assert PassTwo(listed, targets, one, 1) == one && PassTwo(listed, targets, one, 2) == one;
    assert TargetSlots([0, 1]) == [Slot(Some(0), Some(0), 0), Slot(Some(1), Some(1), 1)];
    assert Unclaimed([0, 1], 2) == [];
  }

  lemma PairVerdicts()
    ensures VerdictOn(TightDesk(), TooLarge(), Some(Upper()), None, None, 0) == Cancel(SizeMismatch, true)
    ensures VerdictOn(TightDesk(), AsLower(), Some(Lower()), None, None, 0).Keep?
    ensures VerdictOn(TightDesk(), AsLower(), Some(Upper()), None, None, 1) == Cancel(SizeMismatch, true)
    ensures CanSign(TightDesk(), Upper(), 0) && SignedOrder(TightDesk(), Upper(), Identity("a", 1), 0) == Replacement()
  {
    Readable(101.5);
    assert PriceDrift(101.5, 100.0) == Bps(1.5 / 101.5 * 10000.0);
  }

  lemma PairRun()
    ensures var task, st := BidTask(PairPlan([TooLarge(), AsLower()])), Start([TooLarge(), AsLower()]);
            var end := RunSide(TightDesk(), task, st, Calm(0));
            !end.failed && end.book == [AsLower(), Replacement()] && NothingHeld(TightDesk(), task, st, SideSlots(TightDesk(), task), Calm(0))
  {
    hide SideSlots, VerdictOn, SignedOrder, SideBook, CanSign, SignedWorstFee, Without;
    PairPairing();
    PairVerdicts();
    BothBids(TooLarge(), AsLower());
    var desk, task, st := TightDesk(), BidTask(PairPlan([TooLarge(), AsLower()])), Start([TooLarge(), AsLower()]);
    var slots := SideSlots(desk, task);
    WithoutNothing(st.book);
    TheFirstGoes();
    var half := SlotStep(desk, task, st, slots[0], Calm(0)(0));
    assert half.book == [AsLower(), Replacement()];
    WithoutNothing(half.book);
    assert RunSlots(desk, task, st, slots, Calm(0), 0) == st;
    assert RunSlots(desk, task, st, slots, Calm(0), 1) == half;
    assert RunSlots(desk, task, st, slots, Calm(0), 2) == SlotStep(desk, task, half, slots[1], Calm(0)(1));
  }

  lemma TheFirstGoes()
    ensures Without([TooLarge(), AsLower()], {"x"}) == [AsLower()]
  {
    assert [TooLarge(), AsLower()][..1] == [TooLarge()] && [TooLarge()][..0] == [];
    assert Without([TooLarge()], {"x"}) == [];
  }

  lemma PairSecond()
    ensures var task := BidTask(PairPlan([AsLower(), Replacement()]));
            && |SideSlots(TightDesk(), task)| > 0 && SideSlots(TightDesk(), task)[0] == Slot(Some(0), Some(0), 0)
            && !KeptAt(TightDesk(), task, SideSlots(TightDesk(), task)[0], Calm(1)(0))
  {
    hide SignedWorstFee, SideBook, VerdictOn;
    BothBids(AsLower(), Replacement());
    FirstOfTwo([AsLower(), Replacement()]);
    SecondPassPairsAreFar([AsLower(), Replacement()], [Upper(), Lower()], 150.0, 0);
    PairVerdicts();
  }

  /** Two listed orders at one price: the ladder is spaced and uncrossed and the first Sync is accepted in
      full, but the order it keeps for the lower level stands before the one it placed at the same price,
      and the next Sync gives it to the upper level. */
  lemma SamePriceChurns()
    ensures var p := PairPlan([TooLarge(), AsLower()]);
            Ladders(p.bids, p.asks) && Restful(p.bids, p.asks, TightDesk().cfg.staleBPS) && Completed(TightDesk(), p, Start(p.listed), Calm(0), Calm(0))
            && RunSync(TightDesk(), p, Start(p.listed), Calm(0), Calm(0)).book == [AsLower(), Replacement()]
    ensures var next := PairPlan([AsLower(), Replacement()]); RunSync(TightDesk(), next, Start(next.listed), Calm(1), Calm(1)).sent != []
  {
    hide RunSide, NothingHeld, SideBook, SideSlots, SignedWorstFee, KeptAt, Spaced, StrictLadder;
    PairIsRestful();
    PairRun();
    PairSecond();
    BothBids(TooLarge(), AsLower());
    BothBids(AsLower(), Replacement());
    var p, next := PairPlan([TooLarge(), AsLower()]), PairPlan([AsLower(), Replacement()]);
    NoAskSlots(p);
    NoAskSlots(next);
    NoneIsProtected();
    PairCanBeQuoted();
    RestfulLadders.UnkeptIsSent(TightDesk(), BidTask(next), Start(next.listed), 1, 0);
  }

  lemma PairCanBeQuoted()
    ensures RestfulLadders.CanQuote(TightDesk(), [Upper(), Lower()], 1)
  {
    Readable(101.5);
    Readable(100.0);
  }

  lemma NoneIsProtected()
    ensures forall id :: !Protected(TightDesk().cfg, id)
  {
  }

  lemma NoAskSlots(p: Plan)
    requires SideBook(Sell, p.listed) == [] && p.asks == []
    ensures SideSlots(TightDesk(), AskTask(p)) == []
    ensures forall st, moments :: RunSide(TightDesk(), AskTask(p), st, moments) == st
    ensures forall st, moments :: NothingHeld(TightDesk(), AskTask(p), st, SideSlots(TightDesk(), AskTask(p)), moments)
  {
  }
}
