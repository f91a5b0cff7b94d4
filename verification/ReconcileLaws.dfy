/** What one reconciliation guarantees for every answer the venue can give: a bound on the resting
    orders at every intermediate step, sound signed terms, no request after a failure, each identity
    used at most once, and the cancel budget. */
module ReconcileLaws {
  import opened Market
  import opened Pairing
  import opened PairingLaws
  import opened Reconcile

  // ----- the book as a set of ids -----

  lemma {:induction false} WithoutIs(book: seq<Order>, ids: set<string>, o: Order)
    ensures o in Without(book, ids) <==> o in book && o.id !in ids
  {
    if book != [] {
      WithoutIs(book[..|book| - 1], ids, o);
      assert book == book[..|book| - 1] + [book[|book| - 1]];
    }
  }

  lemma WithoutAll(book: seq<Order>, ids: set<string>)
    ensures forall o :: o in Without(book, ids) <==> o in book && o.id !in ids
  {
    forall o ensures o in Without(book, ids) <==> o in book && o.id !in ids {
      WithoutIs(book, ids, o);
    }
  }

  lemma {:induction false} WithoutNothing(book: seq<Order>)
    ensures Without(book, {}) == book
  {
    if book != [] {
      WithoutNothing(book[..|book| - 1]);
    }
  }

  lemma {:induction false} WithoutDistinct(book: seq<Order>, ids: set<string>)
    requires DistinctIDs(book)
    ensures DistinctIDs(Without(book, ids))
  {
    if book != [] {
      var init, last := book[..|book| - 1], book[|book| - 1];
      WithoutDistinct(init, ids);
      WithoutAll(init, ids);
      var kept := Without(init, ids);
      forall i | 0 <= i < |kept| ensures kept[i].id != last.id {
        assert kept[i] in init;
      }
    }
  }

  predicate Counts(desk: Desk, side: Side, o: Order) {
    o.side == side && !Protected(desk.cfg, o.id)
  }

  /** The ids of the unprotected orders resting on one side. */
  ghost function Mine(desk: Desk, side: Side, book: seq<Order>): set<string> {
    set o | o in book && Counts(desk, side, o) :: o.id
  }

  function RestingCount(desk: Desk, side: Side, book: seq<Order>): nat {
    if book == [] then 0
    else RestingCount(desk, side, book[..|book| - 1]) + if Counts(desk, side, book[|book| - 1]) then 1 else 0
  }

  lemma MineGrows(desk: Desk, side: Side, init: seq<Order>, last: Order)
    ensures Mine(desk, side, init + [last]) == Mine(desk, side, init) + if Counts(desk, side, last) then {last.id} else {}
  {
    var book := init + [last];
    forall o ensures o in book <==> o in init || o == last {
    }
    assert last in book;
  }

  lemma {:induction false} CountIsCard(desk: Desk, side: Side, book: seq<Order>)
    requires DistinctIDs(book)
    ensures RestingCount(desk, side, book) == |Mine(desk, side, book)|
  {
    if book == [] {
      assert Mine(desk, side, book) == {};
    } else {
      var init, last := book[..|book| - 1], book[|book| - 1];
      CountIsCard(desk, side, init);
      assert book == init + [last];
      MineGrows(desk, side, init, last);
      assert last.id !in Mine(desk, side, init);
    }
  }

  // ----- what one slot can leave -----

  ghost function SlotIDs(task: Task, s: Slot): set<string>
    requires SlotFits(task, s)
  {
    if s.order.Some? then {task.existing[s.order.value].id} else {}
  }

  /** Orders listed in the slots from k on. */
  ghost function Ahead(task: Task, slots: seq<Slot>, k: nat): set<string>
    requires k <= |slots| && SlotsFit(task, slots)
    decreases |slots| - k
  {
    if k == |slots| then {} else SlotIDs(task, slots[k]) + Ahead(task, slots, k + 1)
  }

  lemma {:induction false} AheadCard(task: Task, slots: seq<Slot>, k: nat)
    requires k <= |slots| && SlotsFit(task, slots)
    ensures |Ahead(task, slots, k)| <= |slots| - k
    decreases |slots| - k
  {
    if k < |slots| {
      AheadCard(task, slots, k + 1);
      UnionCard(SlotIDs(task, slots[k]), Ahead(task, slots, k + 1));
    }
  }

  lemma UnionCard<T>(a: set<T>, b: set<T>)
    ensures |a + b| <= |a| + |b|
  {
    assert a + b == a + (b - a);
    assert |a + (b - a)| == |a| + |b - a|;
    assert b == (b - a) + (b * a);
    assert |b| == |b - a| + |b * a|;
  }

  lemma SubsetCard<T>(a: set<T>, b: set<T>)
    requires a <= b
    ensures |a| <= |b|
  {
    assert b == a + (b - a);
    assert |b| == |a| + |b - a|;
  }

  lemma {:induction false} AheadIs(task: Task, slots: seq<Slot>, k: nat, s: nat)
    requires k <= s < |slots| && SlotsFit(task, slots) && slots[s].order.Some?
    ensures task.existing[slots[s].order.value].id in Ahead(task, slots, k)
    decreases s - k
  {
    if k < s {
      AheadIs(task, slots, k + 1, s);
    }
  }

  /** The id a slot can leave on its side: its order if that stays, else the level's new order. */
  ghost function Leaves(desk: Desk, task: Task, st: State, s: Slot, m: Moment): set<string>
    requires SlotFits(task, s)
  {
    var (after, free) := SlotCancel(desk, task, st, s, m);
    if after.failed || !free then SlotIDs(task, s)
    else if s.target.Some? && 0 <= s.level < |task.ids| then {task.ids[s.level].orderID}
    else {}
  }

  ghost predicate SidesAgree(task: Task, side: Side) {
    (forall j :: 0 <= j < |task.existing| ==> task.existing[j].side == side) &&
    (forall k :: 0 <= k < |task.targets| ==> task.targets[k].side == side)
  }

  lemma CancelOneFrees(desk: Desk, st: State, o: Order, rationed: bool, m: Moment, side: Side)
    requires !desk.cfg.dryRun && !st.failed
    ensures var (after, free) := CancelOne(desk, st, o, rationed, m);
            && (free <==> !after.failed)
            && Mine(desk, side, after.book) <= Mine(desk, side, st.book)
            && (free ==> Mine(desk, side, after.book) <= Mine(desk, side, st.book) - {o.id})
  {
    WithoutAll(st.book, {o.id});
    var (after, free) := CancelOne(desk, st, o, rationed, m);
    forall x | x in Mine(desk, side, after.book) ensures x in Mine(desk, side, st.book) && (free ==> x != o.id) {
      var p :| p in after.book && Counts(desk, side, p) && p.id == x;
      assert p in st.book;
    }
  }

  lemma SlotCancelFrees(desk: Desk, task: Task, st: State, s: Slot, m: Moment, side: Side)
    requires SlotFits(task, s) && !desk.cfg.dryRun && !st.failed
    ensures var (after, free) := SlotCancel(desk, task, st, s, m);
            && Mine(desk, side, after.book) <= Mine(desk, side, st.book)
            && (free ==> !after.failed && Mine(desk, side, after.book) <= Mine(desk, side, st.book) - SlotIDs(task, s))
            && (!free && s.target.None? ==> after.failed)
  {
    hide Without;
    WithoutAll(st.book, m.departed);
    var gone := Depart(st, m);
    forall x | x in Mine(desk, side, gone.book) ensures x in Mine(desk, side, st.book) {
      var p :| p in gone.book && Counts(desk, side, p) && p.id == x;
      assert p in st.book;
    }
    if s.order.Some? {
      var o := task.existing[s.order.value];
      CancelOneFrees(desk, gone, o, false, m, side);
      CancelOneFrees(desk, gone.(budget := Looked(desk, gone.budget, m.now)), o, true, m, side);
    }
  }

  lemma PlaceAddsOne(desk: Desk, st: State, q: Quote, level: int, ids: seq<Identity>, m: Moment, side: Side)
    requires !st.failed
    ensures Mine(desk, side, PlacePhase(desk, st, q, level, ids, m).book) <=
            Mine(desk, side, st.book) + if 0 <= level < |ids| && q.side == side then {ids[level].orderID} else {}
  {
  }

  /** A slot replaces its own order by at most one other; a slot without a target leaves nothing. */
  lemma SlotLeavesOne(desk: Desk, task: Task, st: State, s: Slot, m: Moment, side: Side)
    requires SlotFits(task, s) && !desk.cfg.dryRun && !st.failed && SidesAgree(task, side)
    ensures Mine(desk, side, SlotStep(desk, task, st, s, m).book) <=
            (Mine(desk, side, st.book) - SlotIDs(task, s)) + Leaves(desk, task, st, s, m)
    ensures |Leaves(desk, task, st, s, m)| <= 1
    ensures s.target.None? && !SlotStep(desk, task, st, s, m).failed ==> Leaves(desk, task, st, s, m) == {}
  {
    SlotCancelFrees(desk, task, st, s, m, side);
    var (after, free) := SlotCancel(desk, task, st, s, m);
    if !after.failed && free && s.target.Some? {
      PlaceAddsOne(desk, after, task.targets[s.target.value], s.level, task.ids, m, side);
    }
  }

  // ----- the bound, at every step -----

  /** Beyond what is still listed ahead, k slots leave at most one order each, and only where there
      is a target. */
  ghost predicate Bounded(desk: Desk, task: Task, side: Side, slots: seq<Slot>, st: State, k: nat)
    requires k <= |slots| && SlotsFit(task, slots)
  {
    && |Mine(desk, side, st.book) - Ahead(task, slots, k)| <= k
    && (!st.failed && k >= |task.targets| ==> |Mine(desk, side, st.book) - Ahead(task, slots, k)| <= |task.targets|)
  }

  lemma SwapCard<T>(before: set<T>, after: set<T>, own: set<T>, ahead: set<T>, leaves: set<T>)
    requires after <= (before - own) + leaves
    ensures |after - ahead| <= |before - (own + ahead)| + |leaves|
  {
    SubsetCard(after - ahead, (before - (own + ahead)) + leaves);
    UnionCard(before - (own + ahead), leaves);
  }

  lemma SlotKeepsBounded(desk: Desk, task: Task, side: Side, slots: seq<Slot>, st: State, m: Moment, k: nat)
    requires k < |slots| && SlotsFit(task, slots) && !desk.cfg.dryRun && SidesAgree(task, side)
    requires Partitions(slots, |task.existing|, |task.targets|)
    requires Bounded(desk, task, side, slots, st, k)
    ensures Bounded(desk, task, side, slots, SlotStep(desk, task, st, slots[k], m), k + 1)
  {
    hide SlotCancel, PlacePhase, Leaves, Mine, Ahead;
    var after := SlotStep(desk, task, st, slots[k], m);
    AheadSplits(task, slots, k);
    if st.failed {
      StepAheadCard(task, slots, k, Mine(desk, side, st.book));
    } else {
      SlotLeavesOne(desk, task, st, slots[k], m, side);
      SwapCard(Mine(desk, side, st.book), Mine(desk, side, after.book), SlotIDs(task, slots[k]), Ahead(task, slots, k + 1),
               Leaves(desk, task, st, slots[k], m));
    }
  }

  lemma AheadSplits(task: Task, slots: seq<Slot>, k: nat)
    requires k < |slots| && SlotsFit(task, slots)
    ensures Ahead(task, slots, k) == SlotIDs(task, slots[k]) + Ahead(task, slots, k + 1)
  {
  }

  /** Passing a slot by exposes at most the one order it lists. */
  lemma StepAheadCard(task: Task, slots: seq<Slot>, k: nat, mine: set<string>)
    requires k < |slots| && SlotsFit(task, slots)
    ensures |mine - Ahead(task, slots, k + 1)| <= |mine - Ahead(task, slots, k)| + 1
  {
    SubsetCard(mine - Ahead(task, slots, k + 1), (mine - Ahead(task, slots, k)) + SlotIDs(task, slots[k]));
    UnionCard(mine - Ahead(task, slots, k), SlotIDs(task, slots[k]));
  }

  lemma InitiallyBounded(desk: Desk, task: Task, side: Side, st: State, slots: seq<Slot>)
    requires SlotsFit(task, slots) && Mine(desk, side, st.book) <= Ahead(task, slots, 0)
    ensures Bounded(desk, task, side, slots, st, 0)
  {
    assert Mine(desk, side, st.book) - Ahead(task, slots, 0) == {};
  }

  lemma {:induction false} RunKeepsBounded(desk: Desk, task: Task, side: Side, st: State, slots: seq<Slot>, moments: nat -> Moment, k: nat)
    requires k <= |slots| && SlotsFit(task, slots) && !desk.cfg.dryRun && SidesAgree(task, side)
    requires Partitions(slots, |task.existing|, |task.targets|)
    requires Mine(desk, side, st.book) <= Ahead(task, slots, 0)
    ensures Bounded(desk, task, side, slots, RunSlots(desk, task, st, slots, moments, k), k)
  {
    hide SlotStep, Bounded, Partitions, SidesAgree, Mine, Ahead;
    if k == 0 {
      InitiallyBounded(desk, task, side, st, slots);
    } else {
      RunKeepsBounded(desk, task, side, st, slots, moments, k - 1);
      SlotKeepsBounded(desk, task, side, slots, RunSlots(desk, task, st, slots, moments, k - 1), moments(k - 1), k - 1);
    }
  }

  /** Everything of ours resting on the side was listed. */
  ghost predicate AllListed(desk: Desk, task: Task, side: Side, book: seq<Order>) {
    forall o :: o in book && Counts(desk, side, o) ==> o in task.existing
  }

  lemma ListedIsAhead(desk: Desk, task: Task, side: Side, slots: seq<Slot>, book: seq<Order>)
    requires SlotsFit(task, slots) && Partitions(slots, |task.existing|, |task.targets|)
    requires AllListed(desk, task, side, book)
    ensures Mine(desk, side, book) <= Ahead(task, slots, 0)
  {
    forall x | x in Mine(desk, side, book) ensures x in Ahead(task, slots, 0) {
      var o :| o in book && Counts(desk, side, o) && o.id == x;
      var j :| 0 <= j < |task.existing| && task.existing[j] == o;
      assert InSomeSlot(slots, j);
      var s :| 0 <= s < |slots| && slots[s].order == Some(j);
      AheadIs(task, slots, 0, s);
    }
  }

  /** When a side completes outside dry-run, no more unprotected orders rest than there are targets. */
  lemma SideEndsWithinTargets(desk: Desk, task: Task, side: Side, st: State, moments: nat -> Moment)
    requires !desk.cfg.dryRun && SidesAgree(task, side) && AllListed(desk, task, side, st.book)
    requires !RunSide(desk, task, st, moments).failed
    ensures |Mine(desk, side, RunSide(desk, task, st, moments).book)| <= |task.targets|
  {
    var slots := SideSlots(desk, task);
    PairingPartitions(task.existing, task.targets, desk.cfg.staleBPS);
    ListedIsAhead(desk, task, side, slots, st.book);
    RunKeepsBounded(desk, task, side, st, slots, moments, |slots|);
    var end := Mine(desk, side, RunSide(desk, task, st, moments).book);
    assert end - Ahead(task, slots, |slots|) == end;
  }

  /** With every price positive, no intermediate step -- after any slot, or between a slot's cancel
      and its placement, failed or not -- has more unprotected orders resting than the longer of the
      listed side and the ladder. */
  lemma NeverMoreThanTheLongerLadder(desk: Desk, task: Task, side: Side, st: State, moments: nat -> Moment, k: nat)
    requires !desk.cfg.dryRun && SidesAgree(task, side) && AllListed(desk, task, side, st.book)
    requires desk.cfg.staleBPS <= 0.0 || AllPositive(task.existing, task.targets)
    requires k <= |SideSlots(desk, task)|
    ensures var slots := SideSlots(desk, task);
            var longer := if |task.targets| > |task.existing| then |task.targets| else |task.existing|;
            var now := RunSlots(desk, task, st, slots, moments, k);
            && |Mine(desk, side, now.book)| <= longer
            && (k < |slots| && !now.failed ==>
                |Mine(desk, side, SlotCancel(desk, task, now, slots[k], moments(k)).0.book)| <= longer)
  {
    var slots := SideSlots(desk, task);
    PairingPartitions(task.existing, task.targets, desk.cfg.staleBPS);
    SlotCount(task.existing, task.targets, desk.cfg.staleBPS);
    ListedIsAhead(desk, task, side, slots, st.book);
    RunKeepsBounded(desk, task, side, st, slots, moments, k);
    var now := RunSlots(desk, task, st, slots, moments, k);
    var mine, ahead := Mine(desk, side, now.book), Ahead(task, slots, k);
    AheadCard(task, slots, k);
    UnionCard(mine - ahead, ahead);
    SubsetCard(mine, (mine - ahead) + ahead);
    if k < |slots| && !now.failed {
      SlotCancelFrees(desk, task, now, slots[k], moments(k), side);
      SubsetCard(Mine(desk, side, SlotCancel(desk, task, now, slots[k], moments(k)).0.book), mine);
    }
  }
}
