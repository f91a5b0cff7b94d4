/** Signed terms after a reconciliation, where the resting orders come from, and the whole Sync. */
module ReconcileTerms {
  import opened Market
  import opened Pairing
  import opened PairingLaws
  import opened Decision
  import opened Reconcile
  import opened ReconcileLaws
  import FeeBound

  // ----- listing one side -----

  lemma {:induction false} InsertIs(side: Side, sorted: seq<Order>, o: Order, x: Order)
    ensures x in Insert(side, sorted, o) <==> x in sorted || x == o
  {
    if sorted != [] && Better(side, o.price, sorted[|sorted| - 1].price) {
      InsertIs(side, sorted[..|sorted| - 1], o, x);
      assert sorted == sorted[..|sorted| - 1] + [sorted[|sorted| - 1]];
    }
  }

  lemma {:induction false} SideBookIs(side: Side, orders: seq<Order>, x: Order)
    ensures x in SideBook(side, orders) <==> x in orders && x.side == side
  {
    if orders != [] {
      var init, last := orders[..|orders| - 1], orders[|orders| - 1];
      SideBookIs(side, init, x);
      assert orders == init + [last];
      if last.side == side {
        InsertIs(side, SideBook(side, init), last, x);
      }
    }
  }

  lemma SideBookAll(side: Side, orders: seq<Order>)
    ensures forall x :: x in SideBook(side, orders) <==> x in orders && x.side == side
  {
    forall x ensures x in SideBook(side, orders) <==> x in orders && x.side == side {
      SideBookIs(side, orders, x);
    }
  }

  // ----- where a resting order comes from -----

  /** Placed for level l at moment l. */
  ghost predicate PlacedFor(desk: Desk, task: Task, moments: nat -> Moment, o: Order, l: int) {
    && 0 <= l < |task.targets| && l < |task.ids|
    && CanSign(desk, task.targets[l], moments(l).now)
    && o == SignedOrder(desk, task.targets[l], task.ids[l], moments(l).now)
  }

  ghost predicate PlacedBefore(desk: Desk, task: Task, moments: nat -> Moment, o: Order, k: nat) {
    exists l :: 0 <= l < k && PlacedFor(desk, task, moments, o, l)
  }

  lemma CancelOneOrigins(desk: Desk, st: State, o: Order, rationed: bool, m: Moment)
    ensures forall x :: x in CancelOne(desk, st, o, rationed, m).0.book ==> x in st.book
    ensures !desk.cfg.dryRun && !Protected(desk.cfg, o.id) && CancelOne(desk, st, o, rationed, m).1 ==>
              o !in CancelOne(desk, st, o, rationed, m).0.book
  {
    WithoutAll(st.book, {o.id});
  }

  lemma CancelOrigins(desk: Desk, task: Task, st: State, s: Slot, m: Moment)
    requires SlotFits(task, s)
    ensures forall o :: o in SlotCancel(desk, task, st, s, m).0.book ==> o in st.book
    ensures !desk.cfg.dryRun && s.order.Some? && !Protected(desk.cfg, task.existing[s.order.value].id) && SlotCancel(desk, task, st, s, m).1 ==>
              task.existing[s.order.value] !in SlotCancel(desk, task, st, s, m).0.book
  {
    hide VerdictOn, Without;
    WithoutAll(st.book, m.departed);
    if s.order.Some? {
      var gone, o := Depart(st, m), task.existing[s.order.value];
      CancelOneOrigins(desk, gone, o, false, m);
      CancelOneOrigins(desk, gone.(budget := Looked(desk, gone.budget, m.now)), o, true, m);
    }
  }

  lemma PlaceOrigins(desk: Desk, task: Task, st: State, moments: nat -> Moment, k: nat)
    requires k < |task.targets|
    ensures forall o :: o in PlacePhase(desk, st, task.targets[k], k, task.ids, moments(k)).book ==>
              o in st.book || PlacedFor(desk, task, moments, o, k)
  {
  }

  lemma StepOrigins(desk: Desk, task: Task, st: State, slots: seq<Slot>, moments: nat -> Moment, k: nat)
    requires k < |slots| && SlotsFit(task, slots) && Partitions(slots, |task.existing|, |task.targets|)
    ensures forall o :: o in SlotStep(desk, task, st, slots[k], moments(k)).book ==>
              PlacedFor(desk, task, moments, o, k) || o in st.book
    ensures forall o :: o in SlotStep(desk, task, st, slots[k], moments(k)).book && !st.failed ==>
              PlacedFor(desk, task, moments, o, k) || o in SlotCancel(desk, task, st, slots[k], moments(k)).0.book
  {
    CancelOrigins(desk, task, st, slots[k], moments(k));
    if k < |task.targets| {
      PlaceOrigins(desk, task, SlotCancel(desk, task, st, slots[k], moments(k)).0, moments, k);
    }
  }

  lemma {:induction false} RunOrigins(desk: Desk, task: Task, st: State, slots: seq<Slot>, moments: nat -> Moment, k: nat)
    requires k <= |slots| && SlotsFit(task, slots) && Partitions(slots, |task.existing|, |task.targets|)
    ensures forall o :: o in RunSlots(desk, task, st, slots, moments, k).book ==>
              o in st.book || PlacedBefore(desk, task, moments, o, k)
  {
    hide SlotStep, PlacedFor;
    if k > 0 {
      RunOrigins(desk, task, st, slots, moments, k - 1);
      StepOrigins(desk, task, RunSlots(desk, task, st, slots, moments, k - 1), slots, moments, k - 1);
      PlacedBeforeGrows(desk, task, moments, k - 1);
    }
  }

  lemma PlacedBeforeGrows(desk: Desk, task: Task, moments: nat -> Moment, k: nat)
    ensures forall o :: PlacedBefore(desk, task, moments, o, k) || PlacedFor(desk, task, moments, o, k) ==>
              PlacedBefore(desk, task, moments, o, k + 1)
  {
  }

  // ----- signed terms -----

  /** The schedule new orders are signed against is not below the one resting orders are judged by. */
  predicate SignerCovers(desk: Desk) {
    desk.signer == desk.fee ||
    (0 < desk.fee.takerFeeBps <= desk.signer.takerFeeBps && desk.signer == desk.fee.(takerFeeBps := desk.signer.takerFeeBps))
  }

  ghost predicate Monotone(moments: nat -> Moment, start: int) {
    (forall i: nat :: start <= moments(i).now) && forall i: nat, j: nat :: i <= j ==> moments(i).now <= moments(j).now
  }

  /** The configured post-only flag, a fee bound at or above the readable required one, an expiry not
      beyond configuration by `now`, and -- unless the expiry is unknown or is the market's own cap --
      more than the replace margin left at `start`. */
  ghost predicate Sound(desk: Desk, o: Order, start: int, now: int) {
    && TermsHold(desk.cfg, o, Required(desk, o.price), now)
    && (o.expiry > 0 && desk.cap != CapAt(o.expiry) ==> o.expiry - start > desk.cfg.expiryMargin)
  }

  lemma SignedOrdersAreSound(desk: Desk, q: Quote, id: Identity, start: int, now: int)
    requires CanSign(desk, q, now) && ExpiryConfigValid(desk.cfg) && SignerCovers(desk) && start <= now
    ensures Sound(desk, SignedOrder(desk, q, id, now), start, now)
  {
    if desk.signer != desk.fee {
      FeeBound.BoundIsMonotone(desk.fee, desk.signer, q.price, q.price);
    }
  }

  ghost predicate StillAhead(task: Task, slots: seq<Slot>, k: nat, o: Order)
    requires SlotsFit(task, slots)
  {
    exists s :: k <= s < |slots| && slots[s].order.Some? && task.existing[slots[s].order.value] == o
  }

  ghost predicate TermsSoFar(desk: Desk, task: Task, side: Side, slots: seq<Slot>, book: seq<Order>, start: int, now: int, k: nat)
    requires SlotsFit(task, slots)
  {
    forall o :: o in book && Counts(desk, side, o) ==> StillAhead(task, slots, k, o) || Sound(desk, o, start, now)
  }

  /** When the first k slots were last decided. */
  function Clock(moments: nat -> Moment, start: int, k: nat): int {
    if k == 0 then start else moments(k - 1).now
  }

  /** The standing assumptions of a side's terms argument. */
  ghost predicate TermsSetting(desk: Desk, task: Task, slots: seq<Slot>, moments: nat -> Moment, start: int) {
    && SlotsFit(task, slots) && Partitions(slots, |task.existing|, |task.targets|)
    && !desk.cfg.dryRun && ExpiryConfigValid(desk.cfg) && SignerCovers(desk) && Monotone(moments, start)
  }

  /** A slot's own unprotected order rests past its slot only if its verdict let it stay. */
  lemma SurvivorIsSound(desk: Desk, task: Task, st: State, s: Slot, m: Moment, o: Order, start: int)
    requires SlotFits(task, s) && !desk.cfg.dryRun && start <= m.now && !Protected(desk.cfg, o.id)
    requires s.order.Some? && task.existing[s.order.value] == o
    requires !SlotCancel(desk, task, st, s, m).0.failed
    requires o in SlotCancel(desk, task, st, s, m).0.book
    ensures Sound(desk, o, start, m.now)
  {
    CancelOrigins(desk, task, st, s, m);
    OnlySoundTermsSurvive(o, TargetOf(task, s), task.opposite, desk.cfg, task.fallback, m.now, desk.quantum, Required(desk, o.price));
  }

  lemma SlotKeepsTerms(desk: Desk, task: Task, side: Side, slots: seq<Slot>, st: State, moments: nat -> Moment, start: int, k: nat)
    requires TermsSetting(desk, task, slots, moments, start) && k < |slots|
    requires TermsSoFar(desk, task, side, slots, st.book, start, Clock(moments, start, k), k) && !st.failed
    requires !SlotStep(desk, task, st, slots[k], moments(k)).failed
    ensures TermsSoFar(desk, task, side, slots, SlotStep(desk, task, st, slots[k], moments(k)).book, start, moments(k).now, k + 1)
  {
    var cancelled := SlotCancel(desk, task, st, slots[k], moments(k)).0;
    var after := SlotStep(desk, task, st, slots[k], moments(k));
    var now := moments(k).now;
    StepOrigins(desk, task, st, slots, moments, k);
    CancelOrigins(desk, task, st, slots[k], moments(k));
    forall o | o in after.book && Counts(desk, side, o) && !StillAhead(task, slots, k + 1, o) ensures Sound(desk, o, start, now) {
      if PlacedFor(desk, task, moments, o, k) {
        SignedOrdersAreSound(desk, task.targets[k], task.ids[k], start, now);
      } else {
        assert o in cancelled.book && o in st.book;
        if Sound(desk, o, start, Clock(moments, start, k)) {
          TermsOutlastTheClock(desk.cfg, o, Required(desk, o.price), Clock(moments, start, k), now);
        } else {
          OnlyThisSlot(task, slots, k, o);
          SurvivorIsSound(desk, task, st, slots[k], moments(k), o, start);
        }
      }
    }
  }

  lemma OnlyThisSlot(task: Task, slots: seq<Slot>, k: nat, o: Order)
    requires k < |slots| && SlotsFit(task, slots)
    requires StillAhead(task, slots, k, o) && !StillAhead(task, slots, k + 1, o)
    ensures slots[k].order.Some? && task.existing[slots[k].order.value] == o
  {
  }

  lemma {:induction false} FailureIsFinal(desk: Desk, task: Task, st: State, slots: seq<Slot>, moments: nat -> Moment, j: nat, k: nat)
    requires j <= k <= |slots| && SlotsFit(task, slots)
    requires RunSlots(desk, task, st, slots, moments, j).failed
    ensures RunSlots(desk, task, st, slots, moments, k) == RunSlots(desk, task, st, slots, moments, j)
  {
    hide SlotCancel, PlacePhase;
    if j < k {
      FailureIsFinal(desk, task, st, slots, moments, j, k - 1);
    }
  }

  lemma ListedIsStillAhead(desk: Desk, task: Task, side: Side, slots: seq<Slot>, book: seq<Order>, start: int)
    requires SlotsFit(task, slots) && Partitions(slots, |task.existing|, |task.targets|)
    requires AllListed(desk, task, side, book)
    ensures TermsSoFar(desk, task, side, slots, book, start, start, 0)
  {
    forall o | o in book && Counts(desk, side, o) ensures StillAhead(task, slots, 0, o) {
      var j :| 0 <= j < |task.existing| && task.existing[j] == o;
      assert InSomeSlot(slots, j);
      var s :| 0 <= s < |slots| && slots[s].order == Some(j);
    }
  }

  lemma {:induction false} RunKeepsTerms(desk: Desk, task: Task, side: Side, slots: seq<Slot>, st: State, moments: nat -> Moment, start: int, k: nat)
    requires TermsSetting(desk, task, slots, moments, start) && k <= |slots|
    requires AllListed(desk, task, side, st.book)
    requires !RunSlots(desk, task, st, slots, moments, k).failed
    ensures TermsSoFar(desk, task, side, slots, RunSlots(desk, task, st, slots, moments, k).book, start,
                       Clock(moments, start, k), k)
  {
    hide SlotCancel, PlacePhase, TermsSoFar, Partitions, AllListed, Monotone;
    if k == 0 {
      ListedIsStillAhead(desk, task, side, slots, st.book, start);
    } else {
      var before := RunSlots(desk, task, st, slots, moments, k - 1);
      RunKeepsTerms(desk, task, side, slots, st, moments, start, k - 1);
      SlotKeepsTerms(desk, task, side, slots, before, moments, start, k - 1);
    }
  }

  /** When a side completes, every unprotected order resting on it -- kept, suppressed or new -- is
      under sound terms at the time of the last decision. */
  lemma SideEndsSound(desk: Desk, task: Task, side: Side, st: State, moments: nat -> Moment, start: int, end: int)
    requires !desk.cfg.dryRun && ExpiryConfigValid(desk.cfg) && SignerCovers(desk) && Monotone(moments, start)
    requires AllListed(desk, task, side, st.book) && !RunSide(desk, task, st, moments).failed
    requires start <= end && forall i: nat :: i < |SideSlots(desk, task)| ==> moments(i).now <= end
    ensures forall o :: o in RunSide(desk, task, st, moments).book && Counts(desk, side, o) ==> Sound(desk, o, start, end)
  {
    var slots := SideSlots(desk, task);
    PairingPartitions(task.existing, task.targets, desk.cfg.staleBPS);
    RunKeepsTerms(desk, task, side, slots, st, moments, start, |slots|);
    var last := Clock(moments, start, |slots|);
    forall o | o in RunSide(desk, task, st, moments).book && Counts(desk, side, o) ensures Sound(desk, o, start, end) {
      assert !StillAhead(task, slots, |slots|, o);
      TermsOutlastTheClock(desk.cfg, o, Required(desk, o.price), last, end);
    }
  }

  // ----- the whole Sync -----

  ghost predicate PlanSides(p: Plan) {
    (forall k :: 0 <= k < |p.bids| ==> p.bids[k].side == Buy) && forall k :: 0 <= k < |p.asks| ==> p.asks[k].side == Sell
  }

  ghost predicate Covered(desk: Desk, p: Plan, book: seq<Order>) {
    forall o :: o in book && !Protected(desk.cfg, o.id) ==> o in p.listed
  }

  lemma TasksAgree(desk: Desk, p: Plan, book: seq<Order>)
    requires PlanSides(p) && Covered(desk, p, book)
    ensures SidesAgree(BidTask(p), Buy) && SidesAgree(AskTask(p), Sell)
    ensures AllListed(desk, BidTask(p), Buy, book) && AllListed(desk, AskTask(p), Sell, book)
  {
    SideBookAll(Buy, p.listed);
    SideBookAll(Sell, p.listed);
    forall j | 0 <= j < |BidTask(p).existing| ensures BidTask(p).existing[j].side == Buy {
      assert BidTask(p).existing[j] in BidTask(p).existing;
    }
    forall j | 0 <= j < |AskTask(p).existing| ensures AskTask(p).existing[j].side == Sell {
      assert AskTask(p).existing[j] in AskTask(p).existing;
    }
  }

  /** A side's run only adds orders of its own side. */
  lemma SideAddsOnlyItsOwn(desk: Desk, task: Task, side: Side, st: State, moments: nat -> Moment)
    requires SidesAgree(task, side)
    ensures forall o :: o in RunSide(desk, task, st, moments).book ==> o in st.book || o.side == side
  {
    PairingPartitions(task.existing, task.targets, desk.cfg.staleBPS);
    var slots := SideSlots(desk, task);
    RunOrigins(desk, task, st, slots, moments, |slots|);
  }

  /** When Sync returns nil outside dry-run over a fully listed book: each side has at most as many
      unprotected orders as targets, and every one of them is under sound terms. */
  lemma SyncBoundsAndTerms(desk: Desk, p: Plan, st: State, bidMoments: nat -> Moment, askMoments: nat -> Moment, start: int, end: int)
    requires !desk.cfg.dryRun && ExpiryConfigValid(desk.cfg) && SignerCovers(desk)
    requires PlanSides(p) && Covered(desk, p, st.book) && !st.failed
    requires Monotone(bidMoments, start) && Monotone(askMoments, start) && start <= end
    requires forall i: nat :: i < |SideSlots(desk, BidTask(p))| ==> bidMoments(i).now <= end
    requires forall i: nat :: i < |SideSlots(desk, AskTask(p))| ==> askMoments(i).now <= end
    requires !RunSync(desk, p, st, bidMoments, askMoments).failed
    ensures var book := RunSync(desk, p, st, bidMoments, askMoments).book;
            && |Mine(desk, Buy, book)| <= |p.bids| && |Mine(desk, Sell, book)| <= |p.asks|
            && forall o :: o in book && !Protected(desk.cfg, o.id) ==> Sound(desk, o, start, end)
  {
    TasksAgree(desk, p, st.book);
    var bids := RunSide(desk, BidTask(p), st, bidMoments);
    SideEndsWithinTargets(desk, BidTask(p), Buy, st, bidMoments);
    SideEndsSound(desk, BidTask(p), Buy, st, bidMoments, start, end);
    SideAddsOnlyItsOwn(desk, BidTask(p), Buy, st, bidMoments);
    SideEndsWithinTargets(desk, AskTask(p), Sell, bids, askMoments);
    SideEndsSound(desk, AskTask(p), Sell, bids, askMoments, start, end);
    SideAddsOnlyItsOwn(desk, AskTask(p), Sell, bids, askMoments);
    var book := RunSync(desk, p, st, bidMoments, askMoments).book;
    SubsetCard(Mine(desk, Buy, book), Mine(desk, Buy, bids.book));
  }
}
