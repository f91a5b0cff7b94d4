/** What a reconciliation sends, in order: no request follows a failed one, each identity and each
    listed order is used at most once, ids on the book stay distinct, and the cancel budget holds. */
module ReconcileRequests {
  import opened Market
  import opened Pairing
  import opened PairingLaws
  import opened Reconcile
  import opened ReconcileLaws
  import opened ReconcileTerms
  import Budget = CancelBudget

  predicate Failed(r: Request) {
    (r.CancelSent? && r.creply.CancelFailed?) || (r.PlaceSent? && r.preply.PlaceFailed?)
  }

  /** A failed request -- a cancel refused other than as not found, or a placement error -- is the
      last one, and only in a run that reports failure. */
  ghost predicate Orderly(sent: seq<Request>, failed: bool) {
    forall i :: 0 <= i < |sent| && Failed(sent[i]) ==> failed && i == |sent| - 1
  }

  function SlotCancelRequest(task: Task, s: Slot, m: Moment): Request
    requires SlotFits(task, s) && s.order.Some?
  {
    CancelSent(task.existing[s.order.value].id, m.cancelReply)
  }

  function SlotPlaceRequest(task: Task, s: Slot, m: Moment): Request
    requires SlotFits(task, s) && s.target.Some? && 0 <= s.level < |task.ids|
  {
    PlaceSent(task.ids[s.level], task.targets[s.target.value], m.placeReply)
  }

  /** A slot's cancel half sends its own order's cancel or nothing. */
  lemma CancelHalfSends(desk: Desk, task: Task, st: State, s: Slot, m: Moment)
    requires SlotFits(task, s) && !st.failed
    ensures var (after, free) := SlotCancel(desk, task, st, s, m);
            && (after.sent == st.sent || (s.order.Some? && after.sent == st.sent + [SlotCancelRequest(task, s, m)]))
            && (after.failed <==> after.sent != st.sent && m.cancelReply.CancelFailed?)
            && (free ==> !after.failed)
  {
    hide VerdictOn;
  }

  lemma PlaceHalfSends(desk: Desk, task: Task, st: State, s: Slot, m: Moment)
    requires SlotFits(task, s) && s.target.Some? && !st.failed
    ensures var after := PlacePhase(desk, st, task.targets[s.target.value], s.level, task.ids, m);
            && (after.sent == st.sent || (0 <= s.level < |task.ids| && after.sent == st.sent + [SlotPlaceRequest(task, s, m)]))
            && (after.sent != st.sent && m.placeReply.PlaceFailed? ==> after.failed)
  {
  }

  /** One slot sends at most its own order's cancel and then its own level's placement, and the
      placement only when the cancel did not fail. */
  lemma SlotSends(desk: Desk, task: Task, st: State, s: Slot, m: Moment) returns (c: seq<Request>, p: seq<Request>)
    requires SlotFits(task, s) && !st.failed
    ensures var after := SlotStep(desk, task, st, s, m);
            && after.sent == st.sent + c + p
            && (c == [] || (s.order.Some? && c == [SlotCancelRequest(task, s, m)]))
            && (p == [] || (s.target.Some? && 0 <= s.level < |task.ids| && p == [SlotPlaceRequest(task, s, m)]))
            && (c != [] && Failed(c[0]) ==> p == [] && after.failed)
            && (p != [] && Failed(p[0]) ==> after.failed)
  {
    hide SlotCancel, PlacePhase;
    CancelHalfSends(desk, task, st, s, m);
    var (half, free) := SlotCancel(desk, task, st, s, m);
    c := if half.sent == st.sent then [] else [SlotCancelRequest(task, s, m)];
    p := [];
    if !half.failed && free && s.target.Some? {
      PlaceHalfSends(desk, task, half, s, m);
      var after := PlacePhase(desk, half, task.targets[s.target.value], s.level, task.ids, m);
      if after.sent != half.sent {
        p := [SlotPlaceRequest(task, s, m)];
      }
    }
    assert half.sent == st.sent + c;
  }

  lemma StepOnlySends(desk: Desk, task: Task, st: State, s: Slot, m: Moment)
    requires SlotFits(task, s)
    ensures |st.sent| <= |SlotStep(desk, task, st, s, m).sent|
  {
    if !st.failed {
      var c, p := SlotSends(desk, task, st, s, m);
    }
  }

  lemma {:induction false} SentOnlyGrows(desk: Desk, task: Task, slots: seq<Slot>, st: State, moments: nat -> Moment, j: nat, k: nat)
    requires SlotsFit(task, slots) && j <= k <= |slots|
    ensures |RunSlots(desk, task, st, slots, moments, j).sent| <= |RunSlots(desk, task, st, slots, moments, k).sent|
  {
    hide SlotStep;
    if j < k {
      SentOnlyGrows(desk, task, slots, st, moments, j, k - 1);
      StepOnlySends(desk, task, RunSlots(desk, task, st, slots, moments, k - 1), slots[k - 1], moments(k - 1));
    }
  }

  /** The request is one that a slot before k can send. */
  ghost predicate FromSlot(task: Task, slots: seq<Slot>, r: Request, i: nat)
    requires SlotsFit(task, slots) && i < |slots|
  {
    match r
    case CancelSent(id, _) => slots[i].order.Some? && task.existing[slots[i].order.value].id == id
    case PlaceSent(identity, q, _) =>
      slots[i].target.Some? && 0 <= slots[i].level < |task.ids| && identity == task.ids[slots[i].level]
      && q == task.targets[slots[i].target.value]
  }

  ghost predicate FromEarlier(task: Task, slots: seq<Slot>, r: Request, k: nat)
    requires SlotsFit(task, slots) && k <= |slots|
  {
    exists i: nat :: i < k && FromSlot(task, slots, r, i)
  }

  /** Two requests that name neither the same order to cancel nor the same identity to place. */
  predicate Apart(a: Request, b: Request) {
    match (a, b)
    case (CancelSent(x, _), CancelSent(y, _)) => x != y
    case (PlaceSent(x, _, _), PlaceSent(y, _, _)) => x.nonce != y.nonce
    case _ => true
  }

  ghost predicate AllApart(sent: seq<Request>) {
    forall i, j :: 0 <= i < j < |sent| ==> Apart(sent[i], sent[j])
  }

  ghost predicate DistinctNonces(ids: seq<Identity>) {
    forall i, j :: 0 <= i < j < |ids| ==> ids[i].nonce != ids[j].nonce
  }

  ghost predicate SentSoFar(task: Task, slots: seq<Slot>, sent: seq<Request>, failed: bool, k: nat)
    requires SlotsFit(task, slots) && k <= |slots|
  {
    && Orderly(sent, failed)
    && AllApart(sent)
    && forall r :: r in sent ==> FromEarlier(task, slots, r, k)
  }

  lemma ApartAcrossSlots(task: Task, slots: seq<Slot>, a: Request, b: Request, k: nat)
    requires SlotsFit(task, slots) && k < |slots| && Partitions(slots, |task.existing|, |task.targets|)
    requires DistinctIDs(task.existing) && DistinctNonces(task.ids)
    requires FromEarlier(task, slots, a, k) && FromSlot(task, slots, b, k)
    ensures Apart(a, b)
  {
    var i: nat :| i < k && FromSlot(task, slots, a, i);
    if a.CancelSent? && b.CancelSent? {
      assert slots[i].order != slots[k].order;
    }
  }

  lemma FromEarlierGrows(task: Task, slots: seq<Slot>, sent: seq<Request>, c: seq<Request>, p: seq<Request>, k: nat)
    requires SlotsFit(task, slots) && k < |slots|
    requires forall r :: r in sent ==> FromEarlier(task, slots, r, k)
    requires forall r :: r in c || r in p ==> FromSlot(task, slots, r, k)
    ensures forall r :: r in sent + c + p ==> FromEarlier(task, slots, r, k + 1)
  {
    forall r | r in sent + c + p ensures FromEarlier(task, slots, r, k + 1) {
      if r in sent {
        var i: nat :| i < k && FromSlot(task, slots, r, i);
      } else {
        assert FromSlot(task, slots, r, k);
      }
    }
  }

  lemma AppendApart(sent: seq<Request>, c: seq<Request>, p: seq<Request>)
    requires AllApart(sent) && |c| <= 1 && |p| <= 1
    requires forall r, q :: r in sent && (q in c || q in p) ==> Apart(r, q)
    requires forall q :: q in c ==> q.CancelSent?
    requires forall q :: q in p ==> q.PlaceSent?
    ensures AllApart(sent + c + p)
  {
    var all := sent + c + p;
    forall i, j | 0 <= i < j < |all| ensures Apart(all[i], all[j]) {
      if j >= |sent| + |c| {
        assert all[j] in p;
        assert i >= |sent| ==> all[i] in c;
      } else if j >= |sent| {
        assert all[j] in c;
      }
    }
  }

  lemma SlotKeepsSent(desk: Desk, task: Task, slots: seq<Slot>, st: State, m: Moment, k: nat)
    requires SlotsFit(task, slots) && k < |slots| && Partitions(slots, |task.existing|, |task.targets|)
    requires DistinctIDs(task.existing) && DistinctNonces(task.ids)
    requires SentSoFar(task, slots, st.sent, st.failed, k) && !st.failed
    ensures var after := SlotStep(desk, task, st, slots[k], m); SentSoFar(task, slots, after.sent, after.failed, k + 1)
  {
    hide SlotStep, Partitions;
    var c, p := SlotSends(desk, task, st, slots[k], m);
    assert forall r :: r in c || r in p ==> FromSlot(task, slots, r, k);
    FromEarlierGrows(task, slots, st.sent, c, p, k);
    forall r, q | r in st.sent && (q in c || q in p) ensures Apart(r, q) {
      ApartAcrossSlots(task, slots, r, q, k);
    }
    AppendApart(st.sent, c, p);
  }

  lemma {:induction false} RunKeepsSent(desk: Desk, task: Task, slots: seq<Slot>, st: State, moments: nat -> Moment, k: nat)
    requires SlotsFit(task, slots) && k <= |slots| && Partitions(slots, |task.existing|, |task.targets|)
    requires DistinctIDs(task.existing) && DistinctNonces(task.ids)
    requires st.sent == [] && !st.failed
    ensures var now := RunSlots(desk, task, st, slots, moments, k); SentSoFar(task, slots, now.sent, now.failed, k)
  {
    hide SlotCancel, PlacePhase, Partitions, DistinctIDs, DistinctNonces;
    if k > 0 {
      RunKeepsSent(desk, task, slots, st, moments, k - 1);
      var before := RunSlots(desk, task, st, slots, moments, k - 1);
      if before.failed {
        EarlierStaysEarlier(task, slots, before.sent, k - 1);
      } else {
        SlotKeepsSent(desk, task, slots, before, moments(k - 1), k - 1);
      }
    }
  }

  lemma EarlierStaysEarlier(task: Task, slots: seq<Slot>, sent: seq<Request>, k: nat)
    requires SlotsFit(task, slots) && k < |slots|
    requires forall r :: r in sent ==> FromEarlier(task, slots, r, k)
    ensures forall r :: r in sent ==> FromEarlier(task, slots, r, k + 1)
  {
    FromEarlierGrows(task, slots, sent, [], [], k);
    assert sent + [] + [] == sent;
  }

  /** A side's requests: none after a failed one, no order cancelled twice, no identity used twice,
      and every placement is a level's own target under that level's own identity. */
  lemma SideRequests(desk: Desk, task: Task, st: State, moments: nat -> Moment)
    requires DistinctIDs(task.existing) && DistinctNonces(task.ids)
    requires st.sent == [] && !st.failed
    ensures var end := RunSide(desk, task, st, moments);
            && Orderly(end.sent, end.failed)
            && AllApart(end.sent)
            && (forall r :: r in end.sent && r.PlaceSent? ==>
                 exists l: nat :: l < |task.ids| && l < |task.targets| && r.identity == task.ids[l] && r.quote == task.targets[l])
  {
    var slots := SideSlots(desk, task);
    PairingPartitions(task.existing, task.targets, desk.cfg.staleBPS);
    RunKeepsSent(desk, task, slots, st, moments, |slots|);
    var end := RunSide(desk, task, st, moments);
    forall r | r in end.sent && r.PlaceSent?
      ensures exists l: nat :: l < |task.ids| && l < |task.targets| && r.identity == task.ids[l] && r.quote == task.targets[l]
    {
      var i: nat :| i < |slots| && FromSlot(task, slots, r, i);
      assert i < |task.targets| && slots[i].level == i && slots[i].target == Some(i);
    }
  }

  // ----- ids on the book stay distinct -----

  /** No identity is the id of an order on the book, and no two identities share an id. */
  ghost predicate FreshIdentities(ids: seq<Identity>, book: seq<Order>) {
    && (forall i, j :: 0 <= i < j < |ids| ==> ids[i].orderID != ids[j].orderID)
    && forall i, o :: 0 <= i < |ids| && o in book ==> o.id != ids[i].orderID
  }

  lemma CancelKeepsDistinct(desk: Desk, task: Task, st: State, s: Slot, m: Moment)
    requires SlotFits(task, s) && DistinctIDs(st.book)
    ensures DistinctIDs(SlotCancel(desk, task, st, s, m).0.book)
  {
    hide VerdictOn;
    WithoutDistinct(st.book, m.departed);
    if s.order.Some? {
      WithoutDistinct(Depart(st, m).book, {task.existing[s.order.value].id});
    }
  }

  /** Orders keep distinct ids, each one listed before or placed for a level already passed. */
  lemma {:induction false} RunKeepsDistinct(desk: Desk, task: Task, slots: seq<Slot>, st: State, moments: nat -> Moment, k: nat)
    requires SlotsFit(task, slots) && k <= |slots| && Partitions(slots, |task.existing|, |task.targets|)
    requires DistinctIDs(st.book) && FreshIdentities(task.ids, st.book)
    ensures DistinctIDs(RunSlots(desk, task, st, slots, moments, k).book)
  {
    hide SlotCancel, PlacePhase, Partitions;
    if k > 0 {
      RunKeepsDistinct(desk, task, slots, st, moments, k - 1);
      var before := RunSlots(desk, task, st, slots, moments, k - 1);
      if !before.failed {
        CancelKeepsDistinct(desk, task, before, slots[k - 1], moments(k - 1));
        RunOrigins(desk, task, st, slots, moments, k - 1);
        CancelOrigins(desk, task, before, slots[k - 1], moments(k - 1));
        PlaceKeepsDistinct(desk, task, SlotCancel(desk, task, before, slots[k - 1], moments(k - 1)).0, st.book, slots, moments, k - 1);
      }
    }
  }

  lemma PlaceKeepsDistinct(desk: Desk, task: Task, half: State, opening: seq<Order>, slots: seq<Slot>, moments: nat -> Moment, k: nat)
    requires SlotsFit(task, slots) && k < |slots| && Partitions(slots, |task.existing|, |task.targets|)
    requires DistinctIDs(half.book) && FreshIdentities(task.ids, opening)
    requires forall o :: o in half.book ==> o in opening || PlacedBefore(desk, task, moments, o, k)
    ensures slots[k].target.Some? ==>
              DistinctIDs(PlacePhase(desk, half, task.targets[slots[k].target.value], slots[k].level, task.ids, moments(k)).book)
  {
    if slots[k].target.Some? && k < |task.ids| {
      forall i | 0 <= i < |half.book| ensures half.book[i].id != task.ids[k].orderID {
        var o := half.book[i];
        assert o in half.book;
        if o !in opening {
          var l :| 0 <= l < k && PlacedFor(desk, task, moments, o, l);
        }
      }
    }
  }

  // ----- the cancel budget through a side -----

  ghost predicate BudgetHolds(b: Budget.Budget, limit: int, now: int) {
    exists pruned :: Budget.WithinBudget(b, limit, pruned, now)
  }

  lemma BudgetOutlasts(b: Budget.Budget, limit: int, now: int, later: int)
    requires BudgetHolds(b, limit, now) && now <= later
    ensures BudgetHolds(b, limit, later)
  {
    var pruned :| Budget.WithinBudget(b, limit, pruned, now);
    assert Budget.WithinBudget(b, limit, pruned, later);
  }

  lemma SlotKeepsBudget(desk: Desk, task: Task, st: State, s: Slot, m: Moment, now: int)
    requires SlotFits(task, s) && desk.cfg.maxCancelsPerMinute > 0
    requires BudgetHolds(st.budget, desk.cfg.maxCancelsPerMinute, now) && now <= m.now
    ensures BudgetHolds(SlotStep(desk, task, st, s, m).budget, desk.cfg.maxCancelsPerMinute, m.now)
  {
    var limit := desk.cfg.maxCancelsPerMinute;
    BudgetOutlasts(st.budget, limit, now, m.now);
    var pruned :| Budget.WithinBudget(st.budget, limit, pruned, now);
    Budget.PruneKeepsBudget(st.budget, limit, pruned, now, m.now);
    assert BudgetHolds(Looked(desk, st.budget, m.now), limit, m.now);
    if Budget.HasSlot(Budget.Prune(st.budget.stamps, m.now), limit) {
      Budget.UseKeepsBudget(st.budget, Budget.Spend(m.now, m.now), limit, pruned, now);
      assert BudgetHolds(Recorded(Looked(desk, st.budget, m.now), m.now), limit, m.now);
    }
    BudgetAfterSlot(desk, task, st, s, m);
  }

  /** A slot leaves the window alone, looks at it, or looks, finds room and records one cancel. */
  lemma BudgetAfterSlot(desk: Desk, task: Task, st: State, s: Slot, m: Moment)
    requires SlotFits(task, s) && desk.cfg.maxCancelsPerMinute > 0
    ensures var after, looked := SlotStep(desk, task, st, s, m).budget, Looked(desk, st.budget, m.now);
            after == st.budget || after == looked
            || (after == Recorded(looked, m.now) && Budget.HasSlot(looked.stamps, desk.cfg.maxCancelsPerMinute))
  {
    hide VerdictOn, CanSign, SignedOrder, Without;
    var half := SlotCancel(desk, task, st, s, m).0;
    assert SlotStep(desk, task, st, s, m).budget == if st.failed then st.budget else half.budget;
  }

  /** Through any run of slots on a monotone clock the budget holds: in particular any closed minute
      has at most MaxCancelsPerMinute recorded cancels. */
  lemma {:induction false} RunKeepsBudget(desk: Desk, task: Task, slots: seq<Slot>, st: State, moments: nat -> Moment, start: int, k: nat)
    requires SlotsFit(task, slots) && k <= |slots| && Monotone(moments, start)
    requires desk.cfg.maxCancelsPerMinute > 0 && BudgetHolds(st.budget, desk.cfg.maxCancelsPerMinute, start)
    ensures BudgetHolds(RunSlots(desk, task, st, slots, moments, k).budget, desk.cfg.maxCancelsPerMinute, Clock(moments, start, k))
  {
    hide SlotStep, BudgetHolds;
    if k > 0 {
      RunKeepsBudget(desk, task, slots, st, moments, start, k - 1);
      SlotKeepsBudget(desk, task, RunSlots(desk, task, st, slots, moments, k - 1), slots[k - 1], moments(k - 1), Clock(moments, start, k - 1));
    }
  }

  lemma SideKeepsBudget(desk: Desk, task: Task, st: State, moments: nat -> Moment, start: int, from: int)
    requires desk.cfg.maxCancelsPerMinute > 0 && Monotone(moments, start)
    requires BudgetHolds(st.budget, desk.cfg.maxCancelsPerMinute, start)
    ensures Budget.CountIn(RunSide(desk, task, st, moments).budget.spent, from) <= desk.cfg.maxCancelsPerMinute
  {
    var slots := SideSlots(desk, task);
    RunKeepsBudget(desk, task, slots, st, moments, start, |slots|);
    var end := RunSide(desk, task, st, moments).budget;
    var pruned :| Budget.WithinBudget(end, desk.cfg.maxCancelsPerMinute, pruned, Clock(moments, start, |slots|));
    Budget.RationedCount(end.spent, desk.cfg.maxCancelsPerMinute, from);
  }
}
