/** The requests of a whole Sync, both sides together. */
module SyncRequests {
  import opened Market
  import opened Pairing
  import opened PairingLaws
  import opened Reconcile
  import opened ReconcileTerms
  import opened ReconcileRequests
  import opened Quiescence

  // ----- what was sent before does not matter -----

  /** The same state but for requests sent earlier. */
  ghost predicate Later(a: State, b: State, earlier: seq<Request>) {
    a == b.(sent := earlier + b.sent)
  }

  lemma CancelOneIsLater(desk: Desk, a: State, b: State, earlier: seq<Request>, o: Order, rationed: bool, m: Moment)
    requires Later(a, b, earlier)
    ensures Later(CancelOne(desk, a, o, rationed, m).0, CancelOne(desk, b, o, rationed, m).0, earlier)
    ensures CancelOne(desk, a, o, rationed, m).1 == CancelOne(desk, b, o, rationed, m).1
  {
    hide Without, Protected;
    var r := [CancelSent(o.id, m.cancelReply)];
    assert earlier + (b.sent + r) == (earlier + b.sent) + r;
  }

  lemma SlotCancelIsLater(desk: Desk, task: Task, a: State, b: State, earlier: seq<Request>, s: Slot, m: Moment)
    requires SlotFits(task, s) && Later(a, b, earlier)
    ensures Later(SlotCancel(desk, task, a, s, m).0, SlotCancel(desk, task, b, s, m).0, earlier)
    ensures SlotCancel(desk, task, a, s, m).1 == SlotCancel(desk, task, b, s, m).1
  {
    hide VerdictOn, CancelOne, Without, Looked;
    if s.order.Some? {
      var o, ga, gb := task.existing[s.order.value], Depart(a, m), Depart(b, m);
      CancelOneIsLater(desk, ga, gb, earlier, o, false, m);
      CancelOneIsLater(desk, ga.(budget := Looked(desk, ga.budget, m.now)), gb.(budget := Looked(desk, gb.budget, m.now)), earlier, o, true, m);
    }
  }

  lemma PlaceIsLater(desk: Desk, a: State, b: State, earlier: seq<Request>, q: Quote, level: int, ids: seq<Identity>, m: Moment)
    requires Later(a, b, earlier)
    ensures Later(PlacePhase(desk, a, q, level, ids, m), PlacePhase(desk, b, q, level, ids, m), earlier)
  {
    hide CanSign, SignedOrder;
    if 0 <= level < |ids| {
      var r := [PlaceSent(ids[level], q, m.placeReply)];
      assert earlier + (b.sent + r) == (earlier + b.sent) + r;
    }
  }

  lemma StepIsLater(desk: Desk, task: Task, a: State, b: State, earlier: seq<Request>, s: Slot, m: Moment)
    requires SlotFits(task, s) && Later(a, b, earlier)
    ensures Later(SlotStep(desk, task, a, s, m), SlotStep(desk, task, b, s, m), earlier)
  {
    hide SlotCancel, PlacePhase;
    SlotCancelIsLater(desk, task, a, b, earlier, s, m);
    if s.target.Some? {
      PlaceIsLater(desk, SlotCancel(desk, task, a, s, m).0, SlotCancel(desk, task, b, s, m).0, earlier, task.targets[s.target.value], s.level, task.ids, m);
    }
  }

  lemma {:induction false} RunIsLater(desk: Desk, task: Task, a: State, b: State, earlier: seq<Request>, slots: seq<Slot>, moments: nat -> Moment, k: nat)
    requires SlotsFit(task, slots) && k <= |slots| && Later(a, b, earlier)
    ensures Later(RunSlots(desk, task, a, slots, moments, k), RunSlots(desk, task, b, slots, moments, k), earlier)
  {
    hide SlotStep, Later;
    if k > 0 {
      RunIsLater(desk, task, a, b, earlier, slots, moments, k - 1);
      StepIsLater(desk, task, RunSlots(desk, task, a, slots, moments, k - 1), RunSlots(desk, task, b, slots, moments, k - 1), earlier, slots[k - 1], moments(k - 1));
    }
  }

  // ----- one side's requests -----

  /** Cancels of the side's own orders, placements of its own levels under their own identities. */
  ghost predicate OfTask(task: Task, r: Request) {
    match r
    case CancelSent(id, _) => exists o :: o in task.existing && o.id == id
    case PlaceSent(identity, q, _) => exists l: nat :: l < |task.ids| && l < |task.targets| && identity == task.ids[l] && q == task.targets[l]
  }

  lemma SideSends(desk: Desk, task: Task, st: State, moments: nat -> Moment) returns (own: seq<Request>)
    requires DistinctIDs(task.existing) && DistinctNonces(task.ids) && !st.failed
    ensures var end := RunSide(desk, task, st, moments);
            && end.sent == st.sent + own && Orderly(own, end.failed) && AllApart(own)
            && forall r :: r in own ==> OfTask(task, r)
  {
    hide RunSlots, Partitions;
    var slots := SideSlots(desk, task);
    var bare := st.(sent := []);
    PairingPartitions(task.existing, task.targets, desk.cfg.staleBPS);
    assert st.sent + [] == st.sent;
    RunIsLater(desk, task, st, bare, st.sent, slots, moments, |slots|);
    RunKeepsSent(desk, task, slots, bare, moments, |slots|);
    own := RunSlots(desk, task, bare, slots, moments, |slots|).sent;
    forall r | r in own ensures OfTask(task, r) {
      FromSlotIsOfTask(task, slots, r);
    }
  }

  lemma FromSlotIsOfTask(task: Task, slots: seq<Slot>, r: Request)
    requires SlotsFit(task, slots) && Partitions(slots, |task.existing|, |task.targets|)
    requires FromEarlier(task, slots, r, |slots|)
    ensures OfTask(task, r)
  {
    var i: nat :| i < |slots| && FromSlot(task, slots, r, i);
    match r {
      case CancelSent(id, _) =>
        var o := task.existing[slots[i].order.value];
        assert o in task.existing && o.id == id;
      case PlaceSent(identity, q, _) =>
        assert i < |task.targets| && slots[i].level == i && slots[i].target == Some(i);
    }
  }

  // ----- the whole Sync -----

  /** Listed once each, and no two identities of the cycle share a nonce. */
  ghost predicate PlanIsDistinct(p: Plan) {
    && DistinctIDs(p.listed) && DistinctNonces(p.bidIDs) && DistinctNonces(p.askIDs)
    && forall i, j :: 0 <= i < |p.bidIDs| && 0 <= j < |p.askIDs| ==> p.bidIDs[i].nonce != p.askIDs[j].nonce
  }

  lemma SidesSendApart(p: Plan, a: Request, b: Request)
    requires PlanIsDistinct(p) && OfTask(BidTask(p), a) && OfTask(AskTask(p), b)
    ensures Apart(a, b)
  {
    SideBookAll(Buy, p.listed);
    SideBookAll(Sell, p.listed);
    if a.CancelSent? && b.CancelSent? {
      var x :| x in BidTask(p).existing && x.id == a.id;
      var y :| y in AskTask(p).existing && y.id == b.id;
      var i :| 0 <= i < |p.listed| && p.listed[i] == x;
      var j :| 0 <= j < |p.listed| && p.listed[j] == y;
      assert i != j;
    }
  }

  lemma JoinApart(a: seq<Request>, b: seq<Request>)
    requires AllApart(a) && AllApart(b) && forall r, q :: r in a && q in b ==> Apart(r, q)
    ensures AllApart(a + b)
  {
    var all := a + b;
    forall i, j | 0 <= i < j < |all| ensures Apart(all[i], all[j]) {
      if i < |a| <= j {
        assert all[i] in a && all[j] in b;
      }
    }
  }

  /** Over a whole Sync, whatever the venue answers: nothing is sent after a failed request, no order is
      cancelled twice and no identity is used twice, and every placement is some level's own target under
      that level's own identity. */
  lemma SyncSendsInOrder(desk: Desk, p: Plan, st: State, bidMoments: nat -> Moment, askMoments: nat -> Moment) returns (own: seq<Request>)
    requires PlanIsDistinct(p) && !st.failed
    ensures var end := RunSync(desk, p, st, bidMoments, askMoments);
            && end.sent == st.sent + own && Orderly(own, end.failed) && AllApart(own)
            && forall r :: r in own ==> OfTask(BidTask(p), r) || OfTask(AskTask(p), r)
  {
    hide RunSide, SideBook, OfTask, AllApart;
    SideBookSorted(Buy, p.listed);
    SideBookSorted(Sell, p.listed);
    var bids := RunSide(desk, BidTask(p), st, bidMoments);
    var first := SideSends(desk, BidTask(p), st, bidMoments);
    own := first;
    if !bids.failed {
      var second := SideSends(desk, AskTask(p), bids, askMoments);
      forall r, q | r in first && q in second ensures Apart(r, q) {
        SidesSendApart(p, r, q);
      }
      JoinApart(first, second);
      own := first + second;
      assert st.sent + (first + second) == (st.sent + first) + second;
    }
  }
}
