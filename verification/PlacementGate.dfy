/** The operator's gate inside a Sync: what passes it is what the controller lets pass, and from the moment it
    closes a Sync only takes orders off. */
module PlacementGate {
  import opened Market
  import opened Pairing
  import opened PairingLaws
  import opened ControlFlags
  import opened Reconcile
  import opened ReconcileLaws
  import opened SlotEffects
  import opened RunEffects

  // ----- what passes -----

  /** At each slot's moment the gate answers as the controls then stand. */
  ghost predicate GatedBy(moments: nat -> Moment, controls: nat -> Controls, side: Side) {
    forall i: nat :: moments(i).allowed <==> Passes(controls(i), side)
  }

  /** The placement of level l, at a moment at which the operator lets this side quote. */
  ghost predicate PlacedWithLeave(desk: Desk, task: Task, moments: nat -> Moment, controls: nat -> Controls, side: Side, r: Request, l: nat) {
    && l < |task.targets| && l < |task.ids| && r == PlaceSent(task.ids[l], task.targets[l], moments(l).placeReply)
    && CanSign(desk, task.targets[l], moments(l).now)
    && !controls(l).flags.killed && !controls(l).flags.paused
    && (side == Buy ==> controls(l).bidEnabled) && (side == Sell ==> controls(l).askEnabled)
  }

  /** Every placement of a side is some level's, sent while neither flag was set and the side was enabled. */
  lemma SidePlacesOnlyWithLeave(desk: Desk, task: Task, st: State, moments: nat -> Moment, controls: nat -> Controls, side: Side)
    returns (own: seq<Request>)
    requires GatedBy(moments, controls, side)
    ensures RunSide(desk, task, st, moments).sent == st.sent + own
    ensures forall r :: r in own && r.PlaceSent? ==> exists l: nat :: PlacedWithLeave(desk, task, moments, controls, side, r, l)
  {
    hide RunSlots, SentBySlot, Partitions, CanSign;
    var slots := SideSlots(desk, task);
    PairingPartitions(task.existing, task.targets, desk.cfg.staleBPS);
    own := RunSends(desk, task, st, slots, moments, |slots|);
    forall r | r in own && r.PlaceSent? ensures exists l: nat :: PlacedWithLeave(desk, task, moments, controls, side, r, l) {
      assert SentBefore(desk, task, st, slots, moments, r, |slots|);
      var i: nat :| i < |slots| && SentBySlot(desk, task, st, slots, moments, r, i);
      SentPlacement(desk, task, st, slots, moments, r, i);
      assert PlacedWithLeave(desk, task, moments, controls, side, r, i);
    }
  }

  /** A slot that carries a level carries its own. */
  lemma SentPlacement(desk: Desk, task: Task, st: State, slots: seq<Slot>, moments: nat -> Moment, r: Request, i: nat)
    requires i < |slots| && SlotsFit(task, slots) && Partitions(slots, |task.existing|, |task.targets|)
    requires SentBySlot(desk, task, st, slots, moments, r, i) && r.PlaceSent?
    ensures i < |task.targets| && i < |task.ids| && moments(i).allowed && CanSign(desk, task.targets[i], moments(i).now)
    ensures r == PlaceSent(task.ids[i], task.targets[i], moments(i).placeReply)
  {
    hide Clear, CanSign, RunSlots;
  }

  /** Over a whole Sync. */
  lemma SyncPlacesOnlyWithLeave(
    desk: Desk, p: Plan, st: State, bidMoments: nat -> Moment, askMoments: nat -> Moment, bidControls: nat -> Controls, askControls: nat -> Controls)
    returns (own: seq<Request>)
    requires GatedBy(bidMoments, bidControls, Buy) && GatedBy(askMoments, askControls, Sell)
    ensures RunSync(desk, p, st, bidMoments, askMoments).sent == st.sent + own
    ensures forall r :: r in own && r.PlaceSent? ==> exists l: nat ::
              || PlacedWithLeave(desk, BidTask(p), bidMoments, bidControls, Buy, r, l)
              || PlacedWithLeave(desk, AskTask(p), askMoments, askControls, Sell, r, l)
  {
    hide RunSide, SideBook, PlacedWithLeave, GatedBy;
    own := SidePlacesOnlyWithLeave(desk, BidTask(p), st, bidMoments, bidControls, Buy);
    var bids := RunSide(desk, BidTask(p), st, bidMoments);
    if !bids.failed {
      var more := SidePlacesOnlyWithLeave(desk, AskTask(p), bids, askMoments, askControls, Sell);
      assert (st.sent + own) + more == st.sent + (own + more);
      own := own + more;
    }
  }

  /** And everything that may pass does: a level whose slot is clear, with an identity, admitted and fit to sign,
      outside a dry run and before any failure, is placed. */
  lemma ClearLevelIsPlaced(
    desk: Desk, task: Task, st: State, moments: nat -> Moment, controls: nat -> Controls, side: Side, l: nat) returns (own: seq<Request>)
    requires GatedBy(moments, controls, side) && l < |task.targets| && l < |task.ids| && l < |SideSlots(desk, task)|
    requires var before := RunSlots(desk, task, st, SideSlots(desk, task), moments, l);
             !before.failed && Clear(desk, task, before.budget, SideSlots(desk, task)[l], moments(l))
    requires Passes(controls(l), side) && !desk.cfg.dryRun && CanSign(desk, task.targets[l], moments(l).now)
    ensures RunSide(desk, task, st, moments).sent == st.sent + own
    ensures PlaceSent(task.ids[l], task.targets[l], moments(l).placeReply) in own
  {
    hide RunSlots, CanSign, Clear;
    var slots := SideSlots(desk, task);
    PairingPartitions(task.existing, task.targets, desk.cfg.staleBPS);
    own := RunSends(desk, task, st, slots, moments, |slots|);
    var r := PlaceSent(task.ids[l], task.targets[l], moments(l).placeReply);
    assert slots[l].level == l && slots[l].target == Some(l);
    assert r in PlaceRequest(desk, task, RunSlots(desk, task, st, slots, moments, l).budget, slots[l], moments(l));
    assert SentBySlot(desk, task, st, slots, moments, r, l);
  }

  // ----- once it is closed -----

  lemma ShutSlot(desk: Desk, task: Task, st: State, s: Slot, m: Moment)
    requires SlotFits(task, s) && !m.allowed && !st.failed
    ensures var after := SlotStep(desk, task, st, s, m);
            && after.sent == st.sent + CancelRequest(desk, task, st.budget, s, m) && after.placed == st.placed
            && forall o :: o in after.book ==> o in st.book
  {
    hide SlotStep, SlotCancel, Without, CancelRequest, Clear;
    CancelHalf(desk, task, st, s, m);
    SlotInFull(desk, task, st, s, m);
    var off := Without(st.book, m.departed);
    WithoutAll(st.book, m.departed);
    if s.order.Some? {
      WithoutAll(off, {IDOf(task, s)});
    }
    AsksForAnOrder(desk, task, st, s, m);
    assert st.sent + CancelRequest(desk, task, st.budget, s, m) + [] == st.sent + CancelRequest(desk, task, st.budget, s, m);
  }

  lemma AsksForAnOrder(desk: Desk, task: Task, st: State, s: Slot, m: Moment)
    requires SlotFits(task, s)
    ensures Asks(desk, task, st.budget, s, m) ==> s.order.Some?
  {
  }

  /** From the j-th slot on with the gate shut: only cancels are sent, no order joins the book, nothing is
      reported as placed. */
  ghost predicate OnlyTakesOff(was: State, now: State, own: seq<Request>) {
    && now.sent == was.sent + own && (forall r :: r in own ==> r.CancelSent?)
    && now.placed == was.placed && forall o :: o in now.book ==> o in was.book
  }

  lemma {:induction false} ShutRun(desk: Desk, task: Task, st: State, slots: seq<Slot>, moments: nat -> Moment, j: nat, k: nat) returns (own: seq<Request>)
    requires j <= k <= |slots| && SlotsFit(task, slots) && forall i: nat :: j <= i < k ==> !moments(i).allowed
    ensures OnlyTakesOff(RunSlots(desk, task, st, slots, moments, j), RunSlots(desk, task, st, slots, moments, k), own)
  {
    hide SlotStep;
    if j == k {
      own := [];
    } else {
      own := ShutRun(desk, task, st, slots, moments, j, k - 1);
      var was, before, s, m := RunSlots(desk, task, st, slots, moments, j), RunSlots(desk, task, st, slots, moments, k - 1), slots[k - 1], moments(k - 1);
      if before.failed {
        FailedStays(desk, task, before, s, m);
      } else {
        ShutSlot(desk, task, before, s, m);
        var c := CancelRequest(desk, task, before.budget, s, m);
        assert was.sent + own + c == was.sent + (own + c);
        own := own + c;
      }
    }
  }

  /** A kill, a pause or a side switched off while the bids are being reconciled, at slot j: from that state on
      the whole Sync only takes orders off. */
  lemma SyncOnlyTakesOffOnceShut(
    desk: Desk, p: Plan, st: State, bidMoments: nat -> Moment, askMoments: nat -> Moment, bidControls: nat -> Controls, askControls: nat -> Controls, j: nat)
    returns (own: seq<Request>)
    requires GatedBy(bidMoments, bidControls, Buy) && GatedBy(askMoments, askControls, Sell)
    requires j <= |SideSlots(desk, BidTask(p))|
    requires forall i: nat :: j <= i ==> bidControls(i).flags.killed || bidControls(i).flags.paused || !bidControls(i).bidEnabled
    requires forall i: nat :: askControls(i).flags.killed || askControls(i).flags.paused || !askControls(i).askEnabled
    ensures OnlyTakesOff(RunSlots(desk, BidTask(p), st, SideSlots(desk, BidTask(p)), bidMoments, j), RunSync(desk, p, st, bidMoments, askMoments), own)
  {
    hide RunSlots, SideBook;
    var bidSlots, askSlots := SideSlots(desk, BidTask(p)), SideSlots(desk, AskTask(p));
    var mid, bids := RunSlots(desk, BidTask(p), st, bidSlots, bidMoments, j), RunSide(desk, BidTask(p), st, bidMoments);
    own := ShutRun(desk, BidTask(p), st, bidSlots, bidMoments, j, |bidSlots|);
    if !bids.failed {
      var more := ShutRun(desk, AskTask(p), bids, askSlots, askMoments, 0, |askSlots|);
      NoSlotsYet(desk, AskTask(p), bids, askSlots, askMoments);
      assert mid.sent + own + more == mid.sent + (own + more);
      own := own + more;
    }
  }

  lemma NoSlotsYet(desk: Desk, task: Task, st: State, slots: seq<Slot>, moments: nat -> Moment)
    requires SlotsFit(task, slots)
    ensures RunSlots(desk, task, st, slots, moments, 0) == st
  {
  }
}
