/** The book one accepted reconciliation leaves, order by order. */
module SettledBook {
  import opened Market
  import opened Pairing
  import opened PairingLaws
  import opened Decision
  import opened Reconcile
  import opened ReconcileLaws
  import opened ReconcileTerms
  import opened ReconcileRequests

  /** Nothing else happens to the book, no placement is gated, and the venue accepts every request. */
  ghost predicate Smooth(moments: nat -> Moment) {
    forall i: nat :: moments(i).departed == {} && moments(i).allowed
                     && !moments(i).cancelReply.CancelFailed? && moments(i).placeReply.Accepted?
  }

  /** A clock that stands still and a venue that says yes. */
  function Calm(now: int): nat -> Moment {
    (i: nat) => Moment(now, {}, Cancelled, true, Accepted)
  }

  /** The side was listed in full and every level has a fresh identity. */
  ghost predicate SideReady(desk: Desk, task: Task, side: Side, book: seq<Order>) {
    && !desk.cfg.dryRun && SidesAgree(task, side)
    && |task.ids| >= |task.targets| && FreshIdentities(task.ids, book)
    && DistinctIDs(book) && DistinctIDs(task.existing)
    && (forall o :: o in task.existing <==> o in book && o.side == side)
  }

  ghost predicate KeptAt(desk: Desk, task: Task, s: Slot, m: Moment)
    requires SlotFits(task, s)
  {
    s.order.Some? && VerdictOn(desk, task.existing[s.order.value], TargetOf(task, s), task.opposite, task.fallback, m.now).Keep?
  }

  /** No verdict was suppressed or deferred: each listed order was kept or its slot was freed. */
  ghost predicate NothingHeld(desk: Desk, task: Task, st: State, slots: seq<Slot>, moments: nat -> Moment)
    requires SlotsFit(task, slots)
  {
    forall k: nat :: k < |slots| && slots[k].order.Some? ==>
      KeptAt(desk, task, slots[k], moments(k)) || SlotCancel(desk, task, RunSlots(desk, task, st, slots, moments, k), slots[k], moments(k)).1
  }

  /** What level i holds afterwards: its order if that was kept, else the order placed for it. */
  ghost predicate IsFinal(desk: Desk, task: Task, slots: seq<Slot>, moments: nat -> Moment, i: nat, o: Order)
    requires SlotsFit(task, slots) && i < |slots|
  {
    if KeptAt(desk, task, slots[i], moments(i)) then o == task.existing[slots[i].order.value]
    else PlacedFor(desk, task, moments, o, i)
  }

  /** The order stays on the book although its level does not keep it: the venue's own cancel is never
      sent for a protected one. */
  ghost predicate Stands(desk: Desk, task: Task, s: Slot, m: Moment, o: Order)
    requires SlotFits(task, s)
  {
    s.order.Some? && task.existing[s.order.value] == o && Protected(desk.cfg, o.id) && !KeptAt(desk, task, s, m)
  }

  /** Slot i left this order on its side. */
  ghost predicate LeftAt(desk: Desk, task: Task, slots: seq<Slot>, moments: nat -> Moment, i: nat, o: Order)
    requires SlotsFit(task, slots) && i < |slots|
  {
    (i < |task.targets| && IsFinal(desk, task, slots, moments, i, o)) || Stands(desk, task, slots[i], moments(i), o)
  }

  ghost predicate LeftBefore(desk: Desk, task: Task, slots: seq<Slot>, moments: nat -> Moment, k: nat, o: Order)
    requires SlotsFit(task, slots) && k <= |slots|
  {
    exists i: nat :: i < k && LeftAt(desk, task, slots, moments, i, o)
  }

  ghost predicate Settling(desk: Desk, task: Task, side: Side, slots: seq<Slot>, opening: seq<Order>, book: seq<Order>, moments: nat -> Moment, k: nat)
    requires SlotsFit(task, slots) && k <= |slots|
  {
    forall o :: o in book <==>
      if o.side == side then LeftBefore(desk, task, slots, moments, k, o) || StillAhead(task, slots, k, o)
      else o in opening
  }

  /** A cancel that is sent takes the slot's own order off. */
  ghost predicate TakenOff(desk: Desk, task: Task, s: Slot, o: Order)
    requires SlotFits(task, s)
  {
    s.order.Some? && !Protected(desk.cfg, task.existing[s.order.value].id) && o.id == task.existing[s.order.value].id
  }

  /** The cancel half of a smooth slot. */
  lemma SmoothCancel(desk: Desk, task: Task, st: State, s: Slot, m: Moment)
    requires SlotFits(task, s) && !desk.cfg.dryRun && !st.failed && m.departed == {} && !m.cancelReply.CancelFailed?
    requires s.order.Some? ==> KeptAt(desk, task, s, m) || SlotCancel(desk, task, st, s, m).1
    ensures var (half, free) := SlotCancel(desk, task, st, s, m);
            && !half.failed && (free <==> !KeptAt(desk, task, s, m))
            && forall o :: o in half.book <==> o in st.book && (free ==> !TakenOff(desk, task, s, o))
  {
    hide VerdictOn, Without, Protected;
    WithoutAll(st.book, {});
    if s.order.Some? {
      WithoutAll(Depart(st, m).book, {task.existing[s.order.value].id});
    }
  }

  lemma SmoothPlace(desk: Desk, task: Task, st: State, moments: nat -> Moment, k: nat)
    requires k < |task.targets| <= |task.ids| && !desk.cfg.dryRun && Smooth(moments) && !st.failed
    ensures var after := PlacePhase(desk, st, task.targets[k], k, task.ids, moments(k));
            !after.failed ==>
              && CanSign(desk, task.targets[k], moments(k).now)
              && forall o :: o in after.book <==> o in st.book || PlacedFor(desk, task, moments, o, k)
  {
    hide SignedOrder, CanSign;
    assert moments(k).allowed && moments(k).placeReply.Accepted?;
  }

  /** What a smooth slot does to the book. */
  lemma SmoothSlot(desk: Desk, task: Task, st: State, slots: seq<Slot>, moments: nat -> Moment, k: nat)
    requires SlotsFit(task, slots) && k < |slots| && Partitions(slots, |task.existing|, |task.targets|)
    requires !desk.cfg.dryRun && !st.failed && Smooth(moments) && |task.ids| >= |task.targets|
    requires slots[k].order.Some? ==> KeptAt(desk, task, slots[k], moments(k)) || SlotCancel(desk, task, st, slots[k], moments(k)).1
    requires !SlotStep(desk, task, st, slots[k], moments(k)).failed
    ensures var after := SlotStep(desk, task, st, slots[k], moments(k));
            if KeptAt(desk, task, slots[k], moments(k)) then forall o :: o in after.book <==> o in st.book
            else
              && (k < |task.targets| ==> CanSign(desk, task.targets[k], moments(k).now))
              && forall o :: o in after.book <==>
                  (o in st.book && !TakenOff(desk, task, slots[k], o)) || PlacedFor(desk, task, moments, o, k)
  {
    hide SlotCancel, PlacePhase, KeptAt, TakenOff, PlacedFor;
    assert Smooth(moments) ==> moments(k).departed == {} && !moments(k).cancelReply.CancelFailed?;
    SmoothCancel(desk, task, st, slots[k], moments(k));
    KeptHasTarget(desk, task, slots, moments, k);
    if k < |task.targets| {
      SmoothPlace(desk, task, SlotCancel(desk, task, st, slots[k], moments(k)).0, moments, k);
    }
  }

  /** The slot's own order is not what any earlier slot left. */
  lemma OwnIsNotLeft(desk: Desk, task: Task, side: Side, slots: seq<Slot>, opening: seq<Order>, moments: nat -> Moment, i: nat, k: nat, o: Order)
    requires SlotsFit(task, slots) && i < k < |slots| && Partitions(slots, |task.existing|, |task.targets|)
    requires SideReady(desk, task, side, opening)
    requires LeftAt(desk, task, slots, moments, i, o)
    requires slots[k].order.Some?
    ensures o.id != task.existing[slots[k].order.value].id
  {
    var own := task.existing[slots[k].order.value];
    assert own in task.existing;
    if KeptAt(desk, task, slots[i], moments(i)) || Stands(desk, task, slots[i], moments(i), o) {
      assert slots[i].order != slots[k].order;
    }
  }

  lemma AheadIsNotOwn(task: Task, slots: seq<Slot>, k: nat, o: Order)
    requires SlotsFit(task, slots) && k < |slots| && Partitions(slots, |task.existing|, |task.targets|)
    requires DistinctIDs(task.existing)
    requires StillAhead(task, slots, k + 1, o) && slots[k].order.Some?
    ensures o.id != task.existing[slots[k].order.value].id
  {
    var s :| k + 1 <= s < |slots| && slots[s].order.Some? && task.existing[slots[s].order.value] == o;
    assert slots[s].order != slots[k].order;
  }

  lemma SlotSettles(desk: Desk, task: Task, side: Side, slots: seq<Slot>, opening: seq<Order>, st: State, moments: nat -> Moment, k: nat)
    requires SlotsFit(task, slots) && k < |slots| && Partitions(slots, |task.existing|, |task.targets|)
    requires SideReady(desk, task, side, opening) && Smooth(moments) && !st.failed
    requires slots[k].order.Some? ==> KeptAt(desk, task, slots[k], moments(k)) || SlotCancel(desk, task, st, slots[k], moments(k)).1
    requires !SlotStep(desk, task, st, slots[k], moments(k)).failed
    requires Settling(desk, task, side, slots, opening, st.book, moments, k)
    ensures Settling(desk, task, side, slots, opening, SlotStep(desk, task, st, slots[k], moments(k)).book, moments, k + 1)
  {
    hide SlotStep, SlotCancel, KeptAt, LeftBefore, StillAhead;
    var after := SlotStep(desk, task, st, slots[k], moments(k)).book;
    SmoothSlot(desk, task, st, slots, moments, k);
    forall o ensures o in after <==>
        if o.side == side then LeftBefore(desk, task, slots, moments, k + 1, o) || StillAhead(task, slots, k + 1, o)
        else o in opening
    {
      SettlesOne(desk, task, side, slots, opening, st.book, after, moments, k, o);
    }
  }

  lemma SettlesOne(
    desk: Desk, task: Task, side: Side, slots: seq<Slot>, opening: seq<Order>, before: seq<Order>, after: seq<Order>,
    moments: nat -> Moment, k: nat, o: Order)
    requires SlotsFit(task, slots) && k < |slots| && Partitions(slots, |task.existing|, |task.targets|)
    requires SideReady(desk, task, side, opening)
    requires Settling(desk, task, side, slots, opening, before, moments, k)
    requires if KeptAt(desk, task, slots[k], moments(k)) then o in after <==> o in before
             else o in after <==>
                    (o in before && !TakenOff(desk, task, slots[k], o)) || PlacedFor(desk, task, moments, o, k)
    ensures o in after <==>
            if o.side == side then LeftBefore(desk, task, slots, moments, k + 1, o) || StillAhead(task, slots, k + 1, o)
            else o in opening
  {
    hide KeptAt, Protected;
    if o.side != side {
      if slots[k].order.Some? && o in opening {
        var own := task.existing[slots[k].order.value];
        assert own in task.existing && own in opening && own != o;
        DistinctApart(opening, own, o);
      }
    } else {
      assert LeftBefore(desk, task, slots, moments, k + 1, o) <==>
               LeftBefore(desk, task, slots, moments, k, o) || LeftAt(desk, task, slots, moments, k, o);
      assert StillAhead(task, slots, k, o) <==>
               StillAhead(task, slots, k + 1, o) || (slots[k].order.Some? && task.existing[slots[k].order.value] == o);
      if slots[k].order.Some? {
        if LeftBefore(desk, task, slots, moments, k, o) {
          var i: nat :| i < k && LeftAt(desk, task, slots, moments, i, o);
          OwnIsNotLeft(desk, task, side, slots, opening, moments, i, k, o);
        }
        if StillAhead(task, slots, k + 1, o) {
          AheadIsNotOwn(task, slots, k, o);
        }
      }
      KeptHasTarget(desk, task, slots, moments, k);
    }
  }

  lemma DistinctApart(book: seq<Order>, a: Order, b: Order)
    requires DistinctIDs(book) && a in book && b in book && a != b
    ensures a.id != b.id
  {
  }

  lemma KeptHasTarget(desk: Desk, task: Task, slots: seq<Slot>, moments: nat -> Moment, k: nat)
    requires SlotsFit(task, slots) && k < |slots| && Partitions(slots, |task.existing|, |task.targets|)
    ensures KeptAt(desk, task, slots[k], moments(k)) ==> slots[k].order.Some? && k < |task.targets|
    ensures forall o :: PlacedFor(desk, task, moments, o, k) ==> k < |task.targets|
  {
  }

  lemma {:induction false} RunSettles(desk: Desk, task: Task, side: Side, slots: seq<Slot>, st: State, moments: nat -> Moment, k: nat)
    requires SlotsFit(task, slots) && k <= |slots| && Partitions(slots, |task.existing|, |task.targets|)
    requires SideReady(desk, task, side, st.book) && Smooth(moments)
    requires NothingHeld(desk, task, st, slots, moments)
    requires !RunSlots(desk, task, st, slots, moments, k).failed
    ensures Settling(desk, task, side, slots, st.book, RunSlots(desk, task, st, slots, moments, k).book, moments, k)
  {
    hide SlotCancel, PlacePhase, Settling, Partitions, SideReady, Smooth, KeptAt;
    if k == 0 {
      OpeningSettles(desk, task, side, slots, st.book, moments);
    } else {
      RunSettles(desk, task, side, slots, st, moments, k - 1);
      SlotSettles(desk, task, side, slots, st.book, RunSlots(desk, task, st, slots, moments, k - 1), moments, k - 1);
    }
  }

  lemma OpeningSettles(desk: Desk, task: Task, side: Side, slots: seq<Slot>, book: seq<Order>, moments: nat -> Moment)
    requires SlotsFit(task, slots) && Partitions(slots, |task.existing|, |task.targets|)
    requires SideReady(desk, task, side, book)
    ensures Settling(desk, task, side, slots, book, book, moments, 0)
  {
    forall o | o in task.existing ensures StillAhead(task, slots, 0, o) {
      var j :| 0 <= j < |task.existing| && task.existing[j] == o;
      assert InSomeSlot(slots, j);
      var s :| 0 <= s < |slots| && slots[s].order == Some(j);
    }
    forall o | StillAhead(task, slots, 0, o) ensures o in task.existing {
    }
  }

  /** After an accepted reconciliation that held nothing back, the side holds exactly one order per
      level -- kept or placed -- and the protected orders no level kept; the other side is as it was. */
  lemma SideSettles(desk: Desk, task: Task, side: Side, st: State, moments: nat -> Moment)
    requires SideReady(desk, task, side, st.book) && Smooth(moments)
    requires NothingHeld(desk, task, st, SideSlots(desk, task), moments)
    requires !RunSide(desk, task, st, moments).failed
    ensures var slots := SideSlots(desk, task);
            && |slots| >= |task.targets|
            && forall o :: o in RunSide(desk, task, st, moments).book <==>
                if o.side == side then LeftBefore(desk, task, slots, moments, |slots|, o) else o in st.book
  {
    var slots := SideSlots(desk, task);
    PairingPartitions(task.existing, task.targets, desk.cfg.staleBPS);
    RunSettles(desk, task, side, slots, st, moments, |slots|);
    assert forall o :: !StillAhead(task, slots, |slots|, o);
  }
}
