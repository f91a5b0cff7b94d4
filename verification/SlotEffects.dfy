/** What one slot asks of the venue and what that leaves, told from its verdict, the window, the gate and the
    venue's answers alone. */
module SlotEffects {
  import opened Market
  import opened Pairing
  import opened Decision
  import opened Reconcile
  import Budget = CancelBudget

  function VerdictAt(desk: Desk, task: Task, s: Slot, m: Moment): Verdict
    requires SlotFits(task, s) && s.order.Some?
  {
    VerdictOn(desk, task.existing[s.order.value], TargetOf(task, s), task.opposite, task.fallback, m.now)
  }

  /** A replace for size or price. */
  predicate Replaces(v: Verdict) {
    v.Cancel? && (v.reason.SizeMismatch? || v.reason.StaleOrWrong?)
  }

  /** The slot's order is to come off, and when that is a replace the window has room for it. */
  predicate ComesOff(desk: Desk, task: Task, b: Budget.Budget, s: Slot, m: Moment)
    requires SlotFits(task, s)
  {
    s.order.Some? &&
    var v := VerdictAt(desk, task, s, m);
    v.Cancel? && (Replaces(v) ==> Budget.HasSlot(Budget.Prune(b.stamps, m.now), desk.cfg.maxCancelsPerMinute))
  }

  /** ... and is the bot's to cancel. */
  predicate Taken(desk: Desk, task: Task, b: Budget.Budget, s: Slot, m: Moment)
    requires SlotFits(task, s)
  {
    ComesOff(desk, task, b, s, m) && !Protected(desk.cfg, task.existing[s.order.value].id)
  }

  /** A cancel is sent. */
  predicate Asks(desk: Desk, task: Task, b: Budget.Budget, s: Slot, m: Moment)
    requires SlotFits(task, s)
  {
    Taken(desk, task, b, s, m) && !desk.cfg.dryRun
  }

  /** Nothing of the slot's stands in the way of a placement. */
  predicate Clear(desk: Desk, task: Task, b: Budget.Budget, s: Slot, m: Moment)
    requires SlotFits(task, s)
  {
    s.order.None? || (ComesOff(desk, task, b, s, m) && !(Asks(desk, task, b, s, m) && m.cancelReply.CancelFailed?))
  }

  /** A level to place, an identity for it, and the operator's leave. */
  predicate Opens(desk: Desk, task: Task, b: Budget.Budget, s: Slot, m: Moment)
    requires SlotFits(task, s)
  {
    Clear(desk, task, b, s, m) && s.target.Some? && 0 <= s.level < |task.ids| && m.allowed
  }

  /** A placement is sent. */
  predicate Sends(desk: Desk, task: Task, b: Budget.Budget, s: Slot, m: Moment)
    requires SlotFits(task, s)
  {
    Opens(desk, task, b, s, m) && !desk.cfg.dryRun && CanSign(desk, task.targets[s.target.value], m.now)
  }

  /** A placement is reported: one that was sent and did not fail, or one that a dry run would have sent. */
  predicate Reports(desk: Desk, task: Task, b: Budget.Budget, s: Slot, m: Moment)
    requires SlotFits(task, s)
  {
    if desk.cfg.dryRun then Opens(desk, task, b, s, m) else Sends(desk, task, b, s, m) && !m.placeReply.PlaceFailed?
  }

  function IDOf(task: Task, s: Slot): string
    requires SlotFits(task, s) && s.order.Some?
  {
    task.existing[s.order.value].id
  }

  function CancelRequest(desk: Desk, task: Task, b: Budget.Budget, s: Slot, m: Moment): seq<Request>
    requires SlotFits(task, s)
  {
    if Asks(desk, task, b, s, m) then [CancelSent(IDOf(task, s), m.cancelReply)] else []
  }

  function PlaceRequest(desk: Desk, task: Task, b: Budget.Budget, s: Slot, m: Moment): seq<Request>
    requires SlotFits(task, s)
  {
    if Sends(desk, task, b, s, m) then [PlaceSent(task.ids[s.level], task.targets[s.target.value], m.placeReply)] else []
  }

  /** The cancel half, in full. */
  lemma CancelHalf(desk: Desk, task: Task, st: State, s: Slot, m: Moment)
    requires SlotFits(task, s) && !st.failed
    ensures var (after, free) := SlotCancel(desk, task, st, s, m);
            var asks, off := Asks(desk, task, st.budget, s, m), Without(st.book, m.departed);
            && after.sent == st.sent + CancelRequest(desk, task, st.budget, s, m)
            && after.cancelled == st.cancelled + (if Taken(desk, task, st.budget, s, m) then {IDOf(task, s)} else {})
            && after.book == (if asks && (m.cancelReply != CancelFailed(false)) then Without(off, {IDOf(task, s)}) else off)
            && after.placed == st.placed
            && (free <==> Clear(desk, task, st.budget, s, m))
            && (after.failed <==> asks && m.cancelReply.CancelFailed?)
            && (after.changed <==> st.changed || (s.order.Some? && free))
  {
    hide EvaluateCancel, Without, Protected, Required;
    if s.order.Some? {
      VerdictRations(desk, task, s, m);
    }
  }

  lemma VerdictRations(desk: Desk, task: Task, s: Slot, m: Moment)
    requires SlotFits(task, s) && s.order.Some?
    ensures var v := VerdictAt(desk, task, s, m); v.Cancel? ==> (v.rationed <==> Replaces(v))
  {
    hide SizeMismatched, Drifted, Crosses, PriceDrift, Protected;
  }

  /** The window after the cancel half: one more stamp exactly for a replace that went through. */
  lemma CancelHalfSpends(desk: Desk, task: Task, st: State, s: Slot, m: Moment)
    requires SlotFits(task, s) && !st.failed
    ensures var after := SlotCancel(desk, task, st, s, m).0;
            after.budget.spent == st.budget.spent +
              if Taken(desk, task, st.budget, s, m) && Replaces(VerdictAt(desk, task, s, m)) && (desk.cfg.dryRun || m.cancelReply.Cancelled?)
              then [m.now] else []
    ensures desk.cfg.maxCancelsPerMinute <= 0 && SlotCancel(desk, task, st, s, m).0.budget.spent == st.budget.spent ==>
              SlotCancel(desk, task, st, s, m).0.budget == st.budget
  {
    hide EvaluateCancel, Without, Protected, Required, Budget.Prune;
    if s.order.Some? {
      VerdictRations(desk, task, s, m);
    }
  }

  /** The whole slot: what it sends, and what rests, is noted and is reported afterwards. */
  lemma SlotInFull(desk: Desk, task: Task, st: State, s: Slot, m: Moment)
    requires SlotFits(task, s) && !st.failed
    ensures var half, after := SlotCancel(desk, task, st, s, m).0, SlotStep(desk, task, st, s, m);
            var sends, opens := Sends(desk, task, st.budget, s, m), Opens(desk, task, st.budget, s, m);
            && after.sent == st.sent + CancelRequest(desk, task, st.budget, s, m) + PlaceRequest(desk, task, st.budget, s, m)
            && after.book == half.book + (if sends && m.placeReply != WouldCross && m.placeReply != PlaceFailed(false)
                                          then [SignedOrder(desk, task.targets[s.target.value], task.ids[s.level], m.now)] else [])
            && after.cancelled == half.cancelled && after.budget == half.budget
            && after.placed == (if Reports(desk, task, st.budget, s, m) && task.targets[s.target.value].side !in st.placed
                                then st.placed[task.targets[s.target.value].side := task.ids[s.level].orderID] else st.placed)
            && (after.failed <==> half.failed || (opens && !desk.cfg.dryRun && (sends ==> m.placeReply.PlaceFailed?)))
            && (after.changed <==> half.changed || Reports(desk, task, st.budget, s, m))
  {
    hide SlotCancel, CanSign, SignedOrder, Without, VerdictAt;
    CancelHalf(desk, task, st, s, m);
    var half := SlotCancel(desk, task, st, s, m).0;
    assert half.sent + [] == half.sent && half.book + [] == half.book;
  }
}
