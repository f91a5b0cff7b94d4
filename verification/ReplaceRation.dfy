/** The cancel budget on what is actually asked of the venue: in any closed minute of a syncer's life at most the
    configured number of replaces for size or price go through. */
module ReplaceRation {
  import opened Market
  import opened Pairing
  import opened Reconcile
  import opened ReconcileTerms
  import opened ReconcileRequests
  import opened SlotEffects
  import opened CancelSweep
  import Budget = CancelBudget

  // ----- one side -----

  /** The slot sent the cancel of its order for its size or price, and the venue confirmed it. */
  predicate WentThrough(desk: Desk, task: Task, st: State, s: Slot, m: Moment)
    requires SlotFits(task, s)
  {
    && !st.failed && s.order.Some? && Replaces(VerdictAt(desk, task, s, m))
    && SlotCancel(desk, task, st, s, m).0.sent == st.sent + [CancelSent(IDOf(task, s), Cancelled)]
  }

  /** When replaces went through in the first k slots. */
  function Replaced(desk: Desk, task: Task, st: State, slots: seq<Slot>, moments: nat -> Moment, k: nat): seq<int>
    requires k <= |slots| && SlotsFit(task, slots)
  {
    if k == 0 then []
    else
      Replaced(desk, task, st, slots, moments, k - 1)
      + if WentThrough(desk, task, RunSlots(desk, task, st, slots, moments, k - 1), slots[k - 1], moments(k - 1)) then [moments(k - 1).now] else []
  }

  lemma SlotCountsReplaces(desk: Desk, task: Task, st: State, s: Slot, m: Moment)
    requires SlotFits(task, s) && !desk.cfg.dryRun
    ensures SlotStep(desk, task, st, s, m).budget.spent ==
            st.budget.spent + if WentThrough(desk, task, st, s, m) then [m.now] else []
  {
    hide VerdictAt, SlotCancel, SlotStep, Budget.Prune;
    if st.failed {
      FailedStepKeeps(desk, task, st, s, m);
    } else {
      CancelHalf(desk, task, st, s, m);
      CancelHalfSpends(desk, task, st, s, m);
      SlotInFull(desk, task, st, s, m);
      if s.order.Some? {
        var asked := [CancelSent(IDOf(task, s), m.cancelReply)];
        assert (st.sent + asked)[|st.sent|] == asked[0];
        assert (st.sent + [CancelSent(IDOf(task, s), Cancelled)])[|st.sent|] == CancelSent(IDOf(task, s), Cancelled);
      }
    }
  }

  lemma FailedStepKeeps(desk: Desk, task: Task, st: State, s: Slot, m: Moment)
    requires SlotFits(task, s) && st.failed
    ensures SlotStep(desk, task, st, s, m) == st
  {
  }

  /** The window's record grows by exactly the replaces that went through, each at its own time. */
  lemma {:induction false} RunCountsReplaces(desk: Desk, task: Task, st: State, slots: seq<Slot>, moments: nat -> Moment, k: nat)
    requires k <= |slots| && SlotsFit(task, slots) && !desk.cfg.dryRun
    ensures RunSlots(desk, task, st, slots, moments, k).budget.spent == st.budget.spent + Replaced(desk, task, st, slots, moments, k)
  {
    hide SlotStep, WentThrough;
    if k > 0 {
      RunCountsReplaces(desk, task, st, slots, moments, k - 1);
      SlotCountsReplaces(desk, task, RunSlots(desk, task, st, slots, moments, k - 1), slots[k - 1], moments(k - 1));
    }
  }

  function SideReplaced(desk: Desk, task: Task, st: State, moments: nat -> Moment): seq<int> {
    var slots := SideSlots(desk, task);
    Replaced(desk, task, st, slots, moments, |slots|)
  }

  /** Through one side, whatever the venue answers: together with what was recorded before, no closed minute
      holds more replaces that went through than the limit. */
  lemma SideReplacesAreRationed(desk: Desk, task: Task, st: State, moments: nat -> Moment, start: int, from: int)
    requires desk.cfg.maxCancelsPerMinute > 0 && !desk.cfg.dryRun && Monotone(moments, start)
    requires BudgetHolds(st.budget, desk.cfg.maxCancelsPerMinute, start)
    ensures Budget.CountIn(st.budget.spent + SideReplaced(desk, task, st, moments), from) <= desk.cfg.maxCancelsPerMinute
  {
    var slots := SideSlots(desk, task);
    RunCountsReplaces(desk, task, st, slots, moments, |slots|);
    SideKeepsBudget(desk, task, st, moments, start, from);
  }

  /** A replace is held back for want of budget exactly when the minute before it is full. */
  lemma HeldBackExactlyWhenFull(desk: Desk, task: Task, st: State, s: Slot, m: Moment, now: int)
    requires SlotFits(task, s) && s.order.Some? && Replaces(VerdictAt(desk, task, s, m))
    requires desk.cfg.maxCancelsPerMinute > 0 && BudgetHolds(st.budget, desk.cfg.maxCancelsPerMinute, now) && now <= m.now
    ensures !ComesOff(desk, task, st.budget, s, m) <==>
              Budget.CountIn(st.budget.spent, m.now - Budget.MINUTE) == desk.cfg.maxCancelsPerMinute
  {
    hide VerdictAt, Budget.Prune;
    var limit := desk.cfg.maxCancelsPerMinute;
    var pruned :| Budget.WithinBudget(st.budget, limit, pruned, now);
    Budget.RoomIsCounted(st.budget, limit, pruned, now, m.now);
    Budget.RationedCount(st.budget.spent, limit, m.now - Budget.MINUTE);
  }

  // ----- a whole Sync -----

  function SyncReplaced(desk: Desk, p: Plan, st: State, bidMoments: nat -> Moment, askMoments: nat -> Moment): seq<int> {
    var bids := RunSide(desk, BidTask(p), st, bidMoments);
    SideReplaced(desk, BidTask(p), st, bidMoments) + if bids.failed then [] else SideReplaced(desk, AskTask(p), bids, askMoments)
  }

  /** The clock over one Sync: bids up to `middle`, asks from there up to `end`. */
  ghost predicate OnTime(bidMoments: nat -> Moment, askMoments: nat -> Moment, start: int, middle: int, end: int) {
    && Monotone(bidMoments, start) && Monotone(askMoments, middle) && start <= middle <= end
    && (forall i: nat :: bidMoments(i).now <= middle) && forall i: nat :: askMoments(i).now <= end
  }

  lemma SideEndsWithinBudget(desk: Desk, task: Task, st: State, moments: nat -> Moment, start: int, end: int)
    requires desk.cfg.maxCancelsPerMinute > 0 && Monotone(moments, start) && start <= end && forall i: nat :: moments(i).now <= end
    requires BudgetHolds(st.budget, desk.cfg.maxCancelsPerMinute, start)
    ensures BudgetHolds(RunSide(desk, task, st, moments).budget, desk.cfg.maxCancelsPerMinute, end)
  {
    hide BudgetHolds, RunSlots;
    var slots := SideSlots(desk, task);
    RunKeepsBudget(desk, task, slots, st, moments, start, |slots|);
    BudgetOutlasts(RunSide(desk, task, st, moments).budget, desk.cfg.maxCancelsPerMinute, Clock(moments, start, |slots|), end);
  }

  lemma SyncCountsReplaces(desk: Desk, p: Plan, st: State, bidMoments: nat -> Moment, askMoments: nat -> Moment)
    requires !desk.cfg.dryRun
    ensures RunSync(desk, p, st, bidMoments, askMoments).budget.spent ==
            st.budget.spent + SyncReplaced(desk, p, st, bidMoments, askMoments)
  {
    hide RunSlots, Replaced;
    var bids := RunSide(desk, BidTask(p), st, bidMoments);
    var bidSlots, askSlots := SideSlots(desk, BidTask(p)), SideSlots(desk, AskTask(p));
    RunCountsReplaces(desk, BidTask(p), st, bidSlots, bidMoments, |bidSlots|);
    RunCountsReplaces(desk, AskTask(p), bids, askSlots, askMoments, |askSlots|);
  }

  lemma SyncKeepsBudget(desk: Desk, p: Plan, st: State, bidMoments: nat -> Moment, askMoments: nat -> Moment, start: int, middle: int, end: int)
    requires desk.cfg.maxCancelsPerMinute > 0 && OnTime(bidMoments, askMoments, start, middle, end)
    requires BudgetHolds(st.budget, desk.cfg.maxCancelsPerMinute, start)
    ensures BudgetHolds(RunSync(desk, p, st, bidMoments, askMoments).budget, desk.cfg.maxCancelsPerMinute, end)
  {
    hide RunSide, BudgetHolds;
    var bids := RunSide(desk, BidTask(p), st, bidMoments);
    SideEndsWithinBudget(desk, BidTask(p), st, bidMoments, start, middle);
    BudgetOutlasts(bids.budget, desk.cfg.maxCancelsPerMinute, middle, end);
    SideEndsWithinBudget(desk, AskTask(p), bids, askMoments, middle, end);
  }

  // ----- a syncer's life -----

  /** A Sync over whatever then rests, or a sweep of the book by a kill, a halt or a pulled side. */
  datatype Turn =
    | Synced(desk: Desk, plan: Plan, book: seq<Order>, noted: set<string>, bids: nat -> Moment, asks: nat -> Moment,
             start: int, middle: int, end: int)
    | Swept(desk: Desk, side: Option<Side>, book: seq<Order>, noted: set<string>, listed: seq<Order>, moments: nat -> Moment,
            start: int, end: int)

  /** The window after the turns so far; the book and the noted ids are whatever they are at each. */
  function WindowAfter(turns: seq<Turn>): Budget.Budget {
    if turns == [] then Budget.Budget([], [])
    else
      var before := WindowAfter(turns[..|turns| - 1]);
      match turns[|turns| - 1]
      case Synced(desk, p, book, noted, bids, asks, _, _, _) => RunSync(desk, p, Opening(book, before, noted), bids, asks).budget
      case Swept(desk, side, book, noted, listed, moments, _, _) => RunSweep(desk, side, Opening(book, before, noted), listed, moments, |listed|).st.budget
  }

  /** When replaces went through, over all turns. */
  function LifeReplaced(turns: seq<Turn>): seq<int> {
    if turns == [] then []
    else
      var before, last := turns[..|turns| - 1], turns[|turns| - 1];
      LifeReplaced(before) +
      match last
      case Synced(desk, p, book, noted, bids, asks, _, _, _) => SyncReplaced(desk, p, Opening(book, WindowAfter(before), noted), bids, asks)
      case Swept(_, _, _, _, _, _, _, _) => []
  }

  /** One configuration, and a clock that does not go back within a Sync or between turns. */
  ghost predicate Lived(turns: seq<Turn>, limit: int) {
    && (forall i :: 0 <= i < |turns| ==>
          && turns[i].desk.cfg.maxCancelsPerMinute == limit && !turns[i].desk.cfg.dryRun && turns[i].start <= turns[i].end
          && (turns[i].Synced? ==> OnTime(turns[i].bids, turns[i].asks, turns[i].start, turns[i].middle, turns[i].end)))
    && forall i, j :: 0 <= i < j < |turns| ==> turns[i].end <= turns[j].start
  }

  lemma NothingSpent(limit: int, now: int)
    ensures BudgetHolds(Budget.Budget([], []), limit, now)
  {
    assert Budget.WithinBudget(Budget.Budget([], []), limit, now, now);
  }

  lemma {:induction false} LifeKeepsBudget(turns: seq<Turn>, limit: int, now: int)
    requires limit > 0 && Lived(turns, limit) && (turns != [] ==> turns[|turns| - 1].end <= now)
    ensures BudgetHolds(WindowAfter(turns), limit, now)
    ensures WindowAfter(turns).spent == LifeReplaced(turns)
  {
    hide RunSync, RunSweep, BudgetHolds, SyncReplaced, OnTime;
    if turns == [] {
      NothingSpent(limit, now);
    } else {
      var before, last := turns[..|turns| - 1], turns[|turns| - 1];
      LifeKeepsBudget(before, limit, last.start);
      var opening := Opening(last.book, WindowAfter(before), last.noted);
      match last {
        case Synced(desk, p, _, _, bids, asks, start, middle, end) =>
          SyncKeepsBudget(desk, p, opening, bids, asks, start, middle, end);
          SyncCountsReplaces(desk, p, opening, bids, asks);
        case Swept(desk, side, _, _, listed, moments, start, end) =>
          var own := SweepAsksOnlyInScope(desk, side, opening, listed, moments, |listed|);
          BudgetOutlasts(WindowAfter(before), limit, start, end);
      }
      BudgetOutlasts(WindowAfter(turns), limit, last.end, now);
    }
  }

  /** Over a syncer's whole life on a clock that does not go back -- Syncs that fail anywhere, sweeps in between,
      any answers -- every closed minute holds at most the configured number of replaces for size or price that
      the venue confirmed. */
  lemma ReplacesAreRationed(turns: seq<Turn>, limit: int, from: int)
    requires limit > 0 && Lived(turns, limit)
    ensures Budget.CountIn(LifeReplaced(turns), from) <= limit
  {
    hide Lived, WindowAfter, LifeReplaced;
    var now := if turns == [] then 0 else turns[|turns| - 1].end;
    LifeKeepsBudget(turns, limit, now);
    var pruned :| Budget.WithinBudget(WindowAfter(turns), limit, pruned, now);
    Budget.RationedCount(WindowAfter(turns).spent, limit, from);
  }
}
