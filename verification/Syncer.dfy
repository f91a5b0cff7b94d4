/** The syncer as it runs: one venue, one cancel window, one set of cancelled ids, updated slot by
    slot. Each method is proved to do what the reconciliation functions say. */
module SyncerMachine {
  import opened Market
  import opened Pairing
  import opened Decision
  import opened Reconcile
  import opened ReconcileTerms
  import opened CancelSweep
  import Budget = CancelBudget

  class Venue {
    var book: seq<Order>
    /** Every request it was sent. */
    ghost var sent: seq<Request>

    constructor (resting: seq<Order>)
      ensures book == resting && sent == []
    {
      book, sent := resting, [];
    }

    method Drop(ids: set<string>)
      modifies this`book
      ensures book == Without(old(book), ids)
    {
      ghost var before := book;
      var kept := [];
      for i := 0 to |book|
        invariant book == before && kept == Without(before[..i], ids)
      {
        assert before[..i + 1][..i] == before[..i];
        if book[i].id !in ids {
          kept := kept + [book[i]];
        }
      }
      assert before[..|before|] == before;
      book := kept;
    }

    method CancelOrder(id: string, reply: CancelReply)
      modifies this
      ensures book == if TakesOff(reply) then Without(old(book), {id}) else old(book)
      ensures sent == old(sent) + [CancelSent(id, reply)]
    {
      sent := sent + [CancelSent(id, reply)];
      if TakesOff(reply) {
        Drop({id});
      }
    }

    method PlaceLimitOrder(desk: Desk, q: Quote, id: Identity, m: Moment) returns (reply: Option<PlaceReply>)
      modifies this
      ensures reply.Some? <==> CanSign(desk, q, m.now)
      ensures reply.None? ==> book == old(book) && sent == old(sent)
      ensures reply.Some? ==>
                && reply.value == m.placeReply
                && sent == old(sent) + [PlaceSent(id, q, m.placeReply)]
                && book == old(book) + if Rests(m.placeReply) then [SignedOrder(desk, q, id, m.now)] else []
    {
      if !CanSign(desk, q, m.now) {
        return None;
      }
      sent := sent + [PlaceSent(id, q, m.placeReply)];
      if Rests(m.placeReply) {
        book := book + [SignedOrder(desk, q, id, m.now)];
      }
      reply := Some(m.placeReply);
    }
  }

  class SyncResult {
    var changed: bool
    var placed: map<Side, string>

    constructor ()
      ensures !changed && placed == map[]
    {
      changed, placed := false, map[];
    }
  }

  datatype CancelError = OrderNotFound | Other

  class Syncer {
    var desk: Desk
    const venue: Venue
    const window: Budget.Window
    var cancelledIDs: set<string>

    constructor (desk: Desk, venue: Venue)
      ensures this.desk == desk && this.venue == venue && fresh(window) && cancelledIDs == {}
    {
      this.desk, this.venue, cancelledIDs := desk, venue, {};
      window := new Budget.Window();
    }

    ghost function Now(result: SyncResult, failed: bool): State
      reads this, venue, window, result
    {
      State(venue.book, venue.sent, Budget.Budget(window.stamps, window.spent), cancelledIDs, result.changed, result.placed, failed)
    }

    /** What a cancel can touch, apart from any result being built. */
    ghost function Standing(): State
      reads this, venue, window
    {
      State(venue.book, venue.sent, Budget.Budget(window.stamps, window.spent), cancelledIDs, false, map[], false)
    }

    /** The ids noted since the last call; the set starts over. */
    method TakeCancelled() returns (out: set<string>)
      modifies this`cancelledIDs
      ensures out == old(cancelledIDs) && cancelledIDs == {}
    {
      out := cancelledIDs;
      cancelledIDs := {};
    }

    method CancelResting(o: Order, rationed: bool, m: Moment) returns (err: Option<CancelError>)
      modifies this`cancelledIDs, venue, window
      ensures var (after, free) := CancelOne(desk, old(Standing()), o, rationed, m);
              && Standing() == after.(changed := false, failed := false)
              && (err == Some(Other) <==> after.failed) && (free <==> err != Some(Other))
      ensures !desk.cfg.dryRun && !Protected(desk.cfg, o.id) ==>
                err == match m.cancelReply case Cancelled => None case NotFound => Some(OrderNotFound) case CancelFailed(_) => Some(Other)
    {
      if Protected(desk.cfg, o.id) {
        return None;
      }
      cancelledIDs := cancelledIDs + {o.id};
      if !desk.cfg.dryRun {
        venue.CancelOrder(o.id, m.cancelReply);
        if m.cancelReply.NotFound? {
          return Some(OrderNotFound);
        } else if m.cancelReply.CancelFailed? {
          return Some(Other);
        }
      }
      if rationed {
        window.Record(m.now);
      }
      err := None;
    }

    /** The cancel half of a slot; `current` is the order still standing afterwards. */
    method ReconcileOrder(task: Task, s: Slot, m: Moment, result: SyncResult) returns (free: bool, failed: bool)
      requires SlotFits(task, s) && s.order.Some?
      modifies this`cancelledIDs, venue, window, result
      ensures var (after, f) := CancelPhase(desk, old(Now(result, false)), task.existing[s.order.value], TargetOf(task, s), task.opposite, task.fallback, m);
              Now(result, failed) == after && free == f && failed == after.failed
    {
      hide EvaluateCancel, Without, Protected;
      var o := task.existing[s.order.value];
      var verdict := EvaluateCancel(o, TargetOf(task, s), task.opposite, desk.cfg, task.fallback, m.now, desk.quantum, Required(desk, o.price));
      if !verdict.Cancel? {
        return false, false;
      }
      if verdict.rationed {
        var ok := window.CanUse(desk.cfg.maxCancelsPerMinute, m.now);
        if !ok {
          return false, false;
        }
      }
      var err := CancelResting(o, verdict.rationed, m);
      if err == Some(Other) {
        return false, true;
      }
      result.changed := true;
      free, failed := true, false;
    }

    method Place(q: Quote, level: int, ids: seq<Identity>, m: Moment, result: SyncResult) returns (failed: bool)
      modifies venue, result
      ensures var after := PlacePhase(desk, old(Now(result, false)), q, level, ids, m);
              Now(result, failed) == after && failed == after.failed
    {
      if !(0 <= level < |ids|) || !m.allowed {
        return false;
      }
      if !desk.cfg.dryRun {
        var reply := venue.PlaceLimitOrder(desk, q, ids[level], m);
        if reply.None? || reply.value.PlaceFailed? {
          return true;
        }
      }
      result.changed := true;
      if q.side !in result.placed {
        result.placed := result.placed[q.side := ids[level].orderID];
      }
      failed := false;
    }

    method ReconcileSlot(task: Task, s: Slot, m: Moment, result: SyncResult) returns (failed: bool)
      requires SlotFits(task, s)
      modifies this`cancelledIDs, venue, window, result
      ensures var after := SlotStep(desk, task, old(Now(result, false)), s, m);
              Now(result, failed) == after && failed == after.failed
    {
      hide EvaluateCancel, CancelPhase, PlacePhase;
      venue.Drop(m.departed);
      var free := true;
      failed := false;
      if s.order.Some? {
        free, failed := ReconcileOrder(task, s, m, result);
      }
      if !failed && free && s.target.Some? {
        failed := Place(task.targets[s.target.value], s.level, task.ids, m, result);
      }
    }

    method ReconcileSide(task: Task, moments: nat -> Moment, result: SyncResult) returns (failed: bool)
      modifies this`cancelledIDs, venue, window, result
      ensures var after := RunSide(desk, task, old(Now(result, false)), moments);
              Now(result, failed) == after && failed == after.failed
    {
      hide SlotStep, Slots;
      ghost var start := Now(result, false);
      SlotsAlwaysFit(task, desk.cfg.staleBPS);
      var slots := PairByPrice(task.existing, task.targets, desk.cfg.staleBPS);
      for i := 0 to |slots|
        invariant Now(result, false) == RunSlots(desk, task, start, slots, moments, i)
      {
        failed := ReconcileSlot(task, slots[i], moments(i), result);
        if failed {
          FailureIsFinal(desk, task, start, slots, moments, i + 1, |slots|);
          return;
        }
      }
      failed := false;
    }

    method Sync(p: Plan, bidMoments: nat -> Moment, askMoments: nat -> Moment) returns (result: SyncResult, failed: bool)
      modifies this`cancelledIDs, venue, window
      ensures fresh(result)
      ensures var opening := Opening(old(venue.book), Budget.Budget(old(window.stamps), old(window.spent)), old(cancelledIDs));
              var after := RunSync(desk, p, opening.(sent := old(venue.sent)), bidMoments, askMoments);
              Now(result, failed) == after && failed == after.failed
    {
      hide RunSide, SideBook;
      result := new SyncResult();
      failed := ReconcileSide(BidTask(p), bidMoments, result);
      if !failed {
        failed := ReconcileSide(AskTask(p), askMoments, result);
      }
    }

    /** One order of a sweep; whether it may still rest. */
    method SweepOrder(side: Option<Side>, o: Order, m: Moment, ghost w: Sweep) returns (outcome: Option<Outcome>, rests: bool, erred: bool)
      requires w.st == Standing()
      modifies this`cancelledIDs, venue, window
      ensures var after := SweepOne(desk, side, w, o, m);
              && Standing() == after.st
              && after.results == w.results + (if outcome.Some? then [outcome.value] else [])
              && after.remaining == w.remaining + (if rests then [o] else [])
              && after.erred == (w.erred || erred)
    {
      venue.Drop(m.departed);
      if (side.Some? && o.side != side.value) || Protected(desk.cfg, o.id) {
        return None, true, false;
      }
      if desk.cfg.dryRun {
        return Some(Errored(o.id)), true, false;
      }
      var err := CancelResting(o, false, m);
      match err
      case None => outcome, rests, erred := Some(WasCancelled(o.id)), false, false;
      case Some(OrderNotFound) => outcome, rests, erred := Some(WasNotFound(o.id)), false, false;
      case Some(Other) => outcome, rests, erred := Some(Errored(o.id)), true, true;
    }

    /** `listing` is None when the book could not be listed: nothing is cancelled then. */
    method CancelAll(listing: Option<seq<Order>>, side: Option<Side>, moments: nat -> Moment)
      returns (results: seq<Outcome>, remaining: seq<Order>, listFailed: bool, erred: bool)
      modifies this`cancelledIDs, venue, window
      ensures listFailed <==> listing.None?
      ensures listFailed ==> Standing() == old(Standing())
      ensures !listFailed ==>
                var w := RunSweep(desk, side, old(Standing()), listing.value, moments, |listing.value|);
                Standing() == w.st && results == w.results && remaining == w.remaining && erred == w.erred
    {
      hide SweepOne;
      results, remaining, listFailed, erred := [], [], listing.None?, false;
      if listing.None? {
        return;
      }
      for i := 0 to |listing.value|
        invariant Sweep(Standing(), results, remaining, erred) ==
                  RunSweep(desk, side, old(Standing()), listing.value, moments, i)
      {
        var outcome, rests, failed := SweepOrder(side, listing.value[i], moments(i), Sweep(Standing(), results, remaining, erred));
        results := results + if outcome.Some? then [outcome.value] else [];
        remaining := remaining + if rests then [listing.value[i]] else [];
        erred := erred || failed;
      }
    }
  }
}
