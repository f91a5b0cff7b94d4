/** What a run of slots asked of the venue, exactly; what it notes and reports of that; and that a dry run asks
    for nothing. */
module RunEffects {
  import opened Market
  import opened Pairing
  import opened Reconcile
  import opened ReconcileLaws
  import opened SlotEffects

  // ----- requests -----

  /** Slot i sends r. */
  ghost predicate SentBySlot(desk: Desk, task: Task, st: State, slots: seq<Slot>, moments: nat -> Moment, r: Request, i: nat)
    requires i < |slots| && SlotsFit(task, slots)
  {
    var before := RunSlots(desk, task, st, slots, moments, i);
    && !before.failed
    && (r in CancelRequest(desk, task, before.budget, slots[i], moments(i)) || r in PlaceRequest(desk, task, before.budget, slots[i], moments(i)))
  }

  ghost predicate SentBefore(desk: Desk, task: Task, st: State, slots: seq<Slot>, moments: nat -> Moment, r: Request, k: nat)
    requires k <= |slots| && SlotsFit(task, slots)
  {
    exists i: nat :: i < k && SentBySlot(desk, task, st, slots, moments, r, i)
  }

  lemma SentBeforeGrows(desk: Desk, task: Task, st: State, slots: seq<Slot>, moments: nat -> Moment, r: Request, k: nat)
    requires k < |slots| && SlotsFit(task, slots)
    ensures SentBefore(desk, task, st, slots, moments, r, k + 1) <==>
              SentBefore(desk, task, st, slots, moments, r, k) || SentBySlot(desk, task, st, slots, moments, r, k)
  {
    hide SentBySlot;
    if SentBefore(desk, task, st, slots, moments, r, k + 1) {
      var i: nat :| i < k + 1 && SentBySlot(desk, task, st, slots, moments, r, i);
      assert i == k || i < k;
    }
  }

  /** A run sends what its slots send and nothing else: the cancel of an order that is to come off, the
      placement of a level whose slot is clear, admitted and can be signed. */
  lemma {:induction false} RunSends(desk: Desk, task: Task, st: State, slots: seq<Slot>, moments: nat -> Moment, k: nat) returns (own: seq<Request>)
    requires k <= |slots| && SlotsFit(task, slots)
    ensures RunSlots(desk, task, st, slots, moments, k).sent == st.sent + own
    ensures forall r :: r in own <==> SentBefore(desk, task, st, slots, moments, r, k)
  {
    hide SlotStep, CancelRequest, PlaceRequest, SentBefore;
    if k == 0 {
      own := [];
      NothingSentYet(desk, task, st, slots, moments);
    } else {
      own := RunSends(desk, task, st, slots, moments, k - 1);
      var before, s, m := RunSlots(desk, task, st, slots, moments, k - 1), slots[k - 1], moments(k - 1);
      forall r ensures SentBefore(desk, task, st, slots, moments, r, k) <==>
                         SentBefore(desk, task, st, slots, moments, r, k - 1) || SentBySlot(desk, task, st, slots, moments, r, k - 1) {
        SentBeforeGrows(desk, task, st, slots, moments, r, k - 1);
      }
      if before.failed {
        FailedStays(desk, task, before, s, m);
      } else {
        SlotInFull(desk, task, before, s, m);
        var c, p := CancelRequest(desk, task, before.budget, s, m), PlaceRequest(desk, task, before.budget, s, m);
        assert st.sent + own + c + p == st.sent + (own + c + p);
        own := own + c + p;
      }
    }
  }

  lemma NothingSentYet(desk: Desk, task: Task, st: State, slots: seq<Slot>, moments: nat -> Moment)
    requires SlotsFit(task, slots)
    ensures forall r :: !SentBefore(desk, task, st, slots, moments, r, 0)
  {
  }

  lemma FailedStays(desk: Desk, task: Task, st: State, s: Slot, m: Moment)
    requires SlotFits(task, s) && st.failed
    ensures SlotStep(desk, task, st, s, m) == st
  {
  }

  // ----- what is noted -----

  /** The orders a run asked to cancel. */
  ghost function AskedFor(own: seq<Request>): set<string> {
    set r | r in own && r.CancelSent? :: r.id
  }

  lemma AskedForAppend(own: seq<Request>, c: seq<Request>, p: seq<Request>)
    requires forall r :: r in p ==> r.PlaceSent?
    ensures AskedFor(own + c + p) == AskedFor(own) + AskedFor(c)
  {
    assert forall r :: r in own + c + p <==> r in own || r in c || r in p;
  }

  lemma SlotNotes(desk: Desk, task: Task, st: State, s: Slot, m: Moment)
    requires SlotFits(task, s) && !st.failed && !desk.cfg.dryRun
    ensures SlotStep(desk, task, st, s, m).cancelled == st.cancelled + AskedFor(CancelRequest(desk, task, st.budget, s, m))
    ensures forall r :: r in PlaceRequest(desk, task, st.budget, s, m) ==> r.PlaceSent?
  {
    hide SlotStep, SlotCancel, VerdictAt;
    CancelHalf(desk, task, st, s, m);
    SlotInFull(desk, task, st, s, m);
    var asked := CancelRequest(desk, task, st.budget, s, m);
    if Asks(desk, task, st.budget, s, m) {
      assert asked[0] in asked && asked[0].id == IDOf(task, s);
      assert AskedFor(asked) == {IDOf(task, s)};
    } else {
      assert AskedFor(asked) == {};
    }
  }

  /** Outside a dry run an order is noted as cancelled by the bot exactly when its cancel was sent, whatever the
      venue answered. */
  lemma {:induction false} NotedExactlyWhenAsked(desk: Desk, task: Task, st: State, slots: seq<Slot>, moments: nat -> Moment, k: nat)
    returns (own: seq<Request>)
    requires k <= |slots| && SlotsFit(task, slots) && !desk.cfg.dryRun
    ensures RunSlots(desk, task, st, slots, moments, k).sent == st.sent + own
    ensures RunSlots(desk, task, st, slots, moments, k).cancelled == st.cancelled + AskedFor(own)
  {
    hide SlotStep, CancelRequest, PlaceRequest, AskedFor;
    if k == 0 {
      own := [];
      assert AskedFor([]) == {} by {
        NothingAsked();
      }
    } else {
      own := NotedExactlyWhenAsked(desk, task, st, slots, moments, k - 1);
      var before, s, m := RunSlots(desk, task, st, slots, moments, k - 1), slots[k - 1], moments(k - 1);
      if before.failed {
        FailedStays(desk, task, before, s, m);
      } else {
        SlotInFull(desk, task, before, s, m);
        SlotNotes(desk, task, before, s, m);
        var c, p := CancelRequest(desk, task, before.budget, s, m), PlaceRequest(desk, task, before.budget, s, m);
        AskedForAppend(own, c, p);
        assert st.sent + own + c + p == st.sent + (own + c + p);
        own := own + c + p;
      }
    }
  }

  lemma NothingAsked()
    ensures AskedFor([]) == {}
  {
  }

  /** Over a whole Sync: a fill is never mistaken for a cancel nor a cancel for a fill, as the ids noted are those
      of the cancels sent. */
  lemma SyncNotesWhatItAsks(desk: Desk, p: Plan, st: State, bidMoments: nat -> Moment, askMoments: nat -> Moment) returns (own: seq<Request>)
    requires !desk.cfg.dryRun
    ensures RunSync(desk, p, st, bidMoments, askMoments).sent == st.sent + own
    ensures RunSync(desk, p, st, bidMoments, askMoments).cancelled == st.cancelled + AskedFor(own)
  {
    hide RunSlots, SideBook;
    var bids := RunSide(desk, BidTask(p), st, bidMoments);
    var bidSlots, askSlots := SideSlots(desk, BidTask(p)), SideSlots(desk, AskTask(p));
    own := NotedExactlyWhenAsked(desk, BidTask(p), st, bidSlots, bidMoments, |bidSlots|);
    if !bids.failed {
      var more := NotedExactlyWhenAsked(desk, AskTask(p), bids, askSlots, askMoments, |askSlots|);
      assert (st.sent + own) + more == st.sent + (own + more);
      assert AskedFor(own + more) == AskedFor(own) + AskedFor(more) by {
        assert forall r :: r in own + more <==> r in own || r in more;
      }
      own := own + more;
    }
  }

  // ----- what is reported -----

  predicate WasPlaced(r: Request, side: Side) {
    r.PlaceSent? && r.quote.side == side && !r.preply.PlaceFailed?
  }

  /** The id reported for a side is that of the first placement on it that did not fail. */
  ghost predicate ReportsFirst(placed: map<Side, string>, own: seq<Request>, side: Side) {
    && (side in placed <==> exists i :: 0 <= i < |own| && WasPlaced(own[i], side))
    && forall i :: 0 <= i < |own| && WasPlaced(own[i], side) && (forall j :: 0 <= j < i ==> !WasPlaced(own[j], side)) ==>
         side in placed && placed[side] == own[i].identity.orderID
  }

  lemma ReportOne(placed: map<Side, string>, own: seq<Request>, r: Request, after: map<Side, string>, side: Side)
    requires ReportsFirst(placed, own, side)
    requires after == if r.PlaceSent? && WasPlaced(r, r.quote.side) && r.quote.side !in placed then placed[r.quote.side := r.identity.orderID] else placed
    ensures ReportsFirst(after, own + [r], side)
  {
    var all := own + [r];
    assert forall i :: 0 <= i < |own| ==> all[i] == own[i];
    if exists i :: 0 <= i < |all| && WasPlaced(all[i], side) {
      var i :| 0 <= i < |all| && WasPlaced(all[i], side);
      if i < |own| {
        assert WasPlaced(own[i], side);
      }
    }
    if WasPlaced(r, side) {
      assert all[|own|] == r;
    }
    if exists i :: 0 <= i < |own| && WasPlaced(own[i], side) {
      var i :| 0 <= i < |own| && WasPlaced(own[i], side);
      assert WasPlaced(all[i], side);
    }
  }

  lemma SlotReports(desk: Desk, task: Task, st: State, s: Slot, m: Moment, own: seq<Request>, side: Side)
    requires SlotFits(task, s) && !st.failed && !desk.cfg.dryRun && ReportsFirst(st.placed, own, side)
    ensures ReportsFirst(SlotStep(desk, task, st, s, m).placed,
                         own + CancelRequest(desk, task, st.budget, s, m) + PlaceRequest(desk, task, st.budget, s, m), side)
  {
    hide SlotStep, SlotCancel, ReportsFirst, Opens, ComesOff;
    SlotInFull(desk, task, st, s, m);
    var c, p := CancelRequest(desk, task, st.budget, s, m), PlaceRequest(desk, task, st.budget, s, m);
    var after := SlotStep(desk, task, st, s, m).placed;
    assert own + [] == own && own + c + [] == own + c;
    if c != [] {
      ReportOne(st.placed, own, c[0], st.placed, side);
    }
    if p != [] {
      ReportOne(st.placed, own + c, p[0], after, side);
    }
  }

  /** Over a run that starts with nothing reported, outside a dry run. */
  lemma {:induction false} FirstPlacedIsReported(
    desk: Desk, task: Task, st: State, slots: seq<Slot>, moments: nat -> Moment, k: nat, earlier: seq<Request>, side: Side)
    returns (own: seq<Request>)
    requires k <= |slots| && SlotsFit(task, slots) && !desk.cfg.dryRun && ReportsFirst(st.placed, earlier, side)
    ensures RunSlots(desk, task, st, slots, moments, k).sent == st.sent + own
    ensures ReportsFirst(RunSlots(desk, task, st, slots, moments, k).placed, earlier + own, side)
  {
    hide SlotStep, CancelRequest, PlaceRequest, ReportsFirst;
    if k == 0 {
      own := [];
      assert earlier + [] == earlier;
    } else {
      own := FirstPlacedIsReported(desk, task, st, slots, moments, k - 1, earlier, side);
      var before, s, m := RunSlots(desk, task, st, slots, moments, k - 1), slots[k - 1], moments(k - 1);
      if before.failed {
        FailedStays(desk, task, before, s, m);
      } else {
        SlotInFull(desk, task, before, s, m);
        SlotReports(desk, task, before, s, m, earlier + own, side);
        var c, p := CancelRequest(desk, task, before.budget, s, m), PlaceRequest(desk, task, before.budget, s, m);
        assert st.sent + own + c + p == st.sent + (own + c + p);
        assert earlier + own + c + p == earlier + (own + c + p);
        own := own + c + p;
      }
    }
  }

  /** A Sync outside a dry run reports, a side at a time, the first of its placements that did not fail. */
  lemma SyncReportsFirstPlaced(desk: Desk, p: Plan, st: State, bidMoments: nat -> Moment, askMoments: nat -> Moment, side: Side)
    returns (own: seq<Request>)
    requires !desk.cfg.dryRun && st.placed == map[]
    ensures RunSync(desk, p, st, bidMoments, askMoments).sent == st.sent + own
    ensures ReportsFirst(RunSync(desk, p, st, bidMoments, askMoments).placed, own, side)
  {
    hide RunSlots, SideBook;
    var bids := RunSide(desk, BidTask(p), st, bidMoments);
    var bidSlots, askSlots := SideSlots(desk, BidTask(p)), SideSlots(desk, AskTask(p));
    own := FirstPlacedIsReported(desk, BidTask(p), st, bidSlots, bidMoments, |bidSlots|, [], side);
    assert [] + own == own;
    if !bids.failed {
      var more := FirstPlacedIsReported(desk, AskTask(p), bids, askSlots, askMoments, |askSlots|, own, side);
      assert (st.sent + own) + more == st.sent + (own + more);
      own := own + more;
    }
  }

  // ----- a dry run -----

  lemma DrySlot(desk: Desk, task: Task, st: State, s: Slot, m: Moment)
    requires SlotFits(task, s) && !st.failed && desk.cfg.dryRun
    ensures var after := SlotStep(desk, task, st, s, m); after.sent == st.sent && !after.failed && after.book == Without(st.book, m.departed)
  {
    hide SlotStep, SlotCancel, Without;
    CancelHalf(desk, task, st, s, m);
    SlotInFull(desk, task, st, s, m);
  }

  /** A dry run sends nothing, cannot fail, and the book loses only what leaves it anyway. */
  lemma {:induction false} DryRunSendsNothing(desk: Desk, task: Task, st: State, slots: seq<Slot>, moments: nat -> Moment, k: nat)
    requires k <= |slots| && SlotsFit(task, slots) && desk.cfg.dryRun && !st.failed
    ensures var after := RunSlots(desk, task, st, slots, moments, k);
            && after.sent == st.sent && !after.failed
            && forall o :: o in after.book <==> o in st.book && forall i: nat :: i < k ==> o.id !in moments(i).departed
  {
    hide SlotStep, Without;
    if k > 0 {
      DryRunSendsNothing(desk, task, st, slots, moments, k - 1);
      var before := RunSlots(desk, task, st, slots, moments, k - 1);
      DrySlot(desk, task, before, slots[k - 1], moments(k - 1));
      WithoutAll(before.book, moments(k - 1).departed);
    }
  }

  lemma DrySyncSendsNothing(desk: Desk, p: Plan, st: State, bidMoments: nat -> Moment, askMoments: nat -> Moment)
    requires desk.cfg.dryRun && !st.failed
    ensures var after := RunSync(desk, p, st, bidMoments, askMoments); after.sent == st.sent && !after.failed
    ensures forall o :: o in RunSync(desk, p, st, bidMoments, askMoments).book ==> o in st.book
  {
    hide RunSlots, SideBook;
    var bids := RunSide(desk, BidTask(p), st, bidMoments);
    var bidSlots, askSlots := SideSlots(desk, BidTask(p)), SideSlots(desk, AskTask(p));
    DryRunSendsNothing(desk, BidTask(p), st, bidSlots, bidMoments, |bidSlots|);
    DryRunSendsNothing(desk, AskTask(p), bids, askSlots, askMoments, |askSlots|);
  }
}
