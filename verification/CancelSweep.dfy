/** Cancelling everything on a market or one side of it (cancelAll in sync.go): what a kill, a halt and
    a pulled side rely on. */
module CancelSweep {
  import opened Market
  import opened Reconcile
  import opened ReconcileLaws

  datatype Outcome = WasCancelled(id: string) | WasNotFound(id: string) | Errored(id: string)

  /** `st` carries the book, the requests and the noted ids; `erred` is whether some cancel failed. */
  datatype Sweep = Sweep(st: State, results: seq<Outcome>, remaining: seq<Order>, erred: bool)

  predicate InScope(desk: Desk, side: Option<Side>, o: Order) {
    (side.Some? ==> o.side == side.value) && !Protected(desk.cfg, o.id)
  }

  function OutcomeOf(o: Order, reply: CancelReply): Outcome {
    match reply
    case Cancelled => WasCancelled(o.id)
    case NotFound => WasNotFound(o.id)
    case CancelFailed(_) => Errored(o.id)
  }

  /** One order: left alone, reported unsent in a dry run, or cancelled -- going on after a failure. */
  function SweepOne(desk: Desk, side: Option<Side>, w: Sweep, o: Order, m: Moment): Sweep {
    var gone := w.(st := Depart(w.st, m));
    if !InScope(desk, side, o) then gone.(remaining := w.remaining + [o])
    else if desk.cfg.dryRun then gone.(results := w.results + [Errored(o.id)], remaining := w.remaining + [o])
    else
      var (after, _) := CancelOne(desk, gone.st, o, false, m);
      Sweep(after.(failed := w.st.failed, changed := w.st.changed), w.results + [OutcomeOf(o, m.cancelReply)],
            if m.cancelReply.CancelFailed? then w.remaining + [o] else w.remaining, w.erred || m.cancelReply.CancelFailed?)
  }

  function RunSweep(desk: Desk, side: Option<Side>, st: State, listed: seq<Order>, moments: nat -> Moment, k: nat): Sweep
    requires k <= |listed|
  {
    if k == 0 then Sweep(st, [], [], false)
    else SweepOne(desk, side, RunSweep(desk, side, st, listed, moments, k - 1), listed[k - 1], moments(k - 1))
  }

  // ----- what a sweep leaves -----

  lemma SweepOneLeaves(desk: Desk, side: Option<Side>, w: Sweep, o: Order, m: Moment, x: Order)
    ensures var after := SweepOne(desk, side, w, o, m);
            && (x in after.st.book ==> x in w.st.book)
            && (x in w.remaining ==> x in after.remaining)
            && (x == o && x in after.st.book ==> x in after.remaining)
            && (x in after.remaining ==> x in w.remaining || x == o)
  {
    hide Protected, Without;
    WithoutIs(w.st.book, m.departed, x);
    WithoutIs(Without(w.st.book, m.departed), {o.id}, x);
  }

  /** The orders reported as remaining cover every listed order still on the book, whatever the venue
      answered and whatever else left meanwhile. */
  lemma {:induction false} RemainingCoversTheBook(desk: Desk, side: Option<Side>, st: State, listed: seq<Order>, moments: nat -> Moment, k: nat, x: Order)
    requires k <= |listed|
    ensures var w := RunSweep(desk, side, st, listed, moments, k);
            && (x in w.st.book ==> x in st.book)
            && (x in w.st.book && x in listed[..k] ==> x in w.remaining)
            && (x in w.remaining ==> x in listed[..k])
  {
    hide SweepOne;
    if k > 0 {
      RemainingCoversTheBook(desk, side, st, listed, moments, k - 1, x);
      SweepOneLeaves(desk, side, RunSweep(desk, side, st, listed, moments, k - 1), listed[k - 1], moments(k - 1), x);
      assert listed[..k] == listed[..k - 1] + [listed[k - 1]];
    }
  }

  /** What was asked of the venue and reported about it, order by order. */
  ghost predicate Accounted(desk: Desk, side: Option<Side>, w: Sweep, o: Order, reply: CancelReply) {
    if !InScope(desk, side, o) then o in w.remaining
    else
      && CancelSent(o.id, reply) in w.st.sent && o.id in w.st.cancelled
      && (reply.Cancelled? ==> WasCancelled(o.id) in w.results)
      && (reply.NotFound? ==> WasNotFound(o.id) in w.results)
      && (reply.CancelFailed? ==> Errored(o.id) in w.results)
      && (reply.CancelFailed? ==> o in w.remaining && w.erred)
  }

  lemma SweepOneAccounts(desk: Desk, side: Option<Side>, w: Sweep, o: Order, m: Moment)
    requires !desk.cfg.dryRun
    ensures var after := SweepOne(desk, side, w, o, m);
            && Accounted(desk, side, after, o, m.cancelReply)
            && (forall x, reply :: Accounted(desk, side, w, x, reply) ==> Accounted(desk, side, after, x, reply))
            && (after.erred ==> w.erred || (InScope(desk, side, o) && m.cancelReply.CancelFailed?))
            && (forall x :: x in after.remaining ==> x in w.remaining || (x == o && (!InScope(desk, side, o) || m.cancelReply.CancelFailed?)))
  {
    hide Protected, Without;
  }

  /** A sweep does not stop at a failure: every listed order in scope is asked for and noted, and an
      error is reported exactly when some cancel failed. */
  lemma {:induction false} EveryOrderIsSwept(desk: Desk, side: Option<Side>, st: State, listed: seq<Order>, moments: nat -> Moment, k: nat)
    requires k <= |listed| && !desk.cfg.dryRun
    ensures var w := RunSweep(desk, side, st, listed, moments, k);
            && (forall i :: 0 <= i < k ==> Accounted(desk, side, w, listed[i], moments(i).cancelReply))
            && (w.erred <==> exists i :: 0 <= i < k && InScope(desk, side, listed[i]) && moments(i).cancelReply.CancelFailed?)
            && (forall x :: x in w.remaining && InScope(desk, side, x) ==> w.erred)
  {
    hide SweepOne, Accounted, InScope;
    if k > 0 {
      EveryOrderIsSwept(desk, side, st, listed, moments, k - 1);
      SweepOneAccounts(desk, side, RunSweep(desk, side, st, listed, moments, k - 1), listed[k - 1], moments(k - 1));
      AccountedError(desk, side, RunSweep(desk, side, st, listed, moments, k), listed[k - 1], moments(k - 1).cancelReply);
      if exists i :: 0 <= i < k - 1 && InScope(desk, side, listed[i]) && moments(i).cancelReply.CancelFailed? {
        var i :| 0 <= i < k - 1 && InScope(desk, side, listed[i]) && moments(i).cancelReply.CancelFailed?;
        AccountedError(desk, side, RunSweep(desk, side, st, listed, moments, k), listed[i], moments(i).cancelReply);
      }
    }
  }

  lemma AccountedError(desk: Desk, side: Option<Side>, w: Sweep, o: Order, reply: CancelReply)
    requires Accounted(desk, side, w, o, reply)
    ensures InScope(desk, side, o) && reply.CancelFailed? ==> w.erred
  {
  }

  /** Every order of ours on the swept side was listed. */
  ghost predicate ScopeListed(desk: Desk, side: Option<Side>, book: seq<Order>, listed: seq<Order>) {
    forall o :: o in book && InScope(desk, side, o) ==> o in listed
  }

  /** When the listing is complete and no cancel fails -- not-found counts as success -- no unprotected
      order is left on the swept side. */
  lemma CleanSweepLeavesNothing(desk: Desk, side: Option<Side>, st: State, listed: seq<Order>, moments: nat -> Moment)
    requires !desk.cfg.dryRun && ScopeListed(desk, side, st.book, listed)
    requires !RunSweep(desk, side, st, listed, moments, |listed|).erred
    ensures forall o :: o in RunSweep(desk, side, st, listed, moments, |listed|).st.book ==> !InScope(desk, side, o)
  {
    hide InScope, SweepOne;
    EveryOrderIsSwept(desk, side, st, listed, moments, |listed|);
    var w := RunSweep(desk, side, st, listed, moments, |listed|);
    assert listed[..|listed|] == listed;
    forall o | o in w.st.book ensures !InScope(desk, side, o) {
      RemainingCoversTheBook(desk, side, st, listed, moments, |listed|, o);
    }
  }

  /** A sweep that failed somewhere still only leaves orders whose own cancel failed. */
  lemma OnlyFailedCancelsRemain(desk: Desk, side: Option<Side>, st: State, listed: seq<Order>, moments: nat -> Moment, o: Order)
    requires !desk.cfg.dryRun && ScopeListed(desk, side, st.book, listed) && InScope(desk, side, o)
    requires o in RunSweep(desk, side, st, listed, moments, |listed|).st.book
    ensures exists i :: 0 <= i < |listed| && listed[i] == o && moments(i).cancelReply.CancelFailed?
  {
    hide InScope, SweepOne;
    RemainingCoversTheBook(desk, side, st, listed, moments, |listed|, o);
    assert listed[..|listed|] == listed;
    RemainingFailed(desk, side, st, listed, moments, |listed|, o);
  }

  lemma {:induction false} RemainingFailed(desk: Desk, side: Option<Side>, st: State, listed: seq<Order>, moments: nat -> Moment, k: nat, o: Order)
    requires k <= |listed| && !desk.cfg.dryRun && InScope(desk, side, o)
    requires o in RunSweep(desk, side, st, listed, moments, k).remaining
    ensures exists i :: 0 <= i < k && listed[i] == o && moments(i).cancelReply.CancelFailed?
  {
    hide SweepOne, InScope, Accounted;
    if k > 0 {
      var w := RunSweep(desk, side, st, listed, moments, k - 1);
      SweepOneAccounts(desk, side, w, listed[k - 1], moments(k - 1));
      if o in w.remaining {
        RemainingFailed(desk, side, st, listed, moments, k - 1, o);
      }
    }
  }

  // ----- what a sweep does not touch -----

  /** Of the swept side, or of either when none is named, and the bot's to cancel. */
  predicate Sweeps(desk: Desk, side: Option<Side>, o: Order) {
    (match side case Some(s) => o.side == s case None => true) && !Protected(desk.cfg, o.id)
  }

  lemma SweepOneAsks(desk: Desk, side: Option<Side>, w: Sweep, o: Order, m: Moment)
    ensures var after := SweepOne(desk, side, w, o, m);
            var off, asks := Without(w.st.book, m.departed), Sweeps(desk, side, o) && !desk.cfg.dryRun;
            && after.st.sent == w.st.sent + (if asks then [CancelSent(o.id, m.cancelReply)] else [])
            && after.st.book == (if asks && m.cancelReply != CancelFailed(false) then Without(off, {o.id}) else off)
            && after.st.failed == w.st.failed && after.st.changed == w.st.changed && after.st.placed == w.st.placed && after.st.budget == w.st.budget
            && (desk.cfg.dryRun ==> after.remaining == w.remaining + [o] && after.erred == w.erred && after.st.cancelled == w.st.cancelled)
            && (desk.cfg.dryRun && Sweeps(desk, side, o) ==> after.results == w.results + [Errored(o.id)])
  {
    hide Protected, Without;
    assert w.st.sent + [] == w.st.sent;
  }

  /** Request r is the cancel of a listed order of the swept side. */
  ghost predicate CancelsOneOf(desk: Desk, side: Option<Side>, listed: seq<Order>, moments: nat -> Moment, k: nat, r: Request)
    requires k <= |listed|
  {
    exists i: nat :: i < k && Sweeps(desk, side, listed[i]) && r == CancelSent(listed[i].id, moments(i).cancelReply)
  }

  /** A sweep asks only for listed orders of its side that are not protected, and outside that touches nothing: not
      the cancel budget, not what a Sync reports. */
  lemma {:induction false} SweepAsksOnlyInScope(desk: Desk, side: Option<Side>, st: State, listed: seq<Order>, moments: nat -> Moment, k: nat)
    returns (own: seq<Request>)
    requires k <= |listed|
    ensures var after := RunSweep(desk, side, st, listed, moments, k).st;
            && after.sent == st.sent + own && (desk.cfg.dryRun ==> own == [])
            && (forall r :: r in own ==> CancelsOneOf(desk, side, listed, moments, k, r))
            && after.failed == st.failed && after.changed == st.changed && after.placed == st.placed && after.budget == st.budget
  {
    hide SweepOne, Sweeps, CancelsOneOf;
    own := [];
    if k > 0 {
      var w := RunSweep(desk, side, st, listed, moments, k - 1);
      own := SweepAsksOnlyInScope(desk, side, st, listed, moments, k - 1);
      SweepOneAsks(desk, side, w, listed[k - 1], moments(k - 1));
      OneMoreCancel(desk, side, listed, moments, k);
      if Sweeps(desk, side, listed[k - 1]) && !desk.cfg.dryRun {
        var r := CancelSent(listed[k - 1].id, moments(k - 1).cancelReply);
        assert (st.sent + own) + [r] == st.sent + (own + [r]);
        own := own + [r];
      }
    }
  }

  lemma OneMoreCancel(desk: Desk, side: Option<Side>, listed: seq<Order>, moments: nat -> Moment, k: nat)
    requires 0 < k <= |listed|
    ensures forall r :: CancelsOneOf(desk, side, listed, moments, k - 1, r) ==> CancelsOneOf(desk, side, listed, moments, k, r)
    ensures Sweeps(desk, side, listed[k - 1]) ==>
              CancelsOneOf(desk, side, listed, moments, k, CancelSent(listed[k - 1].id, moments(k - 1).cancelReply))
  {
    hide Sweeps;
  }

  /** An order of the other side, or a protected one, stays through a sweep unless it leaves by itself. */
  lemma {:induction false} SweepSparesTheRest(desk: Desk, side: Option<Side>, st: State, listed: seq<Order>, moments: nat -> Moment, k: nat, x: Order)
    requires k <= |listed| && x in st.book && forall i: nat :: i < k ==> x.id !in moments(i).departed
    requires forall i: nat :: i < k && listed[i].id == x.id ==> listed[i] == x
    requires desk.cfg.dryRun || !Sweeps(desk, side, x)
    ensures x in RunSweep(desk, side, st, listed, moments, k).st.book
  {
    hide SweepOne, Sweeps;
    if k > 0 {
      SweepSparesTheRest(desk, side, st, listed, moments, k - 1, x);
      var w, o, m := RunSweep(desk, side, st, listed, moments, k - 1), listed[k - 1], moments(k - 1);
      SweepOneAsks(desk, side, w, o, m);
      WithoutAll(w.st.book, m.departed);
      WithoutAll(Without(w.st.book, m.departed), {o.id});
    }
  }

  /** A dry run leaves every listed order and says so: all of them remain, and each it would have cancelled is reported
      as not done. */
  lemma {:induction false} DrySweepReportsEverything(desk: Desk, side: Option<Side>, st: State, listed: seq<Order>, moments: nat -> Moment, k: nat)
    requires k <= |listed| && desk.cfg.dryRun
    ensures var w := RunSweep(desk, side, st, listed, moments, k);
            && w.remaining == listed[..k] && !w.erred && w.st.cancelled == st.cancelled
            && forall i :: 0 <= i < k && Sweeps(desk, side, listed[i]) ==> Errored(listed[i].id) in w.results
  {
    hide Sweeps, SweepOne;
    if k > 0 {
      DrySweepReportsEverything(desk, side, st, listed, moments, k - 1);
      SweepOneAsks(desk, side, RunSweep(desk, side, st, listed, moments, k - 1), listed[k - 1], moments(k - 1));
      assert listed[..k] == listed[..k - 1] + [listed[k - 1]];
      KeepsResults(desk, side, RunSweep(desk, side, st, listed, moments, k - 1), listed[k - 1], moments(k - 1));
    }
  }

  lemma KeepsResults(desk: Desk, side: Option<Side>, w: Sweep, o: Order, m: Moment)
    ensures forall x :: x in w.results ==> x in SweepOne(desk, side, w, o, m).results
  {
    hide Protected, Without;
  }
}
