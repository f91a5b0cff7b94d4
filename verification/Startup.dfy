/** Startup reconciliation (ReconcileStartup and its rules in reconcile.go): adopting at most one order a
    side and cancelling the rest. */
module Startup {
  import opened Market
  import opened Pairing
  import opened Decision
  import opened Reconcile

  datatype Rejection =
    | RiskHalt
    | AmbiguousOwnership
    | MalformedMetadata
    | WrongMarket
    | Stale(terms: Reason)
    | DuplicateSide
    | NotQuotingSide
    | TooFar
    | WrongSize

  /** What startup judges orders by: the syncer's own configuration, the ids the venue says are ours, the
      names the market answers to, and the clock. */
  datatype Env = Env(desk: Desk, managed: set<string>, names: seq<string>, now: int)

  // ----- whose order it is -----

  function Split(s: string, sep: char): (parts: seq<string>)
    ensures parts != []
    decreases |s|
  {
    if s == "" then [""]
    else
      var rest := Split(s[1..], sep);
      if s[0] == sep then [""] + rest else [[s[0]] + rest[0]] + rest[1..]
  }

  function SideTag(side: Side): string {
    match side
    case Buy => "buy"
    case Sell => "sell"
  }

  predicate Tagged(env: Env, id: string) {
    exists i :: 0 <= i < |env.names| && "mm:" + env.names[i] + ":" <= id
  }

  function RejectReason(env: Env, o: Order): Option<Rejection> {
    var parts := Split(o.id, ':');
    if o.id !in env.managed then Some(AmbiguousOwnership)
    else if !Tagged(env, o.id) || |parts| != 4 then Some(MalformedMetadata)
    else if parts[1] !in env.names then Some(WrongMarket)
    else if parts[2] != SideTag(o.side) then Some(MalformedMetadata)
    else
      var stale := StaleTerms(env.desk.cfg, o, Required(env.desk, o.price), env.now);
      if stale.Some? then Some(Stale(stale.value)) else None
  }

  function MismatchReason(env: Env, o: Order, target: Option<Quote>): Option<Rejection> {
    if target.None? then Some(NotQuotingSide)
    else if !Closer(PriceDrift(o.price, target.value.price), Bps(env.desk.cfg.staleBPS)) then Some(TooFar)
    else if SizeMismatched(o.size, target.value.size, env.desk.cfg, env.desk.quantum) then Some(WrongSize)
    else None
  }

  // ----- what startup decides -----

  function Candidates(env: Env, orders: seq<Order>, side: Side): seq<Order> {
    if orders == [] then []
    else
      var last := orders[|orders| - 1];
      Candidates(env, orders[..|orders| - 1], side) + if last.side == side && RejectReason(env, last).None? then [last] else []
  }

  /** The one order of a side that may stay: the only acceptable one, at its target. */
  function Adopted(env: Env, orders: seq<Order>, side: Side, target: Option<Quote>): Option<Order> {
    var c := Candidates(env, orders, side);
    if |c| == 1 && MismatchReason(env, c[0], target).None? then Some(c[0]) else None
  }

  /** The best quote of each side. */
  datatype Bests = Bests(bid: Option<Quote>, ask: Option<Quote>)

  function TargetFor(bests: Bests, side: Side): Option<Quote> {
    match side
    case Buy => bests.bid
    case Sell => bests.ask
  }

  /** The adopted order of this order's side has its id. */
  predicate HoldsTheSlot(env: Env, orders: seq<Order>, bests: Bests, o: Order) {
    var adopted := Adopted(env, orders, o.side, TargetFor(bests, o.side));
    adopted.Some? && adopted.value.id == o.id
  }

  function IDsOf(orders: seq<Order>): set<string> {
    set o | o in orders :: o.id
  }

  function RejectedOutright(env: Env, orders: seq<Order>): set<string> {
    set o | o in orders && RejectReason(env, o).Some? :: o.id
  }

  function RejectedOn(env: Env, orders: seq<Order>, bests: Bests, side: Side): set<string> {
    if Adopted(env, orders, side, TargetFor(bests, side)).Some? then {} else IDsOf(Candidates(env, orders, side))
  }

  function Rejected(env: Env, orders: seq<Order>, bests: Bests): set<string> {
    RejectedOutright(env, orders) + RejectedOn(env, orders, bests, Buy) + RejectedOn(env, orders, bests, Sell)
  }

  /** What startup asks to cancel: under a risk halt everything, otherwise everything rejected that is not
      the adopted order of its side. */
  function CancelSet(env: Env, orders: seq<Order>, bests: Bests, halted: bool): set<string> {
    if halted then IDsOf(orders)
    else set o | o in orders && !HoldsTheSlot(env, orders, bests, o) && o.id in Rejected(env, orders, bests) :: o.id
  }

  datatype Startup = Startup(bid: Option<Order>, ask: Option<Order>, cancelled: set<string>)

  // ----- the reconciliation -----

  /** Cancels one by one; the first error ends startup. `obeys` says which cancels the venue accepts. */
  method CancelStartupOrders(env: Env, ids: set<string>, obeys: string -> bool) returns (cancelled: set<string>, ghost asked: seq<string>, ok: bool)
    ensures cancelled <= ids
    ensures ok ==> cancelled == set id | id in ids && !Protected(env.desk.cfg, id)
    ensures forall id :: id in cancelled ==> !Protected(env.desk.cfg, id) && (env.desk.cfg.dryRun || obeys(id))
    ensures !ok ==> !env.desk.cfg.dryRun && exists id :: id in ids && !Protected(env.desk.cfg, id) && !obeys(id)
    ensures forall i :: 0 <= i < |asked| ==> asked[i] in ids && !Protected(env.desk.cfg, asked[i])
    ensures env.desk.cfg.dryRun ==> asked == []
  {
    hide Protected;
    var left := ids;
    cancelled, asked := {}, [];
    while left != {}
      invariant left <= ids
      invariant cancelled == set id | id in ids - left && !Protected(env.desk.cfg, id)
      invariant forall id :: id in cancelled ==> env.desk.cfg.dryRun || obeys(id)
      invariant forall i :: 0 <= i < |asked| ==> asked[i] in ids && !Protected(env.desk.cfg, asked[i])
      invariant env.desk.cfg.dryRun ==> asked == []
      decreases |left|
    {
      var id :| id in left;
      left := left - {id};
      if Protected(env.desk.cfg, id) {
        continue;
      }
      if !env.desk.cfg.dryRun {
        asked := asked + [id];
        if !obeys(id) {
          ok := false;
          return;
        }
      }
      cancelled := cancelled + {id};
    }
    ok := true;
  }

  lemma RejectedPrefix(env: Env, orders: seq<Order>, i: nat)
    requires i < |orders|
    ensures RejectedOutright(env, orders[..i + 1]) ==
            RejectedOutright(env, orders[..i]) + if RejectReason(env, orders[i]).Some? then {orders[i].id} else {}
  {
    hide RejectReason;
    assert orders[..i + 1] == orders[..i] + [orders[i]];
  }

  method Classify(env: Env, orders: seq<Order>) returns (bids: seq<Order>, asks: seq<Order>, rejected: map<string, Rejection>)
    ensures bids == Candidates(env, orders, Buy) && asks == Candidates(env, orders, Sell)
    ensures rejected.Keys == RejectedOutright(env, orders)
  {
    hide RejectReason, RejectedOutright;
    bids, asks, rejected := [], [], map[];
    NothingRejected(env);
    for i := 0 to |orders|
      invariant bids == Candidates(env, orders[..i], Buy) && asks == Candidates(env, orders[..i], Sell)
      invariant rejected.Keys == RejectedOutright(env, orders[..i])
    {
      assert orders[..i + 1][..i] == orders[..i];
      RejectedPrefix(env, orders, i);
      var o := orders[i];
      var reason := RejectReason(env, o);
      if reason.Some? {
        rejected := rejected[o.id := reason.value];
      } else if o.side == Buy {
        bids := bids + [o];
      } else {
        asks := asks + [o];
      }
    }
    assert orders[..|orders|] == orders;
  }

  lemma NothingRejected(env: Env)
    ensures RejectedOutright(env, []) == {}
  {
  }

  /** One side: adopt its only candidate when it matches the target, else reject them all. */
  method AdoptSide(env: Env, candidates: seq<Order>, target: Option<Quote>, rejected: map<string, Rejection>)
    returns (adopted: Option<Order>, out: map<string, Rejection>)
    ensures adopted == if |candidates| == 1 && MismatchReason(env, candidates[0], target).None? then Some(candidates[0]) else None
    ensures out.Keys == rejected.Keys + if adopted.Some? then {} else IDsOf(candidates)
  {
    adopted, out := None, rejected;
    if |candidates| == 0 {
      return;
    }
    if |candidates| > 1 {
      for i := 0 to |candidates|
        invariant out.Keys == rejected.Keys + set o | o in candidates[..i] :: o.id
      {
        assert candidates[..i + 1] == candidates[..i] + [candidates[i]];
        out := out[candidates[i].id := DuplicateSide];
      }
      assert candidates[..|candidates|] == candidates;
      return;
    }
    var reason := MismatchReason(env, candidates[0], target);
    if reason.Some? {
      out := out[candidates[0].id := reason.value];
    } else {
      adopted := Some(candidates[0]);
    }
  }

  method Chosen(env: Env, orders: seq<Order>, adoptedBid: Option<Order>, adoptedAsk: Option<Order>, rejected: map<string, Rejection>)
    returns (cancels: set<string>)
    ensures cancels == set o | o in orders && o.id in rejected
                                && !(var a := if o.side == Buy then adoptedBid else adoptedAsk; a.Some? && a.value.id == o.id) :: o.id
  {
    cancels := {};
    for i := 0 to |orders|
      invariant cancels == set o | o in orders[..i] && o.id in rejected
                                    && !(var a := if o.side == Buy then adoptedBid else adoptedAsk; a.Some? && a.value.id == o.id) :: o.id
    {
      assert orders[..i + 1] == orders[..i] + [orders[i]];
      var o := orders[i];
      var adopted := if o.side == Buy then adoptedBid else adoptedAsk;
      if adopted.Some? && adopted.value.id == o.id {
        continue;
      }
      if o.id in rejected {
        cancels := cancels + {o.id};
      }
    }
    assert orders[..|orders|] == orders;
  }

  method ReconcileStartup(env: Env, orders: seq<Order>, bests: Bests, halted: bool, obeys: string -> bool)
    returns (result: Startup, ghost asked: seq<string>, ok: bool)
    ensures result.bid == if halted then None else Adopted(env, orders, Buy, bests.bid)
    ensures result.ask == if halted then None else Adopted(env, orders, Sell, bests.ask)
    ensures result.cancelled <= CancelSet(env, orders, bests, halted)
    ensures ok ==> result.cancelled == set id | id in CancelSet(env, orders, bests, halted) && !Protected(env.desk.cfg, id)
    ensures forall id :: id in result.cancelled ==> env.desk.cfg.dryRun || obeys(id)
    ensures forall i :: 0 <= i < |asked| ==> asked[i] in CancelSet(env, orders, bests, halted) && !Protected(env.desk.cfg, asked[i])
    ensures env.desk.cfg.dryRun ==> ok && asked == []
  {
    hide RejectReason, MismatchReason, Candidates, Protected, RejectedOutright, IDsOf;
    var cancelled;
    if halted {
      cancelled, asked, ok := CancelStartupOrders(env, IDsOf(orders), obeys);
      return Startup(None, None, cancelled), asked, ok;
    }
    var bids, asks, rejected := Classify(env, orders);
    var bid, ask;
    bid, rejected := AdoptSide(env, bids, bests.bid, rejected);
    ask, rejected := AdoptSide(env, asks, bests.ask, rejected);
    var cancels := Chosen(env, orders, bid, ask, rejected);
    assert rejected.Keys == Rejected(env, orders, bests);
    assert cancels == CancelSet(env, orders, bests, false);
    cancelled, asked, ok := CancelStartupOrders(env, cancels, obeys);
    result := Startup(bid, ask, cancelled);
  }

  // ----- what it comes to -----

  lemma {:induction false} CandidatesAre(env: Env, orders: seq<Order>, side: Side, o: Order)
    ensures o in Candidates(env, orders, side) <==> o in orders && o.side == side && RejectReason(env, o).None?
  {
    hide RejectReason;
    if orders != [] {
      CandidatesAre(env, orders[..|orders| - 1], side, o);
      assert orders == orders[..|orders| - 1] + [orders[|orders| - 1]];
    }
  }

  predicate IsAdopted(env: Env, orders: seq<Order>, bests: Bests, halted: bool, o: Order) {
    !halted && Adopted(env, orders, o.side, TargetFor(bests, o.side)) == Some(o)
  }

  lemma SameIDSameOrder(orders: seq<Order>, a: Order, b: Order)
    requires DistinctIDs(orders) && a in orders && b in orders && a.id == b.id
    ensures a == b
  {
  }

  /** An order is in the cancel set exactly when it was not adopted. */
  lemma CancelledOrAdopted(env: Env, orders: seq<Order>, bests: Bests, halted: bool, o: Order)
    requires DistinctIDs(orders) && o in orders
    ensures o.id in CancelSet(env, orders, bests, halted) <==> !IsAdopted(env, orders, bests, halted, o)
  {
    hide RejectReason, MismatchReason, Candidates;
    if !halted {
      CandidatesAre(env, orders, o.side, o);
      var adopted := Adopted(env, orders, o.side, TargetFor(bests, o.side));
      if adopted.Some? {
        CandidatesAre(env, orders, o.side, adopted.value);
        assert adopted.value in Candidates(env, orders, o.side);
      }
      if !IsAdopted(env, orders, bests, false, o) {
        NotAdoptedIsCancelled(env, orders, bests, o);
      }
      if o.id in CancelSet(env, orders, bests, halted) {
        var x :| x in orders && !HoldsTheSlot(env, orders, bests, x) && x.id in Rejected(env, orders, bests) && x.id == o.id;
        SameIDSameOrder(orders, x, o);
      }
    }
  }

  lemma NotAdoptedIsCancelled(env: Env, orders: seq<Order>, bests: Bests, o: Order)
    requires DistinctIDs(orders) && o in orders && !IsAdopted(env, orders, bests, false, o)
    ensures o.id in CancelSet(env, orders, bests, false)
  {
    hide RejectReason, MismatchReason, Candidates;
    CandidatesAre(env, orders, o.side, o);
    var c := Candidates(env, orders, o.side);
    var adopted := Adopted(env, orders, o.side, TargetFor(bests, o.side));
    if adopted.Some? {
      CandidatesAre(env, orders, o.side, adopted.value);
      assert adopted.value in c;
      if adopted.value.id == o.id {
        SameIDSameOrder(orders, adopted.value, o);
      }
    }
    assert o.id in Rejected(env, orders, bests);
  }

  /** On success every order startup found is exactly one of adopted, cancelled, or left alone because it
      is protected. */
  lemma EveryOrderIsSettled(env: Env, orders: seq<Order>, bests: Bests, halted: bool, o: Order)
    requires DistinctIDs(orders) && o in orders
    ensures var cancelled := set id | id in CancelSet(env, orders, bests, halted) && !Protected(env.desk.cfg, id);
            var adopted := IsAdopted(env, orders, bests, halted, o);
            && (o.id in cancelled <==> !adopted && !Protected(env.desk.cfg, o.id))
            && (adopted || o.id in cancelled || Protected(env.desk.cfg, o.id))
            && !(adopted && o.id in cancelled)
  {
    hide CancelSet, IsAdopted, Protected;
    CancelledOrAdopted(env, orders, bests, halted, o);
  }

  /** At most one order a side is adopted; it was listed, is the side's only acceptable order and sits at
      the target. */
  lemma AdoptedIsTheOnlyOne(env: Env, orders: seq<Order>, bests: Bests, a: Order, b: Order)
    requires IsAdopted(env, orders, bests, false, a)
    ensures a in orders && RejectReason(env, a).None? && MismatchReason(env, a, TargetFor(bests, a.side)).None?
    ensures b in orders && b.side == a.side && RejectReason(env, b).None? ==> b == a
  {
    hide RejectReason, MismatchReason;
    CandidatesAre(env, orders, a.side, a);
    CandidatesAre(env, orders, a.side, b);
  }

  /** An adopted order that is not expiring and faces uncrossed targets is left alone by the steady-state
      rule against the same target, at any later time: startup and the syncer agree on what is fine. */
  lemma AdoptedIsLeftAlone(env: Env, orders: seq<Order>, bests: Bests, o: Order, opposite: Option<Quote>, fallback: Option<int>, later: int)
    requires IsAdopted(env, orders, bests, false, o) && env.now <= later
    requires !ExpiringWithin(o, env.desk.cfg.expiryMargin, later) || Protected(env.desk.cfg, o.id)
    requires TargetFor(bests, o.side).Some? ==> TargetFor(bests, o.side).value.side == o.side && !Crosses(o.side, TargetFor(bests, o.side).value, opposite)
    ensures VerdictOn(env.desk, o, TargetFor(bests, o.side), opposite, fallback, later).Keep?
  {
    hide Protected, Required, Candidates, SizeMismatched;
    AdoptedIsTheOnlyOne(env, orders, bests, o, o);
  }
}
