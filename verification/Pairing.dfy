/** Pairing resting orders with target levels by price (pairByPrice in sync.go).

    The matcher runs two greedy passes over mutable claim arrays. `Claims` is the same matching as
    a function; the method is proved to compute it and the lemmas are about it. */
module Pairing {
  import opened Market

  /** How far a resting price is from a target, in basis points of the resting price. */
  datatype Drift = Bps(value: real) | Infinite

  predicate Closer(a: Drift, b: Drift) {
    match (a, b)
    case (Bps(x), Bps(y)) => x < y
    case (Bps(_), Infinite) => true
    case (Infinite, _) => false
  }

  function PriceDrift(current: real, target: real): Drift {
    if current <= 0.0 || target <= 0.0 then Infinite
    else Bps(Abs(target - current) / current * 10000.0)
  }

  /** One resting order, one target level, or both; indices into the two ladders. */
  datatype Slot = Slot(order: Option<nat>, target: Option<nat>, level: int)

  // ----- the matching as a function -----

  function DriftOf(existing: seq<Order>, j: int, target: Quote): Drift {
    if 0 <= j < |existing| then PriceDrift(existing[j].price, target.price) else Infinite
  }

  /** The first of the nearest unclaimed orders among existing[..n], or -1. */
  function Nearest(existing: seq<Order>, target: Quote, claimed: seq<int>, within: Drift, n: nat): (best: int)
    requires n <= |existing|
    ensures -1 <= best < n
  {
    if n == 0 then -1
    else
      var best := Nearest(existing, target, claimed, within, n - 1);
      var drift := DriftOf(existing, n - 1, target);
      if n - 1 !in claimed && Closer(drift, DriftOf(existing, best, target)) && Closer(drift, within)
      then n - 1 else best
  }

  /** Claims of the first k targets after the pass that respects the tolerance. */
  function PassOne(existing: seq<Order>, targets: seq<Quote>, tolerance: real, k: nat): (c: seq<int>)
    requires k <= |targets|
    ensures |c| == k
    ensures forall i :: 0 <= i < k ==> -1 <= c[i] < |existing|
  {
    if k == 0 then []
    else
      var c := PassOne(existing, targets, tolerance, k - 1);
      c + [Nearest(existing, targets[k - 1], c, Bps(tolerance), |existing|)]
  }

  /** Claims once the first k targets have had their second chance, at any distance. */
  function PassTwo(existing: seq<Order>, targets: seq<Quote>, first: seq<int>, k: nat): (c: seq<int>)
    requires |first| == |targets| && k <= |targets|
    requires forall i :: 0 <= i < |first| ==> -1 <= first[i] < |existing|
    ensures |c| == |targets|
    ensures forall i :: 0 <= i < |c| ==> -1 <= c[i] < |existing|
  {
    if k == 0 then first
    else
      var c := PassTwo(existing, targets, first, k - 1);
      if c[k - 1] < 0 then c[k - 1 := Nearest(existing, targets[k - 1], c, Infinite, |existing|)] else c
  }

  /** The order each target ends up with, -1 for none. */
  function Claims(existing: seq<Order>, targets: seq<Quote>, tolerance: real): (c: seq<int>)
    ensures |c| == |targets|
    ensures forall i :: 0 <= i < |c| ==> -1 <= c[i] < |existing|
  {
    PassTwo(existing, targets, PassOne(existing, targets, tolerance, |targets|), |targets|)
  }

  /** The orders of existing[..n] no target claimed, each a slot of its own. */
  function Unclaimed(claims: seq<int>, n: nat): seq<Slot> {
    if n == 0 then []
    else Unclaimed(claims, n - 1) + if n - 1 in claims then [] else [Slot(Some(n - 1), None, -1)]
  }

  function Index(i: int): Option<nat> {
    if i < 0 then None else Some(i)
  }

  function RankSlots(orders: nat, targets: nat): seq<Slot> {
    seq(if targets > orders then targets else orders,
        i => Slot(if 0 <= i < orders then Some(i) else None, if 0 <= i < targets then Some(i) else None, i))
  }

  function TargetSlots(claims: seq<int>): (s: seq<Slot>)
    ensures |s| == |claims|
  {
    seq(|claims|, k requires 0 <= k < |claims| => Slot(Index(claims[k]), Some(k), k))
  }

  function Slots(existing: seq<Order>, targets: seq<Quote>, tolerance: real): seq<Slot> {
    if tolerance <= 0.0 then RankSlots(|existing|, |targets|)
    else
      var claims := Claims(existing, targets, tolerance);
      TargetSlots(claims) + Unclaimed(claims, |existing|)
  }

  // ----- the matcher -----

  method NearestOrder(existing: seq<Order>, target: Quote, matched: array<bool>, ghost claimed: seq<int>, within: Drift)
    returns (best: int)
    requires matched.Length == |existing|
    requires forall j :: 0 <= j < |existing| ==> (matched[j] <==> j in claimed)
    ensures best == Nearest(existing, target, claimed, within, |existing|)
  {
    best := -1;
    var bestDrift := Infinite;
    for j := 0 to |existing|
      invariant best == Nearest(existing, target, claimed, within, j)
      invariant bestDrift == DriftOf(existing, best, target)
    {
      if matched[j] {
        continue;
      }
      var drift := PriceDrift(existing[j].price, target.price);
      if Closer(drift, bestDrift) && Closer(drift, within) {
        best, bestDrift := j, drift;
      }
    }
  }

  /** Rank pairing, kept for configurations that ask for tolerance 0. */
  method PairByRank(existing: seq<Order>, targets: seq<Quote>) returns (slots: seq<Slot>)
    ensures slots == RankSlots(|existing|, |targets|)
  {
    slots := [];
    var n := if |targets| > |existing| then |targets| else |existing|;
    for i := 0 to n
      invariant slots == RankSlots(|existing|, |targets|)[..i]
    {
      slots := slots + [Slot(if i < |existing| then Some(i) else None, if i < |targets| then Some(i) else None, i)];
    }
  }

  /** `matched` is the set of orders the claims hold. */
  ghost predicate Marks(matched: seq<bool>, claims: seq<int>) {
    forall j :: 0 <= j < |matched| ==> (matched[j] <==> j in claims)
  }

  method FirstPass(existing: seq<Order>, targets: seq<Quote>, tolerance: real, matched: array<bool>, claimed: array<int>)
    requires matched.Length == |existing| && claimed.Length == |targets|
    requires Marks(matched[..], [])
    modifies matched, claimed
    ensures claimed[..] == PassOne(existing, targets, tolerance, |targets|)
    ensures Marks(matched[..], claimed[..])
  {
    for k := 0 to |targets|
      invariant claimed[..k] == PassOne(existing, targets, tolerance, k)
      invariant Marks(matched[..], claimed[..k])
    {
      ghost var c := claimed[..k];
      var best := NearestOrder(existing, targets[k], matched, c, Bps(tolerance));
      claimed[k] := best;
      assert claimed[..k + 1] == c + [best];
      if best >= 0 {
        matched[best] := true;
      }
    }
    assert claimed[..] == claimed[..|targets|];
  }

  lemma MarksUpdate(before: seq<bool>, after: seq<bool>, c: seq<int>, k: nat, best: int)
    requires k < |c| && c[k] < 0 && |before| == |after| && -1 <= best < |before|
    requires Marks(before, c)
    requires after == if best >= 0 then before[best := true] else before
    ensures Marks(after, c[k := best])
  {
    var d := c[k := best];
    forall j | 0 <= j < |after| ensures after[j] <==> j in d {
      if j in c {
        var i :| 0 <= i < |c| && c[i] == j;
        assert d[i] == j;
      }
      assert d[k] == best;
    }
  }

  method SecondPass(existing: seq<Order>, targets: seq<Quote>, matched: array<bool>, claimed: array<int>)
    requires matched.Length == |existing| && claimed.Length == |targets|
    requires forall i :: 0 <= i < claimed.Length ==> -1 <= claimed[i] < |existing|
    requires Marks(matched[..], claimed[..])
    modifies matched, claimed
    ensures claimed[..] == PassTwo(existing, targets, old(claimed[..]), |targets|)
    ensures Marks(matched[..], claimed[..])
  {
    hide Nearest;
    ghost var first := claimed[..];
    for k := 0 to |targets|
      invariant claimed[..] == PassTwo(existing, targets, first, k)
      invariant Marks(matched[..], claimed[..])
    {
      if claimed[k] < 0 {
        ghost var c, before := claimed[..], matched[..];
        var best := NearestOrder(existing, targets[k], matched, c, Infinite);
        claimed[k] := best;
        if best >= 0 {
          matched[best] := true;
        }
        MarksUpdate(before, matched[..], c, k, best);
        assert claimed[..] == c[k := best];
      }
    }
  }

  method PairByPrice(existing: seq<Order>, targets: seq<Quote>, tolerance: real) returns (slots: seq<Slot>)
    ensures slots == Slots(existing, targets, tolerance)
  {
    if tolerance <= 0.0 {
      slots := PairByRank(existing, targets);
      return;
    }
    var matched := new bool[|existing|](_ => false);
    var claimed := new int[|targets|](_ => -1);
    FirstPass(existing, targets, tolerance, matched, claimed);
    SecondPass(existing, targets, matched, claimed);
    ghost var claims := claimed[..];
    slots := [];
    for k := 0 to |targets|
      invariant slots == TargetSlots(claims)[..k]
    {
      slots := slots + [Slot(if claimed[k] >= 0 then Some(claimed[k]) else None, Some(k), k)];
    }
    assert slots == TargetSlots(claims);
    for j := 0 to |existing|
      invariant slots == TargetSlots(claims) + Unclaimed(claims, j)
    {
      assert matched[..][j] <==> j in claims;
      if !matched[j] {
        slots := slots + [Slot(Some(j), None, -1)];
      }
    }
  }
}
