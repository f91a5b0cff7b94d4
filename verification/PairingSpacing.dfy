/** The spacing a settled book needs is exactly the tolerance: on any tighter ladder some settled book
    does not pair back with the levels it was left for. */
module PairingSpacing {
  import opened Market
  import opened Pairing
  import opened PairingLaws
  import opened PairingFixpoint

  // ----- ratios -----

  /** The larger the divisor, the smaller the quotient. */
  lemma SmallerFactor(a: real, c: real, b: real, d: real, p: real)
    requires a * c == p && b * d == p && p > 0.0 && 0.0 < c && 0.0 < d
    ensures c < d <==> a > b
  {
    assert a > 0.0 && b > 0.0;
    if c < d && a <= b {
      StrictProduct(a, b, c, d);
    }
    if a > b && c >= d {
      StrictProduct(d, c, b, a);
    }
  }

  lemma StrictProduct(a: real, b: real, c: real, d: real)
    requires 0.0 < a <= b && 0.0 < c < d
    ensures a * c < b * d
  {
    assert a * c < a * d <= b * d;
  }

  /** Drift of a below p, as a fraction: p is 1 + x times a. */
  lemma DriftBelow(p: real, a: real) returns (x: real)
    requires 0.0 < a <= p
    ensures PriceDrift(a, p) == Bps(x * 10000.0) && x >= 0.0 && (1.0 + x) * a == p
  {
    x := (p - a) / a;
    assert x * a == p - a;
    assert x >= 0.0;
  }

  /** Drift of a above p: p is 1 - x times a. */
  lemma DriftAbove(p: real, a: real) returns (x: real)
    requires 0.0 < p <= a
    ensures PriceDrift(a, p) == Bps(x * 10000.0) && 0.0 <= x < 1.0 && (1.0 - x) * a == p
  {
    x := (a - p) / a;
    assert x * a == a - p;
    assert 0.0 <= x < 1.0;
    assert Abs(p - a) == a - p;
  }

  lemma DriftGrowsWithDepth(side: Side, p: real, q: real, r: real)
    requires p > 0.0 && q > 0.0 && r > 0.0
    requires Better(side, p, q) && Better(side, q, r)
    ensures Closer(PriceDrift(q, p), PriceDrift(r, p))
  {
    if side == Buy {
      var x := DriftBelow(p, q);
      var y := DriftBelow(p, r);
      SmallerFactor(1.0 + x, q, 1.0 + y, r, p);
    } else {
      var x := DriftAbove(p, q);
      var y := DriftAbove(p, r);
      SmallerFactor(1.0 - x, q, 1.0 - y, r, p);
    }
  }

  /** How far below a level its tolerance reaches. */
  lemma ReachBelow(p: real, tau: real) returns (edge: real)
    requires p > 0.0 && tau > 0.0
    ensures 0.0 < edge < p && edge == p / (1.0 + tau)
    ensures forall a :: 0.0 < a <= p ==> (Closer(PriceDrift(a, p), Bps(tau * 10000.0)) <==> edge < a)
  {
    edge := p / (1.0 + tau);
    assert edge * (1.0 + tau) == p;
    assert edge > 0.0;
    SmallerFactor(1.0, p, 1.0 + tau, edge, p);
    forall a | 0.0 < a <= p ensures Closer(PriceDrift(a, p), Bps(tau * 10000.0)) <==> edge < a {
      var x := DriftBelow(p, a);
      SmallerFactor(1.0 + tau, edge, 1.0 + x, a, p);
    }
  }

  /** How far above a level its tolerance reaches; without end once it is the whole price. */
  lemma ReachAbove(p: real, tau: real) returns (edge: Option<real>)
    requires p > 0.0 && tau > 0.0
    ensures tau < 1.0 ==> edge == Some(p / (1.0 - tau))
    ensures forall a :: p <= a ==>
              (Closer(PriceDrift(a, p), Bps(tau * 10000.0)) <==> (edge.Some? ==> a < edge.value))
  {
    edge := if tau >= 1.0 then None else Some(p / (1.0 - tau));
    forall a | p <= a ensures Closer(PriceDrift(a, p), Bps(tau * 10000.0)) <==> (edge.Some? ==> a < edge.value) {
      var x := DriftAbove(p, a);
      if tau < 1.0 {
        assert edge.value * (1.0 - tau) == p;
        assert edge.value > 0.0;
        SmallerFactor(1.0 - x, a, 1.0 - tau, edge.value, p);
      }
    }
  }

  /** A price just past q, still within tolerance of p and short of the next level. */
  lemma Wanderer(side: Side, p: real, q: real, next: Option<real>, tolerance: real) returns (a: real)
    requires p > 0.0 && q > 0.0 && Better(side, p, q) && Closer(PriceDrift(q, p), Bps(tolerance))
    requires next.Some? ==> next.value > 0.0 && Better(side, q, next.value)
    ensures a > 0.0 && Better(side, q, a) && (next.Some? ==> Better(side, a, next.value))
    ensures Closer(PriceDrift(a, p), Bps(tolerance)) && Closer(PriceDrift(q, p), PriceDrift(a, p))
  {
    hide PriceDrift;
    DriftIsZero(q, p);
    var tau := tolerance / 10000.0;
    if side == Buy {
      var edge := ReachBelow(p, tau);
      var low := if next.Some? then Max(edge, next.value) else edge;
      a := (low + q) / 2.0;
    } else {
      var edge := ReachAbove(p, tau);
      var far := if edge.Some? then edge.value else q + 1.0;
      var high := if next.Some? then Min(far, next.value) else far;
      a := (q + high) / 2.0;
    }
    DriftGrowsWithDepth(side, p, q, a);
  }

  // ----- a settled book that does not pair back -----

  function At(q: Quote, price: real): Order {
    Order("", q.side, price, q.size, false, None, 0, None)
  }

  /** Every level of targets[..n] quoted exactly. */
  function Quoted(targets: seq<Quote>, n: nat): (book: seq<Order>)
    requires n <= |targets|
    ensures |book| == n && forall i :: 0 <= i < n ==> book[i] == At(targets[i], targets[i].price)
  {
    if n == 0 then [] else Quoted(targets, n - 1) + [At(targets[n - 1], targets[n - 1].price)]
  }

  /** Orders quoting the best levels exactly are claimed by them. */
  lemma {:induction false} ExactLevelsClaimTheirOwn(side: Side, book: seq<Order>, targets: seq<Quote>, tolerance: real, n: nat)
    requires StrictLadder(side, targets) && tolerance > 0.0 && n <= |targets| && n <= |book|
    requires forall i :: 0 <= i < n ==> book[i].price == targets[i].price
    requires forall i, j :: 0 <= i < n && 0 <= j < |book| && i != j ==> book[j].price != targets[i].price
    requires forall j :: 0 <= j < |book| ==> book[j].price > 0.0
    ensures forall i :: 0 <= i < n ==> PassOne(book, targets, tolerance, n)[i] == i
  {
    if n > 0 {
      ExactLevelsClaimTheirOwn(side, book, targets, tolerance, n - 1);
      var before, target := PassOne(book, targets, tolerance, n - 1), targets[n - 1];
      DriftIsZero(book[n - 1].price, target.price);
      assert Candidate(book, target, before, Bps(tolerance), n - 1);
      forall j | Candidate(book, target, before, Bps(tolerance), j) && j != n - 1
        ensures Closer(DriftOf(book, n - 1, target), DriftOf(book, j, target))
      {
        DriftIsZero(book[j].price, target.price);
      }
      NearestPicks(book, target, before, Bps(tolerance), n - 1);
    }
  }

  /** Too close: an order at the next level down is within tolerance of level j. */
  ghost predicate Crowded(targets: seq<Quote>, tolerance: real, j: nat)
    requires j + 1 < |targets|
  {
    Closer(PriceDrift(targets[j + 1].price, targets[j].price), Bps(tolerance))
  }

  lemma SomeLevelIsCrowded(side: Side, targets: seq<Quote>, tolerance: real) returns (j: nat)
    requires StrictLadder(side, targets) && !Spaced(targets, tolerance)
    ensures j + 1 < |targets| && Crowded(targets, tolerance, j)
  {
    var i, k :| 0 <= i < k < |targets| && Closer(PriceDrift(targets[k].price, targets[i].price), Bps(tolerance));
    j := i;
    if i + 1 < k {
      DriftGrowsWithDepth(side, targets[i].price, targets[i + 1].price, targets[k].price);
    }
  }

  /** The price of an order that level j keeps although the level below it, once quoted, is nearer. */
  lemma Strayed(side: Side, targets: seq<Quote>, tolerance: real, j: nat) returns (a: real)
    requires StrictLadder(side, targets) && j + 1 < |targets| && Crowded(targets, tolerance, j)
    ensures a > 0.0 && Better(side, targets[j + 1].price, a) && (j + 2 < |targets| ==> Better(side, a, targets[j + 2].price))
    ensures Closer(PriceDrift(a, targets[j].price), Bps(tolerance))
    ensures Closer(PriceDrift(targets[j + 1].price, targets[j].price), PriceDrift(a, targets[j].price))
  {
    var next := if j + 2 < |targets| then Some(targets[j + 2].price) else None;
    a := Wanderer(side, targets[j].price, targets[j + 1].price, next, tolerance);
  }

  /** The levels above j quoted, and the stray order. */
  function Before(targets: seq<Quote>, j: nat, a: real): seq<Order>
    requires j < |targets|
  {
    Quoted(targets, j) + [At(targets[j], a)]
  }

  /** Every level but j quoted, and the stray order in its price place. */
  function After(targets: seq<Quote>, j: nat, a: real): seq<Order>
    requires j + 1 < |targets|
  {
    var all := Quoted(targets, |targets|);
    all[..j] + [all[j + 1], At(targets[j], a)] + all[j + 2..]
  }

  /** Which order is whose: levels j and j + 1 hold each other's rank. */
  function Holders(n: nat, j: nat): seq<nat> {
    seq(n, i => if i == j then j + 1 else if i == j + 1 then j else i)
  }

  lemma StrayIsKept(side: Side, targets: seq<Quote>, tolerance: real, j: nat, a: real)
    requires StrictLadder(side, targets) && tolerance > 0.0 && j + 1 < |targets|
    requires a > 0.0 && Better(side, targets[j + 1].price, a) && Closer(PriceDrift(a, targets[j].price), Bps(tolerance))
    ensures StrictlySorted(side, Before(targets, j, a))
    ensures PassOne(Before(targets, j, a), targets, tolerance, |targets|)[j] == j
  {
    var book := Before(targets, j, a);
    ExactLevelsClaimTheirOwn(side, book, targets, tolerance, j);
    var before := PassOne(book, targets, tolerance, j);
    assert Candidate(book, targets[j], before, Bps(tolerance), j);
    forall i | 0 <= i < j ensures i in before {
      assert before[i] == i;
    }
    NearestPicks(book, targets[j], before, Bps(tolerance), j);
    PassOnePrefix(book, targets, tolerance, j + 1, |targets|);
    assert PassOne(book, targets, tolerance, |targets|)[j] == PassOne(book, targets, tolerance, |targets|)[..j + 1][j];
  }

  lemma AfterIsSorted(side: Side, targets: seq<Quote>, j: nat, a: real)
    requires StrictLadder(side, targets) && j + 1 < |targets|
    requires Better(side, targets[j + 1].price, a) && (j + 2 < |targets| ==> Better(side, a, targets[j + 2].price))
    ensures StrictlySorted(side, After(targets, j, a))
  {
    var book := After(targets, j, a);
    forall i | 0 <= i < |book| && i != j && i != j + 1 ensures book[i].price == targets[i].price {
    }
    assert book[j].price == targets[j + 1].price && book[j + 1].price == a;
  }

  lemma AfterIsSettled(side: Side, targets: seq<Quote>, tolerance: real, j: nat, a: real)
    requires StrictLadder(side, targets) && tolerance > 0.0 && j + 1 < |targets|
    requires a > 0.0 && Better(side, targets[j + 1].price, a) && (j + 2 < |targets| ==> Better(side, a, targets[j + 2].price))
    requires Closer(PriceDrift(a, targets[j].price), Bps(tolerance))
    ensures StrictlySorted(side, After(targets, j, a))
    ensures LeftBy(Before(targets, j, a), targets, tolerance, After(targets, j, a), Holders(|targets|, j))
  {
    hide StrictLadder, StrictlySorted, PassOne, PriceDrift;
    StrayIsKept(side, targets, tolerance, j, a);
    AfterIsSorted(side, targets, j, a);
    var book, at := After(targets, j, a), Holders(|targets|, j);
    assert |book| == |targets|;
    forall i | 0 <= i < |book| ensures i in at {
      assert at[if i == j then j + 1 else if i == j + 1 then j else i] == i;
    }
    forall k | 0 <= k < |at| ensures KeptOrPlaced(Before(targets, j, a), targets, tolerance, book[at[k]], k) {
      if k == j {
        assert book[at[k]] == At(targets[j], a) == Before(targets, j, a)[j];
      } else {
        assert book[at[k]].price == targets[k].price;
      }
    }
  }

  lemma StrayIsLost(side: Side, targets: seq<Quote>, tolerance: real, j: nat, a: real)
    requires StrictLadder(side, targets) && tolerance > 0.0 && j + 1 < |targets| && Crowded(targets, tolerance, j)
    requires a > 0.0 && Better(side, targets[j + 1].price, a) && (j + 2 < |targets| ==> Better(side, a, targets[j + 2].price))
    requires Closer(PriceDrift(targets[j + 1].price, targets[j].price), PriceDrift(a, targets[j].price))
    requires StrictlySorted(side, After(targets, j, a))
    ensures 0 <= PassOne(After(targets, j, a), targets, tolerance, |targets|)[j] != j + 1
  {
    var book := After(targets, j, a);
    assert forall i :: 0 <= i < j ==> book[i].price == targets[i].price;
    ExactLevelsClaimTheirOwn(side, book, targets, tolerance, j);
    var before := PassOne(book, targets, tolerance, j);
    NearestIsFirstMinimum(book, targets[j], before, Bps(tolerance), |book|);
    forall i | 0 <= i < j ensures before[i] != j {
      assert before[i] == i;
    }
    assert Candidate(book, targets[j], before, Bps(tolerance), j);
    PassOnePrefix(book, targets, tolerance, j + 1, |targets|);
    assert PassOne(book, targets, tolerance, |targets|)[j] == PassOne(book, targets, tolerance, |targets|)[..j + 1][j];
  }

  /** Every settled book pairs back with its levels. */
  ghost predicate AlwaysPairsBack(side: Side, targets: seq<Quote>, tolerance: real) {
    forall earlier, book, at :: StrictlySorted(side, earlier) && StrictlySorted(side, book)
                                && LeftBy(earlier, targets, tolerance, book, at) ==>
                                Claims(book, targets, tolerance) == at
  }

  lemma CrowdedLadderLosesItsPlace(side: Side, targets: seq<Quote>, tolerance: real)
    requires tolerance > 0.0 && StrictLadder(side, targets) && !Spaced(targets, tolerance)
    ensures !AlwaysPairsBack(side, targets, tolerance)
  {
    hide LeftBy, PassOne;
    var j := SomeLevelIsCrowded(side, targets, tolerance);
    var a := Strayed(side, targets, tolerance, j);
    AfterIsSettled(side, targets, tolerance, j, a);
    StrayIsKept(side, targets, tolerance, j, a);
    StrayIsLost(side, targets, tolerance, j, a);
    var book, at := After(targets, j, a), Holders(|targets|, j);
    SecondPassPairsAreFar(book, targets, tolerance, j);
    assert at[j] == j + 1;
  }

  /** Re-pairing is a fixed point on every settled book exactly when no level's exact price is within
      the tolerance of a better level. */
  lemma PairsBackIffSpaced(side: Side, targets: seq<Quote>, tolerance: real)
    requires tolerance > 0.0 && StrictLadder(side, targets)
    ensures AlwaysPairsBack(side, targets, tolerance) <==> Spaced(targets, tolerance)
  {
    if Spaced(targets, tolerance) {
      forall earlier, book, at | StrictlySorted(side, earlier) && StrictlySorted(side, book)
                                 && LeftBy(earlier, targets, tolerance, book, at)
        ensures Claims(book, targets, tolerance) == at
      {
        RepairingIsFixed(side, earlier, targets, tolerance, book, at);
      }
    } else {
      CrowdedLadderLosesItsPlace(side, targets, tolerance);
    }
  }
}
