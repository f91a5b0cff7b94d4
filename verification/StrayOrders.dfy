/** An order kept for one level and wanted by none once the level below it is quoted: what a ladder tighter
    than the tolerance leaves room for. */
module StrayOrders {
  import opened Market
  import opened Pairing
  import opened PairingLaws
  import opened PairingFixpoint
  import opened PairingSpacing

  // ----- where such an order can be -----

  /** Within tolerance of p but farther from it than q is, and outside the tolerance of q. */
  ghost predicate Between(p: real, q: real, tolerance: real, a: real) {
    && a > 0.0 && Closer(PriceDrift(a, p), Bps(tolerance)) && !Closer(PriceDrift(a, q), Bps(tolerance))
    && Closer(PriceDrift(q, p), PriceDrift(a, p))
  }

  lemma ReachGrowsAbove(p: real, q: real, x: real, y: real)
    requires 0.0 < q < p && 0.0 <= x < y < 1.0
    ensures p / (1.0 - x) < p / (1.0 - y) && q / (1.0 - y) < p / (1.0 - y) && p / (1.0 - x) >= p
  {
    var near, far, low := p / (1.0 - x), p / (1.0 - y), q / (1.0 - y);
    assert near * (1.0 - x) == p && far * (1.0 - y) == p && low * (1.0 - y) == q;
    SmallerFactor(far, 1.0 - y, near, 1.0 - x, p);
  }

  lemma ReachGrowsBelow(p: real, q: real, x: real, y: real)
    requires 0.0 < p < q && 0.0 <= x < y
    ensures 0.0 < p / (1.0 + y) < p / (1.0 + x) && p / (1.0 + y) < q / (1.0 + y) && p / (1.0 + x) <= p
  {
    var near, far, high := p / (1.0 + x), p / (1.0 + y), q / (1.0 + y);
    assert near * (1.0 + x) == p && far * (1.0 + y) == p && high * (1.0 + y) == q;
    assert far > 0.0;
    SmallerFactor(near, 1.0 + x, far, 1.0 + y, p);
  }

  lemma FartherAbove(p: real, a: real, x: real)
    requires 0.0 < p && 0.0 <= x < 1.0 && p / (1.0 - x) < a && p <= a
    ensures Closer(Bps(x * 10000.0), PriceDrift(a, p))
  {
    var y := DriftAbove(p, a);
    assert p / (1.0 - x) * (1.0 - x) == p;
    SmallerFactor(a, 1.0 - y, p / (1.0 - x), 1.0 - x, p);
  }

  lemma FartherBelow(p: real, a: real, x: real)
    requires 0.0 < a <= p && 0.0 <= x && a < p / (1.0 + x)
    ensures Closer(Bps(x * 10000.0), PriceDrift(a, p))
  {
    var y := DriftBelow(p, a);
    assert p / (1.0 + x) * (1.0 + x) == p;
    SmallerFactor(p / (1.0 + x), 1.0 + x, a, 1.0 + y, p);
  }

  /** For a level with another inside its tolerance such prices fill an interval on the better side. */
  lemma StrayRange(side: Side, p: real, q: real, tolerance: real) returns (low: real, high: real)
    requires p > 0.0 && q > 0.0 && Better(side, p, q) && Closer(PriceDrift(q, p), Bps(tolerance)) && tolerance < 10000.0
    ensures low < high
    ensures forall a :: low < a < high ==> Between(p, q, tolerance, a) && Better(side, a, p)
  {
    hide PriceDrift;
    var tau := tolerance / 10000.0;
    if side == Buy {
      var x := DriftBelow(p, q);
      ReachGrowsAbove(p, q, x, tau);
      low, high := Max(p / (1.0 - x), q / (1.0 - tau)), p / (1.0 - tau);
      var own := ReachAbove(p, tau);
      var other := ReachAbove(q, tau);
      forall a | low < a < high ensures Between(p, q, tolerance, a) && Better(side, a, p) {
        FartherAbove(p, a, x);
      }
    } else {
      var x := DriftAbove(p, q);
      ReachGrowsBelow(p, q, x, tau);
      low, high := p / (1.0 + tau), Min(p / (1.0 + x), q / (1.0 + tau));
      var own := ReachBelow(p, tau);
      var other := ReachBelow(q, tau);
      forall a | low < a < high ensures Between(p, q, tolerance, a) && Better(side, a, p) {
        FartherBelow(p, a, x);
      }
    }
  }

  /** Part of an interval that none of the quotes is in. */
  lemma {:induction false} Narrow(low: real, high: real, quotes: seq<Quote>) returns (l: real, h: real)
    requires low < high
    ensures low <= l < h <= high && forall i :: 0 <= i < |quotes| ==> !(l < quotes[i].price < h)
  {
    l, h := low, high;
    if quotes != [] {
      l, h := Narrow(low, high, quotes[..|quotes| - 1]);
      var x := quotes[|quotes| - 1].price;
      if l < x < h {
        l := x;
      }
    }
  }

  /** A price at which an order is level j's own, until the level below is quoted; then no level's. */
  ghost predicate Stray(side: Side, targets: seq<Quote>, tolerance: real, j: nat, a: real)
    requires j < |targets|
  {
    && a > 0.0 && (forall i :: 0 <= i < |targets| ==> targets[i].price != a)
    && Closer(PriceDrift(a, targets[j].price), Bps(tolerance))
    && (forall k :: j < k < |targets| ==> !Closer(PriceDrift(a, targets[k].price), Bps(tolerance)))
    && exists k :: j < k < |targets| && Closer(PriceDrift(targets[k].price, targets[j].price), PriceDrift(a, targets[j].price))
  }

  lemma Quotients(x: real, y: real, a: real)
    requires a > 0.0 && x <= y
    ensures x / a * 10000.0 <= y / a * 10000.0
  {
  }

  /** A target further off is no nearer. */
  lemma FurtherOff(side: Side, a: real, q: real, r: real)
    requires a > 0.0 && q > 0.0 && r > 0.0 && Better(side, a, q) && (q == r || Better(side, q, r))
    ensures !Closer(PriceDrift(a, r), PriceDrift(a, q))
  {
    Quotients(Abs(q - a), Abs(r - a), a);
  }

  lemma StrayExists(side: Side, targets: seq<Quote>, tolerance: real) returns (j: nat, a: real)
    requires StrictLadder(side, targets) && !Spaced(targets, tolerance) && tolerance < 10000.0
    ensures j < |targets| && Stray(side, targets, tolerance, j, a)
  {
    hide PriceDrift;
    j := SomeLevelIsCrowded(side, targets, tolerance);
    var p, q := targets[j].price, targets[j + 1].price;
    var low, high := StrayRange(side, p, q, tolerance);
    low, high := Narrow(low, high, targets);
    a := (low + high) / 2.0;
    assert Between(p, q, tolerance, a) && Better(side, a, p);
    forall k | j < k < |targets| ensures !Closer(PriceDrift(a, targets[k].price), Bps(tolerance)) {
      FurtherOff(side, a, q, targets[k].price);
    }
  }

  // ----- which levels such orders go to -----

  ghost predicate QuotedAt(existing: seq<Order>, price: real) {
    exists e :: 0 <= e < |existing| && existing[e].price == price
  }

  ghost predicate NoRepeat(prices: seq<real>) {
    forall i, k :: 0 <= i < k < |prices| ==> prices[i] != prices[k]
  }

  ghost predicate OnePerPrice(existing: seq<Order>) {
    && (forall e :: 0 <= e < |existing| ==> existing[e].price > 0.0)
    && forall e, f :: 0 <= e < f < |existing| ==> existing[e].price != existing[f].price
  }

  /** Level i is quoted exactly, or by the one order left when every better level has its own. */
  ghost predicate Destined(existing: seq<Order>, targets: seq<Quote>, tolerance: real, prices: seq<real>, i: nat)
    requires i < |prices| <= |targets|
  {
    && QuotedAt(existing, prices[i]) && Closer(PriceDrift(prices[i], targets[i].price), Bps(tolerance))
    && (prices[i] == targets[i].price || forall e :: 0 <= e < |existing| ==> existing[e].price in prices[..i + 1])
  }

  /** The claimed orders are the ones at these prices. */
  ghost predicate ClaimedAt(existing: seq<Order>, claims: seq<int>, prices: seq<real>) {
    |claims| <= |prices| && forall i :: 0 <= i < |claims| ==> 0 <= claims[i] < |existing| && existing[claims[i]].price == prices[i]
  }

  /** Every level so quoted claims the order at its price. */
  lemma {:induction false} DestinedAreClaimed(existing: seq<Order>, targets: seq<Quote>, tolerance: real, prices: seq<real>, n: nat)
    requires tolerance > 0.0 && n <= |prices| <= |targets|
    requires OnePerPrice(existing)
    requires forall i :: 0 <= i < |targets| ==> targets[i].price > 0.0
    requires NoRepeat(prices)
    requires forall i :: 0 <= i < n ==> Destined(existing, targets, tolerance, prices, i)
    ensures ClaimedAt(existing, PassOne(existing, targets, tolerance, n), prices)
  {
    hide Nearest, Destined;
    if n > 0 {
      var before := PassOne(existing, targets, tolerance, n - 1);
      DestinedAreClaimed(existing, targets, tolerance, prices, n - 1);
      DestinedIsNearest(existing, targets, tolerance, prices, n - 1, before);
    }
  }

  lemma {:induction false} DestinedIsNearest(existing: seq<Order>, targets: seq<Quote>, tolerance: real, prices: seq<real>, i: nat, before: seq<int>)
    requires tolerance > 0.0 && i < |prices| <= |targets| && |before| == i
    requires OnePerPrice(existing)
    requires targets[i].price > 0.0
    requires NoRepeat(prices)
    requires Destined(existing, targets, tolerance, prices, i)
    requires ClaimedAt(existing, before, prices)
    ensures var best := Nearest(existing, targets[i], before, Bps(tolerance), |existing|);
            best >= 0 && existing[best].price == prices[i]
  {
    var e :| 0 <= e < |existing| && existing[e].price == prices[i];
    NearestIsFirstMinimum(existing, targets[i], before, Bps(tolerance), |existing|);
    assert e !in before;
    DriftIsZero(existing[e].price, targets[i].price);
    assert Candidate(existing, targets[i], before, Bps(tolerance), e);
    var best := Nearest(existing, targets[i], before, Bps(tolerance), |existing|);
    DriftIsZero(existing[best].price, targets[i].price);
    if prices[i] != targets[i].price {
      OnlyOneIsLeft(existing, prices, i, before, best);
    }
  }

  lemma OnlyOneIsLeft(existing: seq<Order>, prices: seq<real>, i: nat, before: seq<int>, best: nat)
    requires i < |prices| && |before| == i && best < |existing| && best !in before
    requires forall e :: 0 <= e < |existing| ==> existing[e].price in prices[..i + 1]
    requires ClaimedAt(existing, before, prices)
    requires OnePerPrice(existing)
    ensures existing[best].price == prices[i]
  {
    var k :| 0 <= k < i + 1 && prices[k] == existing[best].price;
    assert forall l :: 0 <= l < i ==> before[l] in before;
  }

  function PricesOf(targets: seq<Quote>): (prices: seq<real>)
    ensures |prices| == |targets| && forall i :: 0 <= i < |prices| ==> prices[i] == targets[i].price
  {
    seq(|targets|, i requires 0 <= i < |targets| => targets[i].price)
  }

  lemma ExactIsDestined(existing: seq<Order>, targets: seq<Quote>, tolerance: real, i: nat)
    requires tolerance > 0.0 && i < |targets| && targets[i].price > 0.0 && QuotedAt(existing, targets[i].price)
    ensures Destined(existing, targets, tolerance, PricesOf(targets), i)
  {
    DriftIsZero(targets[i].price, targets[i].price);
  }

  /** The best n levels, quoted exactly, claim their own orders. */
  lemma ExactAreClaimed(side: Side, existing: seq<Order>, targets: seq<Quote>, tolerance: real, n: nat)
    requires tolerance > 0.0 && StrictLadder(side, targets) && OnePerPrice(existing) && n <= |targets|
    requires forall i :: 0 <= i < n ==> QuotedAt(existing, targets[i].price)
    ensures var c := PassOne(existing, targets, tolerance, |targets|);
            forall i :: 0 <= i < n ==> c[i] >= 0 && existing[c[i]].price == targets[i].price && c[i] == PassOne(existing, targets, tolerance, n)[i]
  {
    hide Nearest, Destined, QuotedAt;
    forall i | 0 <= i < n ensures Destined(existing, targets, tolerance, PricesOf(targets), i) {
      ExactIsDestined(existing, targets, tolerance, i);
    }
    DestinedAreClaimed(existing, targets, tolerance, PricesOf(targets), n);
    PassOnePrefix(existing, targets, tolerance, n, |targets|);
  }

  /** Level j prefers an order further down its own ladder to the stray one. */
  lemma StrayIsOutbid(side: Side, existing: seq<Order>, targets: seq<Quote>, tolerance: real, j: nat, a: real)
    requires tolerance > 0.0 && StrictLadder(side, targets) && OnePerPrice(existing) && j < |targets|
    requires Stray(side, targets, tolerance, j, a)
    requires forall i :: 0 <= i < |targets| && i != j ==> QuotedAt(existing, targets[i].price)
    ensures var c := PassOne(existing, targets, tolerance, |targets|); c[j] >= 0 ==> existing[c[j]].price != a
  {
    ExactAreClaimed(side, existing, targets, tolerance, j);
    var before, c := PassOne(existing, targets, tolerance, j), PassOne(existing, targets, tolerance, |targets|);
    var k :| j < k < |targets| && Closer(PriceDrift(targets[k].price, targets[j].price), PriceDrift(a, targets[j].price));
    assert QuotedAt(existing, targets[k].price);
    var e :| 0 <= e < |existing| && existing[e].price == targets[k].price;
    assert e !in before;
    DriftIsZero(existing[e].price, targets[j].price);
    EarlierChoice(existing, targets, tolerance, j, e);
  }

  /** Once every other level is quoted exactly, no level claims the stray order. */
  lemma StrayIsForgotten(side: Side, existing: seq<Order>, targets: seq<Quote>, tolerance: real, j: nat, a: real)
    requires tolerance > 0.0 && StrictLadder(side, targets) && OnePerPrice(existing) && j < |targets|
    requires Stray(side, targets, tolerance, j, a)
    requires forall i :: 0 <= i < |targets| && i != j ==> QuotedAt(existing, targets[i].price)
    ensures var c := PassOne(existing, targets, tolerance, |targets|);
            forall i :: 0 <= i < |targets| && c[i] >= 0 ==> existing[c[i]].price != a
  {
    hide Nearest, QuotedAt;
    StrayIsOutbid(side, existing, targets, tolerance, j, a);
    ExactAreClaimed(side, existing, targets, tolerance, j);
    PassOneMaximal(existing, targets, tolerance, |targets|);
    var c := PassOne(existing, targets, tolerance, |targets|);
    forall i | j < i < |targets| && c[i] >= 0 ensures existing[c[i]].price != a {
      assert Closer(DriftOf(existing, c[i], targets[i]), Bps(tolerance));
    }
  }
}
