/** Re-pairing the book a reconciliation left: with the ladder spaced by the tolerance, every order
    goes back to the level it was kept for or placed at. */
module PairingFixpoint {
  import opened Market
  import opened Pairing
  import opened PairingLaws

  /** Best price first, no two orders at one price. */
  ghost predicate StrictlySorted(side: Side, orders: seq<Order>) {
    forall i, j :: 0 <= i < j < |orders| ==> Better(side, orders[i].price, orders[j].price)
  }

  ghost predicate StrictLadder(side: Side, targets: seq<Quote>) {
    (forall k :: 0 <= k < |targets| ==> targets[k].price > 0.0) &&
    forall j, k :: 0 <= j < k < |targets| ==> Better(side, targets[j].price, targets[k].price)
  }

  /** An order resting exactly at a level is outside the tolerance of every level above it. */
  ghost predicate Spaced(targets: seq<Quote>, tolerance: real) {
    forall j, k :: 0 <= j < k < |targets| ==>
      !Closer(PriceDrift(targets[k].price, targets[j].price), Bps(tolerance))
  }

  /** An order of the earlier book that no level claimed within tolerance. */
  ghost predicate LeftOver(earlier: seq<Order>, targets: seq<Quote>, tolerance: real, o: Order) {
    exists x :: 0 <= x < |earlier| && earlier[x] == o && x !in PassOne(earlier, targets, tolerance, |targets|)
  }

  /** Order at[k] of the book is level k's: kept from the first pass over the earlier book, or
      placed at exactly the level's price. What else rests was left over by that pass. */
  ghost predicate LeftBy(earlier: seq<Order>, targets: seq<Quote>, tolerance: real, book: seq<Order>, at: seq<nat>) {
    && |at| == |targets|
    && (forall k :: 0 <= k < |at| ==> at[k] < |book|)
    && (forall j, k :: 0 <= j < k < |at| ==> at[j] != at[k])
    && (forall i :: 0 <= i < |book| ==> i in at || LeftOver(earlier, targets, tolerance, book[i]))
    && forall k :: 0 <= k < |at| ==> KeptOrPlaced(earlier, targets, tolerance, book[at[k]], k)
  }

  ghost predicate KeptOrPlaced(earlier: seq<Order>, targets: seq<Quote>, tolerance: real, o: Order, k: nat)
    requires k < |targets|
  {
    var c := PassOne(earlier, targets, tolerance, |targets|)[k];
    (c >= 0 && o == earlier[c]) || o.price == targets[k].price
  }

  ghost predicate Reconciled(
    side: Side, earlier: seq<Order>, targets: seq<Quote>, tolerance: real, book: seq<Order>, at: seq<nat>)
  {
    && tolerance > 0.0 && StrictLadder(side, targets) && Spaced(targets, tolerance)
    && StrictlySorted(side, earlier) && StrictlySorted(side, book)
    && LeftBy(earlier, targets, tolerance, book, at)
  }

  lemma {:induction false} PassOnePrefix(existing: seq<Order>, targets: seq<Quote>, tolerance: real, n: nat, m: nat)
    requires n <= m <= |targets|
    ensures PassOne(existing, targets, tolerance, m)[..n] == PassOne(existing, targets, tolerance, n)
  {
    if n < m {
      PassOnePrefix(existing, targets, tolerance, n, m - 1);
    }
  }

  lemma DriftIsZero(p: real, q: real)
    requires p > 0.0 && q > 0.0
    ensures PriceDrift(p, q).Bps? && PriceDrift(p, q).value >= 0.0
    ensures PriceDrift(p, q).value == 0.0 <==> p == q
  {
    var gap := Abs(q - p);
    assert gap / p >= 0.0;
    if gap / p == 0.0 {
      assert gap == (gap / p) * p;
    }
  }

  /** What level n chose over an order that no better level took. */
  lemma EarlierChoice(earlier: seq<Order>, targets: seq<Quote>, tolerance: real, n: nat, x: nat)
    requires n < |targets| && x < |earlier|
    requires x !in PassOne(earlier, targets, tolerance, n)
    requires Closer(DriftOf(earlier, x, targets[n]), Bps(tolerance))
    ensures var c := PassOne(earlier, targets, tolerance, |targets|);
            && c[n] >= 0
            && !Closer(DriftOf(earlier, x, targets[n]), DriftOf(earlier, c[n], targets[n]))
            && (x < c[n] ==> Closer(DriftOf(earlier, c[n], targets[n]), DriftOf(earlier, x, targets[n])))
  {
    var c := PassOne(earlier, targets, tolerance, |targets|);
    PassOnePrefix(earlier, targets, tolerance, n + 1, |targets|);
    var before := PassOne(earlier, targets, tolerance, n);
    assert c[n] == c[..n + 1][n] == Nearest(earlier, targets[n], before, Bps(tolerance), |earlier|);
    NearestIsFirstMinimum(earlier, targets[n], before, Bps(tolerance), |earlier|);
  }

  /** What a deeper level claimed, or no level, was free when level n chose. */
  lemma FreeAtLevel(earlier: seq<Order>, targets: seq<Quote>, tolerance: real, n: nat, x: nat)
    requires n < |targets|
    requires var c := PassOne(earlier, targets, tolerance, |targets|); x !in c || exists m :: n < m < |targets| && c[m] == x
    ensures x !in PassOne(earlier, targets, tolerance, n)
  {
    var c := PassOne(earlier, targets, tolerance, |targets|);
    PassOneInjective(earlier, targets, tolerance, |targets|);
    PassOnePrefix(earlier, targets, tolerance, n, |targets|);
    assert c[..n] == PassOne(earlier, targets, tolerance, n);
  }

  /** An order at exactly level n's price that no better level took is level n's. */
  lemma ExactIsClaimed(side: Side, earlier: seq<Order>, targets: seq<Quote>, tolerance: real, n: nat, x: nat)
    requires tolerance > 0.0 && StrictlySorted(side, earlier) && n < |targets| && targets[n].price > 0.0
    requires x < |earlier| && earlier[x].price == targets[n].price && x !in PassOne(earlier, targets, tolerance, n)
    ensures PassOne(earlier, targets, tolerance, |targets|)[n] == x
  {
    var c := PassOne(earlier, targets, tolerance, |targets|);
    DriftIsZero(earlier[x].price, targets[n].price);
    EarlierChoice(earlier, targets, tolerance, n, x);
    PassOneMaximal(earlier, targets, tolerance, |targets|);
    DriftIsZero(earlier[c[n]].price, targets[n].price);
  }

  /** Where another order near level n's price was in the earlier book. */
  lemma RivalWasThere(
    side: Side, earlier: seq<Order>, targets: seq<Quote>, tolerance: real, book: seq<Order>, at: seq<nat>, n: nat, j: nat)
    returns (x: nat)
    requires Reconciled(side, earlier, targets, tolerance, book, at)
    requires n < |targets| && Candidate(book, targets[n], at[..n], Bps(tolerance), j) && j != at[n]
    ensures x < |earlier| && earlier[x] == book[j] && x !in PassOne(earlier, targets, tolerance, n)
  {
    var c := PassOne(earlier, targets, tolerance, |targets|);
    if j in at {
      var m :| 0 <= m < |at| && at[m] == j;
      assert forall i :: 0 <= i < n ==> at[i] in at[..n];
      assert KeptOrPlaced(earlier, targets, tolerance, book[at[m]], m);
      assert book[at[m]].price != targets[m].price;
      x := c[m];
    } else {
      x :| 0 <= x < |earlier| && earlier[x] == book[j] && x !in c;
    }
    FreeAtLevel(earlier, targets, tolerance, n, x);
  }

  lemma StepKeepsPlace(
    side: Side, earlier: seq<Order>, targets: seq<Quote>, tolerance: real, book: seq<Order>, at: seq<nat>, n: nat, j: nat)
    requires Reconciled(side, earlier, targets, tolerance, book, at)
    requires n < |targets| && Candidate(book, targets[n], at[..n], Bps(tolerance), j) && j != at[n]
    ensures !Closer(DriftOf(book, j, targets[n]), DriftOf(book, at[n], targets[n]))
    ensures j < at[n] ==> Closer(DriftOf(book, at[n], targets[n]), DriftOf(book, j, targets[n]))
  {
    var x := RivalWasThere(side, earlier, targets, tolerance, book, at, n, j);
    var c := PassOne(earlier, targets, tolerance, |targets|);
    assert KeptOrPlaced(earlier, targets, tolerance, book[at[n]], n);
    EarlierChoice(earlier, targets, tolerance, n, x);
    assert book[j].price != book[at[n]].price;
    DriftIsZero(book[j].price, targets[n].price);
    if book[at[n]].price == targets[n].price {
      DriftIsZero(book[at[n]].price, targets[n].price);
    } else {
      assert book[at[n]] == earlier[c[n]];
    }
  }

  lemma OwnOrderIsCandidate(
    side: Side, earlier: seq<Order>, targets: seq<Quote>, tolerance: real, book: seq<Order>, at: seq<nat>, n: nat)
    requires Reconciled(side, earlier, targets, tolerance, book, at)
    requires n < |targets|
    ensures Candidate(book, targets[n], at[..n], Bps(tolerance), at[n])
  {
    PassOneMaximal(earlier, targets, tolerance, |targets|);
    assert KeptOrPlaced(earlier, targets, tolerance, book[at[n]], n);
    if book[at[n]].price == targets[n].price {
      DriftIsZero(book[at[n]].price, targets[n].price);
    }
    forall i | 0 <= i < n ensures at[..n][i] != at[n] {
    }
  }

  lemma FirstPassRepeats(
    side: Side, earlier: seq<Order>, targets: seq<Quote>, tolerance: real, book: seq<Order>, at: seq<nat>, n: nat)
    requires Reconciled(side, earlier, targets, tolerance, book, at)
    requires n < |targets|
    ensures Nearest(book, targets[n], at[..n], Bps(tolerance), |book|) == at[n]
  {
    OwnOrderIsCandidate(side, earlier, targets, tolerance, book, at, n);
    forall j | Candidate(book, targets[n], at[..n], Bps(tolerance), j) && j != at[n]
      ensures !Closer(DriftOf(book, j, targets[n]), DriftOf(book, at[n], targets[n]))
      ensures j < at[n] ==> Closer(DriftOf(book, at[n], targets[n]), DriftOf(book, j, targets[n]))
    {
      StepKeepsPlace(side, earlier, targets, tolerance, book, at, n, j);
    }
    NearestPicks(book, targets[n], at[..n], Bps(tolerance), at[n]);
  }

  lemma {:induction false} FirstPassFixed(
    side: Side, earlier: seq<Order>, targets: seq<Quote>, tolerance: real, book: seq<Order>, at: seq<nat>, n: nat)
    requires Reconciled(side, earlier, targets, tolerance, book, at)
    requires n <= |targets|
    ensures PassOne(book, targets, tolerance, n) == at[..n]
  {
    hide Nearest, StrictLadder, StrictlySorted, Spaced, KeptOrPlaced, LeftOver;
    if n > 0 {
      FirstPassFixed(side, earlier, targets, tolerance, book, at, n - 1);
      FirstPassRepeats(side, earlier, targets, tolerance, book, at, n - 1);
    }
  }

  lemma {:induction false} PassTwoIdle(existing: seq<Order>, targets: seq<Quote>, first: seq<int>, k: nat)
    requires |first| == |targets| && k <= |targets|
    requires forall i :: 0 <= i < |first| ==> 0 <= first[i] < |existing|
    ensures PassTwo(existing, targets, first, k) == first
  {
    if k > 0 {
      PassTwoIdle(existing, targets, first, k - 1);
    }
  }

  function OwnSlots(at: seq<nat>): seq<Slot> {
    seq(|at|, k requires 0 <= k < |at| => Slot(Some(at[k]), Some(k), k))
  }

  /** Every level of a spaced ladder reclaims the order the reconciliation left for it, and what was left
      over stays so. */
  lemma RepairingIsFixed(
    side: Side, earlier: seq<Order>, targets: seq<Quote>, tolerance: real, book: seq<Order>, at: seq<nat>)
    requires Reconciled(side, earlier, targets, tolerance, book, at)
    ensures Claims(book, targets, tolerance) == at
    ensures Slots(book, targets, tolerance) == OwnSlots(at) + Unclaimed(at, |book|)
  {
    FirstPassFixed(side, earlier, targets, tolerance, book, at, |targets|);
    assert at[..|targets|] == at;
    PassTwoIdle(book, targets, at, |targets|);
    assert TargetSlots(at) == OwnSlots(at);
  }
}
