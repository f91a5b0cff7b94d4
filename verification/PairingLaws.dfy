/** What the matcher guarantees: a partition, maximality, stability when orders go missing, and the
    fixed point a reconciled book is under re-pairing. */
module PairingLaws {
  import opened Market
  import opened Pairing

  // ----- what Nearest picks -----

  ghost predicate Candidate(existing: seq<Order>, target: Quote, claimed: seq<int>, within: Drift, j: int) {
    0 <= j < |existing| && j !in claimed && DriftOf(existing, j, target).Bps?
    && Closer(DriftOf(existing, j, target), within)
  }

  /** A resting price is within a threshold of a target exactly when both are positive and they are apart by less than
      that share of the resting price. */
  lemma WithinExactlyByShare(current: real, target: real, threshold: real)
    ensures Closer(PriceDrift(current, target), Bps(threshold)) <==>
              current > 0.0 && target > 0.0 && -(threshold * current) < (target - current) * 10000.0 < threshold * current
  {
    if current > 0.0 && target > 0.0 {
      DriftIsAShare(current, target);
      hide PriceDrift;
      OrderOfShares(PriceDrift(current, target).value, threshold, current, Abs(target - current));
      EitherWay(target - current, threshold * current);
    }
  }

  lemma DriftIsAShare(current: real, target: real)
    requires current > 0.0 && target > 0.0
    ensures PriceDrift(current, target).Bps? && PriceDrift(current, target).value * current == Abs(target - current) * 10000.0
  {
    var share := Abs(target - current) / current;
    assert share * current == Abs(target - current);
    assert share * 10000.0 * current == share * current * 10000.0;
  }

  lemma OrderOfShares(bps: real, threshold: real, current: real, apart: real)
    requires current > 0.0 && bps * current == apart * 10000.0
    ensures bps < threshold <==> apart * 10000.0 < threshold * current
  {
  }

  lemma EitherWay(x: real, whole: real)
    ensures Abs(x) * 10000.0 < whole <==> -whole < x * 10000.0 < whole
  {
    if x < 0.0 {
      assert Abs(x) == -x;
    } else {
      assert Abs(x) == x;
    }
  }

  lemma {:induction false} NearestIsFirstMinimum(existing: seq<Order>, target: Quote, claimed: seq<int>, within: Drift, n: nat)
    requires n <= |existing|
    ensures var best := Nearest(existing, target, claimed, within, n);
            && (best >= 0 ==> Candidate(existing, target, claimed, within, best))
            && forall j :: 0 <= j < n && Candidate(existing, target, claimed, within, j) ==>
                best >= 0
                && !Closer(DriftOf(existing, j, target), DriftOf(existing, best, target))
                && (j < best ==> Closer(DriftOf(existing, best, target), DriftOf(existing, j, target)))
  {
    if n > 0 {
      NearestIsFirstMinimum(existing, target, claimed, within, n - 1);
    }
  }

  /** A candidate that beats every other one, ties going to the earlier order, is the one picked. */
  lemma NearestPicks(existing: seq<Order>, target: Quote, claimed: seq<int>, within: Drift, b: int)
    requires Candidate(existing, target, claimed, within, b)
    requires forall j :: Candidate(existing, target, claimed, within, j) && j != b ==>
               !Closer(DriftOf(existing, j, target), DriftOf(existing, b, target))
               && (j < b ==> Closer(DriftOf(existing, b, target), DriftOf(existing, j, target)))
    ensures Nearest(existing, target, claimed, within, |existing|) == b
  {
    NearestIsFirstMinimum(existing, target, claimed, within, |existing|);
  }

  // ----- claims never collide -----

  ghost predicate NoSharedClaim(c: seq<int>) {
    forall i, k :: 0 <= i < k < |c| && c[i] >= 0 ==> c[i] != c[k]
  }

  lemma {:induction false} PassOneInjective(existing: seq<Order>, targets: seq<Quote>, tolerance: real, k: nat)
    requires k <= |targets|
    ensures NoSharedClaim(PassOne(existing, targets, tolerance, k))
  {
    if k > 0 {
      PassOneInjective(existing, targets, tolerance, k - 1);
      NearestIsFirstMinimum(existing, targets[k - 1], PassOne(existing, targets, tolerance, k - 1), Bps(tolerance), |existing|);
    }
  }

  lemma {:induction false} PassTwoInjective(existing: seq<Order>, targets: seq<Quote>, first: seq<int>, k: nat)
    requires |first| == |targets| && k <= |targets|
    requires forall i :: 0 <= i < |first| ==> -1 <= first[i] < |existing|
    requires NoSharedClaim(first)
    ensures NoSharedClaim(PassTwo(existing, targets, first, k))
    ensures forall i :: 0 <= i < |targets| && (first[i] >= 0 || k <= i) ==> PassTwo(existing, targets, first, k)[i] == first[i]
  {
    if k > 0 {
      PassTwoInjective(existing, targets, first, k - 1);
      NearestIsFirstMinimum(existing, targets[k - 1], PassTwo(existing, targets, first, k - 1), Infinite, |existing|);
    }
  }

  lemma ClaimsInjective(existing: seq<Order>, targets: seq<Quote>, tolerance: real)
    ensures NoSharedClaim(Claims(existing, targets, tolerance))
  {
    PassOneInjective(existing, targets, tolerance, |targets|);
    PassTwoInjective(existing, targets, PassOne(existing, targets, tolerance, |targets|), |targets|);
  }

  // ----- partition -----

  lemma {:induction false} UnclaimedIs(claims: seq<int>, n: nat)
    ensures forall s :: 0 <= s < |Unclaimed(claims, n)| ==>
              var slot := Unclaimed(claims, n)[s];
              slot.order.Some? && slot.target.None? && slot.level == -1
              && slot.order.value < n && slot.order.value !in claims
    ensures forall j :: 0 <= j < n && j !in claims ==>
              exists s :: 0 <= s < |Unclaimed(claims, n)| && Unclaimed(claims, n)[s].order == Some(j)
    ensures forall s, t :: 0 <= s < t < |Unclaimed(claims, n)| ==>
              Unclaimed(claims, n)[s].order != Unclaimed(claims, n)[t].order
  {
    if n > 0 {
      UnclaimedIs(claims, n - 1);
      var before, now := Unclaimed(claims, n - 1), Unclaimed(claims, n);
      forall j | 0 <= j < n && j !in claims
        ensures exists s :: 0 <= s < |now| && now[s].order == Some(j)
      {
        if j == n - 1 {
          assert now[|before|].order == Some(j);
        } else {
          var s :| 0 <= s < |before| && before[s].order == Some(j);
          assert now[s] == before[s];
        }
      }
    }
  }

  /** Every target is in exactly one slot, the one at its own depth; every order is in exactly one
      slot; whatever is left over carries no target. */
  ghost predicate Partitions(slots: seq<Slot>, orders: nat, targets: nat) {
    && |slots| >= targets
    && (forall k :: 0 <= k < targets ==> slots[k].target == Some(k) && slots[k].level == k)
    && (forall s :: targets <= s < |slots| ==> slots[s].target.None? && slots[s].order.Some?)
    && (forall s :: 0 <= s < |slots| && slots[s].order.Some? ==> slots[s].order.value < orders)
    && (forall j :: 0 <= j < orders ==> InSomeSlot(slots, j))
    && (forall s, t :: 0 <= s < t < |slots| && slots[s].order.Some? ==> slots[s].order != slots[t].order)
  }

  ghost predicate InSomeSlot(slots: seq<Slot>, j: nat) {
    exists s :: 0 <= s < |slots| && slots[s].order == Some(j)
  }

  lemma RankPartitions(orders: nat, targets: nat)
    ensures Partitions(RankSlots(orders, targets), orders, targets)
  {
    var slots := RankSlots(orders, targets);
    forall j | 0 <= j < orders ensures InSomeSlot(slots, j) {
      assert slots[j].order == Some(j);
    }
  }

  lemma ClaimsPartition(claims: seq<int>, orders: nat)
    requires NoSharedClaim(claims)
    requires forall i :: 0 <= i < |claims| ==> -1 <= claims[i] < orders
    ensures Partitions(TargetSlots(claims) + Unclaimed(claims, orders), orders, |claims|)
  {
    UnclaimedIs(claims, orders);
    var head, rest := TargetSlots(claims), Unclaimed(claims, orders);
    var slots := head + rest;
    forall s | |claims| <= s < |slots| ensures slots[s] == rest[s - |claims|] {
    }
    forall j | 0 <= j < orders ensures InSomeSlot(slots, j) {
      if j in claims {
        var k :| 0 <= k < |claims| && claims[k] == j;
        assert slots[k].order == Some(j);
      } else {
        var s :| 0 <= s < |rest| && rest[s].order == Some(j);
        assert slots[|claims| + s].order == Some(j);
      }
    }
    forall s, t | 0 <= s < t < |slots| && slots[s].order.Some? ensures slots[s].order != slots[t].order {
      if t < |claims| {
        assert slots[s] == head[s] && slots[t] == head[t];
      } else if s < |claims| {
        assert slots[s] == head[s] && claims[s] in claims;
      }
    }
  }

  lemma PairingPartitions(existing: seq<Order>, targets: seq<Quote>, tolerance: real)
    ensures Partitions(Slots(existing, targets, tolerance), |existing|, |targets|)
  {
    if tolerance <= 0.0 {
      RankPartitions(|existing|, |targets|);
    } else {
      ClaimsInjective(existing, targets, tolerance);
      ClaimsPartition(Claims(existing, targets, tolerance), |existing|);
    }
  }

  // ----- maximality -----

  lemma {:induction false} PassOneMaximal(existing: seq<Order>, targets: seq<Quote>, tolerance: real, k: nat)
    requires k <= |targets|
    ensures var c := PassOne(existing, targets, tolerance, k);
            && (forall i :: 0 <= i < k && c[i] >= 0 ==> Closer(DriftOf(existing, c[i], targets[i]), Bps(tolerance)))
            && forall i, j :: 0 <= i < k && c[i] < 0 && 0 <= j < |existing| && j !in c ==>
                !Closer(DriftOf(existing, j, targets[i]), Bps(tolerance))
  {
    if k > 0 {
      PassOneMaximal(existing, targets, tolerance, k - 1);
      NearestIsFirstMinimum(existing, targets[k - 1], PassOne(existing, targets, tolerance, k - 1), Bps(tolerance), |existing|);
      var before := PassOne(existing, targets, tolerance, k - 1);
      var c := PassOne(existing, targets, tolerance, k);
      forall j | j in before ensures j in c {
        var i :| 0 <= i < |before| && before[i] == j;
        assert c[i] == j;
      }
    }
  }

  lemma {:induction false} PassTwoKeeps(existing: seq<Order>, targets: seq<Quote>, first: seq<int>, k: nat)
    requires |first| == |targets| && k <= |targets|
    requires forall i :: 0 <= i < |first| ==> -1 <= first[i] < |existing|
    ensures forall j :: j in first && j >= 0 ==> j in PassTwo(existing, targets, first, k)
    ensures var c := PassTwo(existing, targets, first, k);
            forall i, j :: 0 <= i < k && c[i] < 0 && 0 <= j < |existing| && j !in c ==>
              existing[j].price <= 0.0 || targets[i].price <= 0.0
  {
    if k > 0 {
      PassTwoKeeps(existing, targets, first, k - 1);
      var before := PassTwo(existing, targets, first, k - 1);
      var c := PassTwo(existing, targets, first, k);
      var last := targets[k - 1];
      NearestIsFirstMinimum(existing, last, before, Infinite, |existing|);
      forall j | 0 <= j < |existing| && c[k - 1] < 0 && j !in c ensures existing[j].price <= 0.0 || last.price <= 0.0 {
        if before[k - 1] < 0 && existing[j].price > 0.0 && last.price > 0.0 {
          assert c == before;
          assert Candidate(existing, last, before, Infinite, j);
        }
      }
      forall j | j in before && j >= 0 ensures j in c {
        var i :| 0 <= i < |before| && before[i] == j;
        assert c[i] == j;
      }
    }
  }

  /** After pass one no free order is within tolerance of a free target; after pass two no free,
      positively priced order coexists with a free, positively priced target. */
  lemma PairingIsMaximal(existing: seq<Order>, targets: seq<Quote>, tolerance: real, j: nat, k: nat)
    requires j < |existing| && k < |targets|
    ensures var one := PassOne(existing, targets, tolerance, |targets|);
            one[k] < 0 && j !in one ==> !Closer(DriftOf(existing, j, targets[k]), Bps(tolerance))
    ensures var two := Claims(existing, targets, tolerance);
            two[k] < 0 && j !in two ==> existing[j].price <= 0.0 || targets[k].price <= 0.0
  {
    PassOneMaximal(existing, targets, tolerance, |targets|);
    PassTwoKeeps(existing, targets, PassOne(existing, targets, tolerance, |targets|), |targets|);
  }

  /** A pair made within tolerance stays; a pair made by the second pass is outside it. */
  lemma SecondPassPairsAreFar(existing: seq<Order>, targets: seq<Quote>, tolerance: real, k: nat)
    requires k < |targets|
    ensures var one, two := PassOne(existing, targets, tolerance, |targets|), Claims(existing, targets, tolerance);
            if one[k] >= 0 then two[k] == one[k] && Closer(DriftOf(existing, two[k], targets[k]), Bps(tolerance))
            else two[k] >= 0 ==> !Closer(DriftOf(existing, two[k], targets[k]), Bps(tolerance))
  {
    var one, two := PassOne(existing, targets, tolerance, |targets|), Claims(existing, targets, tolerance);
    PassOneMaximal(existing, targets, tolerance, |targets|);
    PassOneInjective(existing, targets, tolerance, |targets|);
    PassTwoInjective(existing, targets, one, |targets|);
    if one[k] < 0 && two[k] >= 0 {
      forall i | 0 <= i < |one| ensures one[i] != two[k] {
        assert one[i] >= 0 ==> two[i] == one[i];
      }
      assert two[k] !in one;
    }
  }

  ghost predicate AllPositive(existing: seq<Order>, targets: seq<Quote>) {
    (forall j :: 0 <= j < |existing| ==> existing[j].price > 0.0) &&
    (forall k :: 0 <= k < |targets| ==> targets[k].price > 0.0)
  }

  function Range(n: nat): (r: set<int>)
    ensures forall i :: i in r <==> 0 <= i < n
    ensures |r| == n
  {
    if n == 0 then {} else Range(n - 1) + {n - 1}
  }

  ghost function Holding(claims: seq<int>, n: nat): set<int> {
    set i | i in Range(|claims|) && 0 <= claims[i] < n
  }

  lemma HoldingStep(claims: seq<int>, n: nat)
    requires NoSharedClaim(claims)
    ensures |Holding(claims, n + 1)| == |Holding(claims, n)| + if n in claims then 1 else 0
  {
    var before, now := Holding(claims, n), Holding(claims, n + 1);
    if k :| 0 <= k < |claims| && claims[k] == n {
      assert k in now && k !in before;
      forall i | i in now && i != k ensures i in before {
        assert if i < k then claims[i] != claims[k] else claims[k] != claims[i];
      }
      assert now == before + {k};
    } else {
      forall i | i in now ensures i in before {
        assert claims[i] != n;
      }
      assert now == before;
    }
  }

  lemma {:induction false} UnclaimedCount(claims: seq<int>, n: nat)
    requires NoSharedClaim(claims)
    ensures |Unclaimed(claims, n)| == n - |Holding(claims, n)|
  {
    if n > 0 {
      UnclaimedCount(claims, n - 1);
      HoldingStep(claims, n - 1);
    } else {
      assert Holding(claims, n) == {};
    }
  }

  /** With positive prices the matcher makes no more slots than the longer of the two ladders. */
  lemma SlotCount(existing: seq<Order>, targets: seq<Quote>, tolerance: real)
    requires tolerance <= 0.0 || AllPositive(existing, targets)
    ensures |Slots(existing, targets, tolerance)| == if |targets| > |existing| then |targets| else |existing|
  {
    if tolerance > 0.0 {
      var c := Claims(existing, targets, tolerance);
      ClaimsInjective(existing, targets, tolerance);
      UnclaimedCount(c, |existing|);
      var held, all := Holding(c, |existing|), Range(|c|);
      if k :| 0 <= k < |c| && c[k] < 0 {
        forall j | 0 <= j < |existing| ensures j in c {
          PairingIsMaximal(existing, targets, tolerance, j, k);
        }
        NoneUnclaimed(c, |existing|);
        assert k in all && k !in held;
        ProperSubsetCard(held, all);
      } else {
        assert held == all;
      }
    }
  }

  lemma {:induction false} NoneUnclaimed(claims: seq<int>, n: nat)
    requires forall j :: 0 <= j < n ==> j in claims
    ensures Unclaimed(claims, n) == []
  {
    if n > 0 {
      NoneUnclaimed(claims, n - 1);
    }
  }

  lemma ProperSubsetCard<T>(a: set<T>, b: set<T>)
    requires a < b
    ensures |a| < |b|
  {
    assert b == a + (b - a);
    assert |b| == |a| + |b - a|;
    assert b - a != {};
  }

  // ----- missing orders shift nothing -----

  ghost predicate Within(existing: seq<Order>, targets: seq<Quote>, tolerance: real, j: int, k: int) {
    0 <= j < |existing| && 0 <= k < |targets| && Closer(DriftOf(existing, j, targets[k]), Bps(tolerance))
  }

  ghost predicate QuotesSomeLevel(existing: seq<Order>, targets: seq<Quote>, tolerance: real, j: int) {
    exists k :: Within(existing, targets, tolerance, j, k)
  }

  /** Each order quotes exactly one level, and no level is quoted twice. */
  ghost predicate OneToOne(existing: seq<Order>, targets: seq<Quote>, tolerance: real) {
    (forall j :: 0 <= j < |existing| ==> QuotesSomeLevel(existing, targets, tolerance, j)) &&
    (forall j, k, k' :: Within(existing, targets, tolerance, j, k) && Within(existing, targets, tolerance, j, k') ==> k == k') &&
    (forall j, j', k :: Within(existing, targets, tolerance, j, k) && Within(existing, targets, tolerance, j', k) ==> j == j')
  }

  lemma {:induction false} OneToOnePassOne(existing: seq<Order>, targets: seq<Quote>, tolerance: real, n: nat)
    requires OneToOne(existing, targets, tolerance) && n <= |targets|
    ensures forall j, k :: 0 <= k < n && 0 <= j < |existing| ==>
              (PassOne(existing, targets, tolerance, n)[k] == j <==> Within(existing, targets, tolerance, j, k))
  {
    if n > 0 {
      OneToOnePassOne(existing, targets, tolerance, n - 1);
      var before := PassOne(existing, targets, tolerance, n - 1);
      NearestIsFirstMinimum(existing, targets[n - 1], before, Bps(tolerance), |existing|);
      var best, last := Nearest(existing, targets[n - 1], before, Bps(tolerance), |existing|), n - 1;
      forall j | Within(existing, targets, tolerance, j, last) ensures best == j {
        forall i | 0 <= i < last ensures before[i] != j {
          var atBoth := Within(existing, targets, tolerance, j, i);
        }
        assert Candidate(existing, targets[n - 1], before, Bps(tolerance), j);
        assert Within(existing, targets, tolerance, best, last);
      }
    }
  }

  lemma OneToOneClaims(existing: seq<Order>, targets: seq<Quote>, tolerance: real)
    requires OneToOne(existing, targets, tolerance)
    ensures forall j, k :: 0 <= k < |targets| && 0 <= j < |existing| ==>
              (Claims(existing, targets, tolerance)[k] == j <==> Within(existing, targets, tolerance, j, k))
  {
    var one, two := PassOne(existing, targets, tolerance, |targets|), Claims(existing, targets, tolerance);
    OneToOnePassOne(existing, targets, tolerance, |targets|);
    PassOneInjective(existing, targets, tolerance, |targets|);
    PassTwoInjective(existing, targets, one, |targets|);
    forall j, k | 0 <= k < |targets| && 0 <= j < |existing|
      ensures two[k] == j <==> Within(existing, targets, tolerance, j, k)
    {
      assert QuotesSomeLevel(existing, targets, tolerance, j);
      var l :| Within(existing, targets, tolerance, j, l);
      assert one[l] == j && two[l] == j;
    }
  }

  /** If each order quotes exactly one level and no level has two, then taking any orders off the
      book -- and listing the rest in any order -- leaves every remaining order on its level. */
  lemma MissingOrdersShiftNothing(existing: seq<Order>, rest: seq<Order>, targets: seq<Quote>, tolerance: real, at: seq<nat>)
    requires OneToOne(existing, targets, tolerance)
    requires |at| == |rest| && forall i :: 0 <= i < |rest| ==> at[i] < |existing| && existing[at[i]] == rest[i]
    requires forall i, i' :: 0 <= i < i' < |at| ==> at[i] != at[i']
    ensures forall i, k :: 0 <= i < |rest| && 0 <= k < |targets| ==>
              (Claims(rest, targets, tolerance)[k] == i <==> Claims(existing, targets, tolerance)[k] == at[i])
  {
    forall i, k | 0 <= i < |rest| && 0 <= k < |targets|
      ensures Within(rest, targets, tolerance, i, k) <==> Within(existing, targets, tolerance, at[i], k)
    {
    }
    forall i | 0 <= i < |rest| ensures QuotesSomeLevel(rest, targets, tolerance, i) {
      assert QuotesSomeLevel(existing, targets, tolerance, at[i]);
      var k :| Within(existing, targets, tolerance, at[i], k);
      assert Within(rest, targets, tolerance, i, k);
    }
    forall j, j', k | Within(rest, targets, tolerance, j, k) && Within(rest, targets, tolerance, j', k) ensures j == j' {
      assert Within(existing, targets, tolerance, at[j], k) && Within(existing, targets, tolerance, at[j'], k);
    }
    forall j, k, k' | Within(rest, targets, tolerance, j, k) && Within(rest, targets, tolerance, j, k') ensures k == k' {
      assert Within(existing, targets, tolerance, at[j], k) && Within(existing, targets, tolerance, at[j], k');
    }
    OneToOneClaims(existing, targets, tolerance);
    OneToOneClaims(rest, targets, tolerance);
    forall i, k | 0 <= i < |rest| && 0 <= k < |targets|
      ensures Claims(rest, targets, tolerance)[k] == i <==> Claims(existing, targets, tolerance)[k] == at[i]
    {
      assert Within(rest, targets, tolerance, i, k) <==> Within(existing, targets, tolerance, at[i], k);
    }
  }
}
