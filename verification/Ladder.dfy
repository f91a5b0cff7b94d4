/** Sizing a multi-level ladder (buildLevels and the sizing part of BuildQuotesWithOverrides in
    strategy.go). */
module Ladder {
  import opened Market
  import opened Rounding

  // ----- the ladder -----

  datatype LadderSpec = LadderSpec(minSize: real, sizeStep: real, tickSize: real, baseSized: bool)
  datatype LadderConfig = LadderConfig(quoteLevels: int, levelSpreadStepBPS: real, levelSizeMult: real)

  /** Where one side's ladder is priced: the reference, half spread and skew as fractions, and the
      other side's best price (0 for none). */
  datatype Pricing = Pricing(side: Side, ref: real, halfSpread: real, skew: real, opposite: real)

  function LevelCount(cfg: LadderConfig): nat {
    if cfg.quoteLevels < 1 then 1 else cfg.quoteLevels
  }

  function SizeMult(cfg: LadderConfig): real {
    if cfg.levelSizeMult <= 0.0 then 1.0 else cfg.levelSizeMult
  }

  function NextSize(cfg: LadderConfig, levelSize: real): real {
    levelSize * SizeMult(cfg)
  }

  function MinQuoteSize(spec: LadderSpec): real {
    if spec.baseSized then Max(spec.minSize, 1.0) else spec.minSize
  }

  function StepFraction(cfg: LadderConfig): (f: real)
    ensures cfg.levelSpreadStepBPS >= 0.0 ==> f >= 0.0
  {
    cfg.levelSpreadStepBPS / 10000.0
  }

  /** How much further out than level 0 level k is, as a fraction of the reference. */
  function Offset(cfg: LadderConfig, k: nat): real {
    k as real * StepFraction(cfg)
  }

  /** Where level k is, as a fraction of the reference. */
  function Distance(cfg: LadderConfig, p: Pricing, k: nat): real {
    match p.side
    case Buy => 1.0 - p.halfSpread - p.skew - Offset(cfg, k)
    case Sell => 1.0 + p.halfSpread - p.skew + Offset(cfg, k)
  }

  function RawPrice(cfg: LadderConfig, p: Pricing, k: nat): real {
    p.ref * Distance(cfg, p, k)
  }

  function PriceOf(cfg: LadderConfig, spec: LadderSpec, p: Pricing, k: nat): real {
    match p.side
    case Buy => RoundDown(RawPrice(cfg, p, k), spec.tickSize)
    case Sell => RoundUp(RawPrice(cfg, p, k), spec.tickSize)
  }

  /** Positive, and not at or through the other side's best. */
  predicate PriceStands(p: Pricing, price: real) {
    price > 0.0 && (p.opposite > 0.0 ==> Better(p.side, p.opposite, price))
  }

  function LevelSize(spec: LadderSpec, levelSize: real, budget: real, headroom: real): real {
    RoundDown(Min(levelSize, Min(budget, headroom)), spec.sizeStep)
  }

  /** A level goes on the ladder when both remainders still hold a minimum size, the price stands, and
      the size left for it is not too small. */
  predicate LevelFits(cfg: LadderConfig, spec: LadderSpec, p: Pricing, k: nat, levelSize: real, budget: real, headroom: real) {
    && k < LevelCount(cfg) && budget >= spec.minSize && headroom >= spec.minSize
    && PriceStands(p, PriceOf(cfg, spec, p, k))
    && LevelSize(spec, levelSize, budget, headroom) >= MinQuoteSize(spec)
  }

  /** The ladder from level k on, with what is left of the size budget and of the inventory headroom. */
  function LevelsFrom(cfg: LadderConfig, spec: LadderSpec, p: Pricing, k: nat, levelSize: real, budget: real, headroom: real): seq<Quote>
    decreases if k < LevelCount(cfg) then LevelCount(cfg) - k else 0
  {
    if !LevelFits(cfg, spec, p, k, levelSize, budget, headroom) then []
    else
      var size := LevelSize(spec, levelSize, budget, headroom);
      [Quote(p.side, PriceOf(cfg, spec, p, k), size)]
      + LevelsFrom(cfg, spec, p, k + 1, NextSize(cfg, levelSize), budget - size, headroom - size)
  }

  /** What the inventory limit leaves: the limit is long for bids, short (not positive) for asks. */
  function Headroom(side: Side, inventory: real, limit: real): real {
    match side
    case Buy => limit - inventory
    case Sell => inventory - limit
  }

  function Levels(cfg: LadderConfig, spec: LadderSpec, p: Pricing, orderSize: real, budget: real, inventory: real, limit: real): seq<Quote> {
    LevelsFrom(cfg, spec, p, 0, orderSize, budget, Headroom(p.side, inventory, limit))
  }

  method BuildLevels(cfg: LadderConfig, spec: LadderSpec, p: Pricing, orderSize: real, totalBudget: real, inventory: real, limit: real)
    returns (quotes: seq<Quote>)
    ensures quotes == Levels(cfg, spec, p, orderSize, totalBudget, inventory, limit)
  {
    hide RoundDown, RoundUp, Distance, MinQuoteSize, NextSize, LevelSize, PriceStands, PriceOf;
    var remainingBudget, remainingInv := totalBudget, Headroom(p.side, inventory, limit);
    quotes := [];
    var levelSize := orderSize;
    var k := 0;
    while k < LevelCount(cfg)
      invariant quotes + LevelsFrom(cfg, spec, p, k, levelSize, remainingBudget, remainingInv) ==
                Levels(cfg, spec, p, orderSize, totalBudget, inventory, limit)
    {
      if remainingBudget < spec.minSize || remainingInv < spec.minSize {
        break;
      }
      var price := PriceOf(cfg, spec, p, k);
      if !PriceStands(p, price) {
        break;
      }
      var size := LevelSize(spec, levelSize, remainingBudget, remainingInv);
      if size < MinQuoteSize(spec) {
        break;
      }
      ghost var level, rest := [Quote(p.side, price, size)],
        LevelsFrom(cfg, spec, p, k + 1, NextSize(cfg, levelSize), remainingBudget - size, remainingInv - size);
      assert (quotes + level) + rest == quotes + (level + rest);
      quotes := quotes + [Quote(p.side, price, size)];
      remainingBudget := remainingBudget - size;
      remainingInv := remainingInv - size;
      levelSize := NextSize(cfg, levelSize);
      k := k + 1;
    }
  }

  /** One level and the rest. */
  lemma LadderStep(cfg: LadderConfig, spec: LadderSpec, p: Pricing, k: nat, levelSize: real, budget: real, headroom: real)
    returns (size: real, ladder: seq<Quote>, rest: seq<Quote>)
    requires LevelFits(cfg, spec, p, k, levelSize, budget, headroom)
    ensures ladder == LevelsFrom(cfg, spec, p, k, levelSize, budget, headroom)
    ensures size == LevelSize(spec, levelSize, budget, headroom)
    ensures rest == LevelsFrom(cfg, spec, p, k + 1, NextSize(cfg, levelSize), budget - size, headroom - size)
    ensures ladder != [] && ladder[0] == Quote(p.side, PriceOf(cfg, spec, p, k), size) && ladder[1..] == rest
  {
    hide LevelSize, PriceOf, NextSize, LevelFits;
    ladder := LevelsFrom(cfg, spec, p, k, levelSize, budget, headroom);
    size := LevelSize(spec, levelSize, budget, headroom);
    rest := LevelsFrom(cfg, spec, p, k + 1, NextSize(cfg, levelSize), budget - size, headroom - size);
  }

  lemma NoLevel(cfg: LadderConfig, spec: LadderSpec, p: Pricing, k: nat, levelSize: real, budget: real, headroom: real)
    requires !LevelFits(cfg, spec, p, k, levelSize, budget, headroom)
    ensures LevelsFrom(cfg, spec, p, k, levelSize, budget, headroom) == []
  {
  }

  // ----- what a ladder can commit -----

  function TotalSize(quotes: seq<Quote>): real {
    if quotes == [] then 0.0 else quotes[0].size + TotalSize(quotes[1..])
  }

  /** All levels together exceed neither the budget nor the inventory headroom by more than the rounding
      tolerance: one billionth of one size step, for the whole ladder. */
  lemma {:induction false} LadderWithinBudget(cfg: LadderConfig, spec: LadderSpec, p: Pricing, k: nat, levelSize: real, budget: real, headroom: real)
    ensures var ladder := LevelsFrom(cfg, spec, p, k, levelSize, budget, headroom);
            ladder != [] ==> TotalSize(ladder) <= budget + Slack(spec.sizeStep) && TotalSize(ladder) <= headroom + Slack(spec.sizeStep)
    decreases if k < LevelCount(cfg) then LevelCount(cfg) - k else 0
  {
    hide RoundDown, PriceOf, PriceStands, MinQuoteSize, NextSize, Slack, LevelsFrom;
    if LevelFits(cfg, spec, p, k, levelSize, budget, headroom) {
      var size, ladder, rest := LadderStep(cfg, spec, p, k, levelSize, budget, headroom);
      RoundDownBounds(Min(levelSize, Min(budget, headroom)), spec.sizeStep);
      LadderWithinBudget(cfg, spec, p, k + 1, NextSize(cfg, levelSize), budget - size, headroom - size);
    } else {
      NoLevel(cfg, spec, p, k, levelSize, budget, headroom);
    }
  }

  ghost predicate WellFormed(cfg: LadderConfig, spec: LadderSpec, p: Pricing, ladder: seq<Quote>, from: nat) {
    forall i :: 0 <= i < |ladder| ==>
      && ladder[i].side == p.side && ladder[i].price == PriceOf(cfg, spec, p, from + i)
      && PriceStands(p, ladder[i].price) && ladder[i].size >= MinQuoteSize(spec)
  }

  /** Level i is priced at level i's own distance, stands, and is never below the venue's minimum. */
  lemma {:induction false} LadderIsWellFormed(cfg: LadderConfig, spec: LadderSpec, p: Pricing, k: nat, levelSize: real, budget: real, headroom: real)
    ensures WellFormed(cfg, spec, p, LevelsFrom(cfg, spec, p, k, levelSize, budget, headroom), k)
    ensures |LevelsFrom(cfg, spec, p, k, levelSize, budget, headroom)| <= if k < LevelCount(cfg) then LevelCount(cfg) - k else 0
    decreases if k < LevelCount(cfg) then LevelCount(cfg) - k else 0
  {
    hide RoundDown, PriceOf, PriceStands, MinQuoteSize, NextSize, LevelsFrom;
    if LevelFits(cfg, spec, p, k, levelSize, budget, headroom) {
      var size, ladder, rest := LadderStep(cfg, spec, p, k, levelSize, budget, headroom);
      LadderIsWellFormed(cfg, spec, p, k + 1, NextSize(cfg, levelSize), budget - size, headroom - size);
      forall i | 1 <= i < |ladder| ensures ladder[i] == rest[i - 1] {
      }
    } else {
      NoLevel(cfg, spec, p, k, levelSize, budget, headroom);
    }
  }

  /** The k-th level's size before anything limits it. */
  function Grown(size: real, mult: real, k: nat): real
    decreases k
  {
    if k == 0 then size else Grown(size * mult, mult, k - 1)
  }

  lemma GrownStep(size: real, mult: real, k: nat)
    requires k > 0
    ensures Grown(size, mult, k) == Grown(size * mult, mult, k - 1)
  {
  }

  lemma TotalOfPrefix(ladder: seq<Quote>, rest: seq<Quote>, i: nat)
    requires ladder != [] && rest == ladder[1..] && 1 <= i <= |ladder|
    ensures TotalSize(ladder[..i]) == ladder[0].size + TotalSize(rest[..i - 1])
  {
    assert ladder[..i][1..] == rest[..i - 1];
  }

  lemma {:induction false} LevelsInFull(cfg: LadderConfig, spec: LadderSpec, p: Pricing, k: nat, levelSize: real, budget: real, headroom: real, i: nat)
    requires i <= |LevelsFrom(cfg, spec, p, k, levelSize, budget, headroom)|
    ensures var ladder := LevelsFrom(cfg, spec, p, k, levelSize, budget, headroom);
            var size, used := Grown(levelSize, SizeMult(cfg), i), TotalSize(ladder[..i]);
            && (i < |ladder| <==> LevelFits(cfg, spec, p, k + i, size, budget - used, headroom - used))
            && (i < |ladder| ==> ladder[i].size == LevelSize(spec, size, budget - used, headroom - used) && ladder[i].price == PriceOf(cfg, spec, p, k + i))
    decreases i
  {
    hide RoundDown, PriceOf, PriceStands, MinQuoteSize, LevelsFrom, LevelFits, LevelSize;
    if LevelFits(cfg, spec, p, k, levelSize, budget, headroom) {
      var size, ladder, rest := LadderStep(cfg, spec, p, k, levelSize, budget, headroom);
      if i == 0 {
        assert TotalSize(ladder[..0]) == 0.0;
      } else {
        LevelsInFull(cfg, spec, p, k + 1, NextSize(cfg, levelSize), budget - size, headroom - size, i - 1);
        TotalOfPrefix(ladder, rest, i);
        assert budget - size - TotalSize(rest[..i - 1]) == budget - TotalSize(ladder[..i]);
        assert headroom - size - TotalSize(rest[..i - 1]) == headroom - TotalSize(ladder[..i]);
        assert NextSize(cfg, levelSize) == levelSize * SizeMult(cfg);
        GrownStep(levelSize, SizeMult(cfg), i);
        if i < |ladder| {
          assert ladder[i] == rest[i - 1];
        }
      }
    } else {
      NoLevel(cfg, spec, p, k, levelSize, budget, headroom);
    }
  }

  /** The whole ladder, level by level: level i is there exactly when it is configured, both remainders still hold a
      minimum size, its price is positive and does not meet the other side's best, and what is left for it is not
      below the minimum; and then it is its configured size or what is left, rounded down. */
  lemma LadderIsExact(cfg: LadderConfig, spec: LadderSpec, p: Pricing, orderSize: real, budget: real, inventory: real, limit: real, i: nat)
    requires i <= |Levels(cfg, spec, p, orderSize, budget, inventory, limit)|
    ensures var ladder := Levels(cfg, spec, p, orderSize, budget, inventory, limit);
            var mult := if cfg.levelSizeMult > 0.0 then cfg.levelSizeMult else 1.0;
            var levels := if cfg.quoteLevels >= 1 then cfg.quoteLevels else 1;
            var least := if spec.baseSized && spec.minSize < 1.0 then 1.0 else spec.minSize;
            var used, price := TotalSize(ladder[..i]), PriceOf(cfg, spec, p, i);
            var left := Min(budget - used, (if p.side == Buy then limit - inventory else inventory - limit) - used);
            var size := RoundDown(Min(Grown(orderSize, mult, i), left), spec.sizeStep);
            && (i < |ladder| <==>
                && i < levels && left >= spec.minSize && size >= least && price > 0.0
                && (p.opposite > 0.0 ==> if p.side == Buy then price < p.opposite else price > p.opposite))
            && (i < |ladder| ==> ladder[i] == Quote(p.side, price, size))
  {
    hide RoundDown, PriceOf, LevelsFrom, Grown, TotalSize;
    var headroom := Headroom(p.side, inventory, limit);
    LevelsInFull(cfg, spec, p, 0, orderSize, budget, headroom, i);
    LadderIsWellFormed(cfg, spec, p, 0, orderSize, budget, headroom);
    assert SizeMult(cfg) == if cfg.levelSizeMult > 0.0 then cfg.levelSizeMult else 1.0;
    var ladder := Levels(cfg, spec, p, orderSize, budget, inventory, limit);
    var used := TotalSize(ladder[..i]);
    assert Min(budget - used, headroom - used) == Min(budget - used, (if p.side == Buy then limit - inventory else inventory - limit) - used);
  }

  /** Prices step away from the market: no level is better than an earlier one. */
  lemma PricesStepOut(cfg: LadderConfig, spec: LadderSpec, p: Pricing, j: nat, k: nat)
    requires j <= k && p.ref >= 0.0 && cfg.levelSpreadStepBPS >= 0.0
    ensures !Better(p.side, PriceOf(cfg, spec, p, k), PriceOf(cfg, spec, p, j))
  {
    hide RoundDown, RoundUp, RawPrice;
    RawPricesStepOut(cfg, p, j, k);
    match p.side {
      case Buy => RoundDownMonotone(RawPrice(cfg, p, k), RawPrice(cfg, p, j), spec.tickSize);
      case Sell => RoundUpMonotone(RawPrice(cfg, p, j), RawPrice(cfg, p, k), spec.tickSize);
    }
  }

  lemma RawPricesStepOut(cfg: LadderConfig, p: Pricing, j: nat, k: nat)
    requires j <= k && p.ref >= 0.0 && cfg.levelSpreadStepBPS >= 0.0
    ensures !Better(p.side, RawPrice(cfg, p, k), RawPrice(cfg, p, j))
  {
    hide Distance;
    DistanceSteps(cfg, p, j, k);
    if p.side == Buy {
      Product(p.ref, Distance(cfg, p, k), Distance(cfg, p, j));
    } else {
      Product(p.ref, Distance(cfg, p, j), Distance(cfg, p, k));
    }
  }

  lemma OffsetGrows(cfg: LadderConfig, j: nat, k: nat)
    requires j <= k && cfg.levelSpreadStepBPS >= 0.0
    ensures Offset(cfg, j) <= Offset(cfg, k)
  {
    hide StepFraction;
    ScaleWeakly(j as real, k as real, StepFraction(cfg));
  }

  lemma DistanceSteps(cfg: LadderConfig, p: Pricing, j: nat, k: nat)
    requires j <= k && cfg.levelSpreadStepBPS >= 0.0
    ensures if p.side == Buy then Distance(cfg, p, k) <= Distance(cfg, p, j) else Distance(cfg, p, j) <= Distance(cfg, p, k)
  {
    hide Offset;
    OffsetGrows(cfg, j, k);
  }

  // ----- one side's result -----

  /** The single best quote a side is sized at. */
  function BestSize(spec: LadderSpec, orderSize: real, capacity: real): real {
    RoundDown(Min(orderSize, capacity), spec.sizeStep)
  }

  predicate SideQuotes(spec: LadderSpec, side: Side, orderSize: real, capacity: real, inventory: real, limit: real) {
    var size := BestSize(spec, orderSize, capacity);
    size >= MinQuoteSize(spec) &&
    match side
    case Buy => inventory + size <= limit
    case Sell => inventory - size >= limit
  }

  function BestQuote(cfg: LadderConfig, spec: LadderSpec, p: Pricing, orderSize: real, capacity: real, inventory: real, limit: real): Option<Quote> {
    if SideQuotes(spec, p.side, orderSize, capacity, inventory, limit)
    then Some(Quote(p.side, PriceOf(cfg, spec, p, 0), BestSize(spec, orderSize, capacity))) else None
  }

  /** The ladder a side puts out: nothing unless the best quote stands. */
  function SideLevels(cfg: LadderConfig, spec: LadderSpec, p: Pricing, orderSize: real, capacity: real, inventory: real, limit: real): seq<Quote> {
    if SideQuotes(spec, p.side, orderSize, capacity, inventory, limit) then Levels(cfg, spec, p, orderSize, capacity, inventory, limit) else []
  }

  /** A side quotes at all exactly when its best size is not too small and, filled whole, stays within the limit; without
      a best quote there is no ladder. */
  lemma SideQuotesExactlyWithinTheLimit(cfg: LadderConfig, spec: LadderSpec, p: Pricing, orderSize: real, capacity: real, inventory: real, limit: real)
    ensures var size := RoundDown(Min(orderSize, capacity), spec.sizeStep);
            var least := if spec.baseSized && spec.minSize < 1.0 then 1.0 else spec.minSize;
            var best := BestQuote(cfg, spec, p, orderSize, capacity, inventory, limit);
            && (best.Some? <==> (size >= least && (if p.side == Buy then inventory + size <= limit else inventory - size >= limit)))
            && (best.Some? ==> best.value == Quote(p.side, PriceOf(cfg, spec, p, 0), size))
            && (best.None? ==> SideLevels(cfg, spec, p, orderSize, capacity, inventory, limit) == [])
  {
    hide RoundDown, PriceOf, Levels;
  }

  /** With one more cap that the best size does not breach, the size is still the best size. */
  lemma HeadroomDoesNotShrinkTheBest(spec: LadderSpec, orderSize: real, capacity: real, headroom: real)
    requires BestSize(spec, orderSize, capacity) <= headroom
    ensures LevelSize(spec, orderSize, capacity, headroom) == BestSize(spec, orderSize, capacity)
  {
    var free, capped := Min(orderSize, capacity), Min(orderSize, Min(capacity, headroom));
    if capped != free && spec.sizeStep > 0.0 {
      RoundDownMonotone(capped, free, spec.sizeStep);
      RoundDownKeepsMultiples(Steps(free, spec.sizeStep), capped, spec.sizeStep);
    }
  }

  /** Level 0 of the ladder is the single best quote, and a ladder is empty beside a standing best quote
      exactly when the capacity is under the minimum size -- which the rounding tolerance lets the best
      size itself overlook. */
  lemma LevelZeroIsTheBestQuote(cfg: LadderConfig, spec: LadderSpec, p: Pricing, orderSize: real, capacity: real, inventory: real, limit: real)
    requires SideQuotes(spec, p.side, orderSize, capacity, inventory, limit) && PriceStands(p, PriceOf(cfg, spec, p, 0))
    ensures var ladder := Levels(cfg, spec, p, orderSize, capacity, inventory, limit);
            && (ladder != [] <==> capacity >= spec.minSize)
            && (ladder != [] ==> Some(ladder[0]) == BestQuote(cfg, spec, p, orderSize, capacity, inventory, limit))
  {
    hide RoundDown, PriceOf, PriceStands;
    var headroom := Headroom(p.side, inventory, limit);
    HeadroomDoesNotShrinkTheBest(spec, orderSize, capacity, headroom);
    assert LevelsFrom(cfg, spec, p, 0, orderSize, capacity, headroom) == Levels(cfg, spec, p, orderSize, capacity, inventory, limit);
  }

  /** A best quote beside an empty ladder: capacity a ten-billionth under the minimum size rounds up to it, and
      the ladder compares it unrounded. */
  lemma BestQuoteWithoutALadder()
    ensures var spec, cfg, p := LadderSpec(1.0, 1.0, 0.0, false), LadderConfig(3, 100.0, 1.0), Pricing(Buy, 100.0, 0.0, 0.0, 0.0);
            && BestQuote(cfg, spec, p, 2.0, 0.9999999999, 0.0, 10.0) == Some(Quote(Buy, 100.0, 1.0))
            && Levels(cfg, spec, p, 2.0, 0.9999999999, 0.0, 10.0) == []
  {
    var spec, cfg, p := LadderSpec(1.0, 1.0, 0.0, false), LadderConfig(3, 100.0, 1.0), Pricing(Buy, 100.0, 0.0, 0.0, 0.0);
    assert PriceOf(cfg, spec, p, 0) == 100.0;
    assert BestSize(spec, 2.0, 0.9999999999) == 1.0 by {
      assert 0.9999999999 / 1.0 + NUDGE == 1.0000000009;
    }
  }

  /** What one side commits -- its ladder, or the best quote alone -- exceeds neither capacity nor
      headroom by more than the rounding tolerance. */
  lemma SideWithinLimits(cfg: LadderConfig, spec: LadderSpec, p: Pricing, orderSize: real, capacity: real, inventory: real, limit: real)
    ensures var total := TotalSize(TargetsOf(SideLevels(cfg, spec, p, orderSize, capacity, inventory, limit),
                                             BestQuote(cfg, spec, p, orderSize, capacity, inventory, limit)));
            && total <= Max(0.0, capacity + Slack(spec.sizeStep))
            && total <= Max(0.0, Headroom(p.side, inventory, limit) + Slack(spec.sizeStep))
  {
    hide RoundDown, PriceOf, PriceStands, LevelsFrom;
    LadderWithinBudget(cfg, spec, p, 0, orderSize, capacity, Headroom(p.side, inventory, limit));
    RoundDownBounds(Min(orderSize, capacity), spec.sizeStep);
  }
}
