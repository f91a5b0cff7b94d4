/** A ladder is its own fixed point: sized again from exactly what it reserves, where that is more than the
    budget it was first sized from, it comes out the same. */
module FixedLadder {
  import opened Market
  import opened Rounding
  import opened Ladder
  import opened Exposure

  /** One more step would be above the value, tolerance included. */
  lemma RoundDownNext(value: real, step: real)
    requires step > 0.0
    ensures value + Slack(step) < RoundDown(value, step) + step
  {
    hide Multiple;
    var q := Ratio(value, step);
    var n := (q + NUDGE).Floor;
    MultipleOrder(n, q, step);
    MultipleOrder(n + 1, q + NUDGE, step);
  }

  /** A size does not change when the budget grows to no more than the size, or when it was not the budget
      that limited it. */
  lemma SameSize(free: real, budget: real, more: real, step: real)
    requires budget <= more
    requires more <= RoundDown(Min(free, budget), step)
             || (step > 0.0 && RoundDown(Min(free, budget), step) + step <= budget + Slack(step))
    ensures RoundDown(Min(free, more), step) == RoundDown(Min(free, budget), step)
  {
    hide Slack;
    var size := RoundDown(Min(free, budget), step);
    if more <= size {
      RoundDownMonotone(Min(free, budget), Min(free, more), step);
      RoundDownMonotone(Min(free, more), size, step);
      RoundDownIsStable(Min(free, budget), step);
    } else {
      RoundDownNext(Min(free, budget), step);
    }
  }

  lemma LevelSizeIs(spec: LadderSpec, levelSize: real, budget: real, headroom: real)
    ensures LevelSize(spec, levelSize, budget, headroom) == RoundDown(Min(Min(levelSize, headroom), budget), spec.sizeStep)
  {
    hide RoundDown;
  }

  ghost predicate AllAtLeast(quotes: seq<Quote>, size: real) {
    forall i :: 0 <= i < |quotes| ==> quotes[i].size >= size
  }

  lemma {:induction false} TotalAtLeast(quotes: seq<Quote>, size: real)
    requires AllAtLeast(quotes, size) && size >= 0.0
    ensures TotalSize(quotes) >= if quotes == [] then 0.0 else quotes[0].size
  {
    if quotes != [] {
      TotalAtLeast(quotes[1..], size);
    }
  }

  lemma LevelsAtLeast(cfg: LadderConfig, spec: LadderSpec, p: Pricing, k: nat, levelSize: real, budget: real, headroom: real)
    ensures AllAtLeast(LevelsFrom(cfg, spec, p, k, levelSize, budget, headroom), MinQuoteSize(spec))
  {
    hide PriceOf, PriceStands, MinQuoteSize, LevelsFrom;
    LadderIsWellFormed(cfg, spec, p, k, levelSize, budget, headroom);
  }

  /** Any further level takes at least a whole step, so the level before it was not limited by the budget. */
  lemma FurtherLevelsTakeAStep(cfg: LadderConfig, spec: LadderSpec, p: Pricing, k: nat, levelSize: real, budget: real, headroom: real)
    requires spec.minSize > 0.0 && spec.sizeStep > 0.0
    requires LevelsFrom(cfg, spec, p, k, levelSize, budget, headroom) != []
    ensures spec.sizeStep <= budget + Slack(spec.sizeStep)
  {
    hide PriceOf, PriceStands, LevelsFrom, Slack, NextSize, LevelFits, Multiple, Steps;
    if LevelFits(cfg, spec, p, k, levelSize, budget, headroom) {
      var size, ladder, rest := LadderStep(cfg, spec, p, k, levelSize, budget, headroom);
      LevelsAtLeast(cfg, spec, p, k, levelSize, budget, headroom);
      TotalAtLeast(ladder, MinQuoteSize(spec));
      var n := Steps(Min(levelSize, Min(budget, headroom)), spec.sizeStep);
      assert size == Multiple(n, spec.sizeStep);
      MultipleIsPositive(n, spec.sizeStep);
      MultipleMonotone(1, n, spec.sizeStep);
      OneStep(spec.sizeStep);
      LadderWithinBudget(cfg, spec, p, k, levelSize, budget, headroom);
    } else {
      NoLevel(cfg, spec, p, k, levelSize, budget, headroom);
    }
  }

  lemma OneStep(step: real)
    ensures Multiple(1, step) == step
  {
  }

  /** With a budget that grows to no more than the ladder's own total, the ladder stays as it is. */
  lemma {:induction false} LevelsKeep(
    cfg: LadderConfig, spec: LadderSpec, p: Pricing, k: nat, levelSize: real, budget: real, more: real, headroom: real)
    requires spec.minSize > 0.0 && budget <= more
    requires budget < more ==> more <= TotalSize(LevelsFrom(cfg, spec, p, k, levelSize, budget, headroom))
    ensures LevelsFrom(cfg, spec, p, k, levelSize, more, headroom) == LevelsFrom(cfg, spec, p, k, levelSize, budget, headroom)
    decreases if k < LevelCount(cfg) then LevelCount(cfg) - k else 0
  {
    hide PriceOf, PriceStands, LevelsFrom, Slack, NextSize, LevelSize;
    if budget < more {
      if LevelFits(cfg, spec, p, k, levelSize, budget, headroom) {
        var size, ladder, rest := LadderStep(cfg, spec, p, k, levelSize, budget, headroom);
        LevelKeepsSize(cfg, spec, p, k, levelSize, budget, more, headroom, size, rest);
        var size', ladder', rest' := LadderStep(cfg, spec, p, k, levelSize, more, headroom);
        LevelsKeep(cfg, spec, p, k + 1, NextSize(cfg, levelSize), budget - size, more - size, headroom - size);
        assert ladder == [ladder[0]] + ladder[1..] && ladder' == [ladder'[0]] + ladder'[1..];
      } else {
        NoLevel(cfg, spec, p, k, levelSize, budget, headroom);
        NoLevel(cfg, spec, p, k, levelSize, more, headroom);
      }
    }
  }

  lemma LevelKeepsSize(
    cfg: LadderConfig, spec: LadderSpec, p: Pricing, k: nat, levelSize: real, budget: real, more: real, headroom: real,
    size: real, rest: seq<Quote>)
    requires spec.minSize > 0.0 && budget < more <= size + TotalSize(rest) && size == LevelSize(spec, levelSize, budget, headroom)
    requires rest == LevelsFrom(cfg, spec, p, k + 1, NextSize(cfg, levelSize), budget - size, headroom - size)
    ensures LevelSize(spec, levelSize, more, headroom) == size
  {
    hide PriceOf, PriceStands, LevelsFrom, Slack, NextSize, LevelSize, RoundDown;
    LevelSizeIs(spec, levelSize, budget, headroom);
    LevelSizeIs(spec, levelSize, more, headroom);
    if rest != [] {
      if spec.sizeStep > 0.0 {
        FurtherLevelsTakeAStep(cfg, spec, p, k + 1, NextSize(cfg, levelSize), budget - size, headroom - size);
      } else {
        LadderWithinBudget(cfg, spec, p, k + 1, NextSize(cfg, levelSize), budget - size, headroom - size);
        NoSlack(spec.sizeStep);
      }
    }
    if rest == [] || spec.sizeStep > 0.0 {
      SameSize(Min(levelSize, headroom), budget, more, spec.sizeStep);
    }
  }

  lemma NoSlack(step: real)
    requires step <= 0.0
    ensures Slack(step) == 0.0
  {
  }

  // ----- a side's targets -----

  ghost predicate SideSame(spec: LadderSpec, orderSize: real, budget: real, more: real) {
    BestSize(spec, orderSize, more) == BestSize(spec, orderSize, budget)
  }

  /** The best size alone, where it is all that was committed. */
  lemma BestAloneKeeps(spec: LadderSpec, orderSize: real, budget: real, more: real)
    requires budget <= more <= BestSize(spec, orderSize, budget)
    ensures SideSame(spec, orderSize, budget, more)
  {
    SameSize(orderSize, budget, more, spec.sizeStep);
  }

  /** No quote at all comes of a budget that is not positive. */
  lemma NothingFromNothing(spec: LadderSpec, side: Side, orderSize: real, budget: real, inventory: real, limit: real)
    requires budget <= 0.0 < spec.minSize
    ensures !SideQuotes(spec, side, orderSize, budget, inventory, limit)
  {
    hide Multiple, Slack;
    RoundDownMonotone(Min(orderSize, budget), 0.0, spec.sizeStep);
    RoundsToZero(spec.sizeStep);
  }

  lemma RoundsToZero(step: real)
    ensures RoundDown(0.0, step) == 0.0
  {
    if step > 0.0 {
      assert Steps(0.0, step) == 0;
    }
  }

  /** The best size is the ladder's first size, and keeps with it. */
  lemma FirstSizeKeeps(cfg: LadderConfig, spec: LadderSpec, p: Pricing, orderSize: real, budget: real, more: real, inventory: real, limit: real)
    requires spec.minSize > 0.0 && budget < more && SideQuotes(spec, p.side, orderSize, budget, inventory, limit)
    requires var ladder := Levels(cfg, spec, p, orderSize, budget, inventory, limit); ladder != [] && more <= TotalSize(ladder)
    ensures SideSame(spec, orderSize, budget, more)
  {
    hide RoundDown, PriceOf, PriceStands, LevelsFrom, Slack, LevelSize, NextSize;
    var headroom := Headroom(p.side, inventory, limit);
    HeadroomDoesNotShrinkTheBest(spec, orderSize, budget, headroom);
    if LevelFits(cfg, spec, p, 0, orderSize, budget, headroom) {
      var size, ladder, rest := LadderStep(cfg, spec, p, 0, orderSize, budget, headroom);
      if rest != [] && spec.sizeStep > 0.0 {
        FurtherLevelsTakeAStep(cfg, spec, p, 1, NextSize(cfg, orderSize), budget - size, headroom - size);
        SameSize(orderSize, budget, more, spec.sizeStep);
      } else if rest != [] {
        LadderWithinBudget(cfg, spec, p, 1, NextSize(cfg, orderSize), budget - size, headroom - size);
        NoSlack(spec.sizeStep);
      } else {
        SameSize(orderSize, budget, more, spec.sizeStep);
      }
    } else {
      NoLevel(cfg, spec, p, 0, orderSize, budget, headroom);
    }
  }

  /** Where the best quote stood alone because the budget was just under the minimum, a budget of that size
      gives a ladder of that one quote. */
  lemma LoneLevel(cfg: LadderConfig, spec: LadderSpec, p: Pricing, orderSize: real, more: real, headroom: real)
    requires spec.minSize > 0.0 && more <= BestSize(spec, orderSize, more) <= headroom
    ensures var ladder := LevelsFrom(cfg, spec, p, 0, orderSize, more, headroom);
            ladder == [] || ladder == [Quote(p.side, PriceOf(cfg, spec, p, 0), BestSize(spec, orderSize, more))]
  {
    hide RoundDown, PriceOf, PriceStands, LevelsFrom, Slack, LevelSize, NextSize, BestSize;
    HeadroomDoesNotShrinkTheBest(spec, orderSize, more, headroom);
    if LevelFits(cfg, spec, p, 0, orderSize, more, headroom) {
      var size, ladder, rest := LadderStep(cfg, spec, p, 0, orderSize, more, headroom);
      NoLevel(cfg, spec, p, 1, NextSize(cfg, orderSize), more - size, headroom - size);
      assert ladder == [ladder[0]] + ladder[1..];
    } else {
      NoLevel(cfg, spec, p, 0, orderSize, more, headroom);
    }
  }

  /** Sized from a capacity between its own and what it commits, a side puts out the same quotes. */
  lemma TargetsKeep(cfg: LadderConfig, spec: LadderSpec, x: SideInput, more: real, orderSize: real, inventory: real)
    requires spec.minSize > 0.0 && x.capacity <= more <= Max(x.capacity, TotalSize(Targets(cfg, spec, x, orderSize, inventory)))
    ensures Targets(cfg, spec, x.(capacity := more), orderSize, inventory) == Targets(cfg, spec, x, orderSize, inventory)
  {
    hide RoundDown, PriceOf, PriceStands, LevelsFrom, Slack, LevelSize, NextSize, BestSize, SideQuotes;
    var p, budget := x.pricing, x.capacity;
    if budget < more {
      if !SideQuotes(spec, p.side, orderSize, budget, inventory, x.limit) {
        NothingFromNothing(spec, p.side, orderSize, more, inventory, x.limit);
      } else {
        var ladder := Levels(cfg, spec, p, orderSize, budget, inventory, x.limit);
        if ladder != [] {
          FirstSizeKeeps(cfg, spec, p, orderSize, budget, more, inventory, x.limit);
          LevelsKeep(cfg, spec, p, 0, orderSize, budget, more, Headroom(p.side, inventory, x.limit));
        } else {
          BestAloneKeeps(spec, orderSize, budget, more);
          BestFits(spec, p.side, orderSize, budget, inventory, x.limit);
          LoneLevel(cfg, spec, p, orderSize, more, Headroom(p.side, inventory, x.limit));
        }
        SameBestQuotes(spec, p.side, orderSize, budget, more, inventory, x.limit);
      }
    }
  }

  lemma BestFits(spec: LadderSpec, side: Side, orderSize: real, budget: real, inventory: real, limit: real)
    requires SideQuotes(spec, side, orderSize, budget, inventory, limit)
    ensures BestSize(spec, orderSize, budget) <= Headroom(side, inventory, limit)
  {
    hide BestSize;
  }

  lemma SameBestQuotes(spec: LadderSpec, side: Side, orderSize: real, budget: real, more: real, inventory: real, limit: real)
    requires SideSame(spec, orderSize, budget, more)
    ensures SideQuotes(spec, side, orderSize, more, inventory, limit) <==> SideQuotes(spec, side, orderSize, budget, inventory, limit)
  {
    hide BestSize;
  }
}
