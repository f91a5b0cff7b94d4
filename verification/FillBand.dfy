/** Keeping the engine future's quotes inside the chain's fill band (FutureBandEdges, Admits and
    QuotingCutoff in margin.go; applyMarginEngineFuture, clampLevels and stepTick in future.go). */
module FillBand {
  import opened Market
  import opened Rounding
  import opened FeeBound

  // ----- the band -----

  /** The last prices the chain admits, in 18 decimals. */
  function BandEdges(index: nat, width: nat): (int, int) {
    var maxDiff := index * width / WEI;
    (index - maxDiff, index + maxDiff)
  }

  function Gap(p: int, q: int): nat {
    if p < q then q - p else p - q
  }

  /** The chain's own test of a fill price. */
  predicate ChainAdmits(index: nat, width: nat, p: int) {
    Gap(p, index) * WEI <= index * width
  }

  /** The edges admit exactly the integer prices the chain admits. */
  lemma EdgesAreExact(index: nat, width: nat, p: int)
    ensures var (low, high) := BandEdges(index, width);
            low <= p <= high <==> ChainAdmits(index, width, p)
  {
    var room := index * width;
    DivisionAdmits(Gap(p, index), room);
  }

  lemma DivisionAdmits(gap: nat, room: nat)
    ensures gap <= room / WEI <==> gap * WEI <= room
  {
    assert room == room / WEI * WEI + room % WEI;
  }

  /** What a cycle read about the future. The raw edges are None when they were not read. */
  datatype Future = Future(
    edges: Option<(int, int)>,
    bandLow: real,
    bandHigh: real,
    lastTrade: int,
    fixingStart: int,
    settled: bool)

  /** The chain's test on the price as it is signed. */
  predicate Admits(f: Future, price: real) {
    f.edges.Some? && price > 0.0 && f.edges.value.0 <= SignedPrice(price) <= f.edges.value.1
  }

  /** With the chain's own edges a price is admitted exactly when the chain admits it as it is signed. */
  lemma AdmittedAsTheChainDoes(f: Future, index: nat, width: nat, price: real)
    requires f.edges == Some(BandEdges(index, width))
    ensures Admits(f, price) <==> price > 0.0 && ChainAdmits(index, width, SignedPrice(price))
  {
    hide SignedPrice, BandEdges, ChainAdmits;
    EdgesAreExact(index, width, SignedPrice(price));
  }

  lemma RoundingMonotone(x: real, y: real)
    requires x <= y
    ensures RoundHalfEven(x) <= RoundHalfEven(y)
  {
  }

  lemma SigningMonotone(p: real, q: real)
    requires p <= q
    ensures SignedPrice(p) <= SignedPrice(q)
  {
    hide RoundHalfEven;
    Scale(p, q, WEI as real);
    RoundingMonotone(p * WEI as real, q * WEI as real);
  }

  /** Every price between two admitted ones is admitted. */
  lemma AdmittedBetween(f: Future, a: real, price: real, b: real)
    requires Admits(f, a) && Admits(f, b) && a <= price <= b
    ensures Admits(f, price)
  {
    hide SignedPrice;
    SigningMonotone(a, price);
    SigningMonotone(price, b);
  }

  function QuotingCutoff(f: Future, before: int): int {
    (if f.lastTrade < f.fixingStart then f.lastTrade else f.fixingStart) - before
  }

  // ----- stepping the edges -----

  const MAX_EDGE_STEPS := 4

  /** One tick up or down, on the grid. */
  function StepTick(price: real, tick: real, direction: int): real {
    if tick <= 0.0 then price else Multiple(RoundHalfAway(price / tick) + direction, tick)
  }

  /** The low edge after at most n steps inward. */
  function LowAfter(f: Future, low: real, high: real, tick: real, n: nat): real
    decreases n
  {
    if n == 0 || low > high || Admits(f, low) then low else LowAfter(f, StepTick(low, tick, 1), high, tick, n - 1)
  }

  function HighAfter(f: Future, low: real, high: real, tick: real, n: nat): real
    decreases n
  {
    if n == 0 || low > high || Admits(f, high) then high else HighAfter(f, low, StepTick(high, tick, -1), tick, n - 1)
  }

  /** On the grid a step is exactly one tick. */
  lemma StepTickIsOneTick(n: int, tick: real, direction: int)
    requires tick > 0.0
    ensures StepTick(Multiple(n, tick), tick, direction) == Multiple(n + direction, tick)
  {
    assert Multiple(n, tick) / tick == n as real;
    hide Multiple;
  }

  predicate TickAdmitted(f: Future, tick: real, k: int) {
    Admits(f, Multiple(k, tick))
  }

  /** The low edge moves inward by the fewest ticks that reach an admitted price, at most n. */
  lemma {:induction false} LowMovesFewestTicks(f: Future, m: int, high: real, tick: real, n: nat) returns (i: nat)
    requires tick > 0.0
    ensures i <= n && LowAfter(f, Multiple(m, tick), high, tick, n) == Multiple(m + i, tick)
    ensures forall k :: m <= k < m + i ==> !TickAdmitted(f, tick, k)
    ensures i < n ==> Multiple(m + i, tick) > high || TickAdmitted(f, tick, m + i)
    decreases n
  {
    hide Multiple, Admits, StepTick;
    var low := Multiple(m, tick);
    if n == 0 || low > high || Admits(f, low) {
      i := 0;
    } else {
      StepTickIsOneTick(m, tick, 1);
      var next := LowMovesFewestTicks(f, m + 1, high, tick, n - 1);
      i := next + 1;
    }
  }

  lemma {:induction false} HighMovesFewestTicks(f: Future, low: real, m: int, tick: real, n: nat) returns (i: nat)
    requires tick > 0.0
    ensures i <= n && HighAfter(f, low, Multiple(m, tick), tick, n) == Multiple(m - i, tick)
    ensures forall k :: m - i < k <= m ==> !TickAdmitted(f, tick, k)
    ensures i < n ==> low > Multiple(m - i, tick) || TickAdmitted(f, tick, m - i)
    decreases n
  {
    hide Multiple, Admits, StepTick;
    var high := Multiple(m, tick);
    if n == 0 || low > high || Admits(f, high) {
      i := 0;
    } else {
      StepTickIsOneTick(m, tick, -1);
      var next := HighMovesFewestTicks(f, low, m - 1, tick, n - 1);
      i := next + 1;
    }
  }

  method StepEdges(f: Future, low0: real, high0: real, tick: real) returns (low: real, high: real)
    ensures low == LowAfter(f, low0, high0, tick, MAX_EDGE_STEPS)
    ensures high == HighAfter(f, low, high0, tick, MAX_EDGE_STEPS)
  {
    low, high := low0, high0;
    var i := 0;
    while i < MAX_EDGE_STEPS && low <= high && !Admits(f, low)
      invariant 0 <= i <= MAX_EDGE_STEPS
      invariant LowAfter(f, low, high, tick, MAX_EDGE_STEPS - i) == LowAfter(f, low0, high0, tick, MAX_EDGE_STEPS)
    {
      low := StepTick(low, tick, 1);
      i := i + 1;
    }
    i := 0;
    while i < MAX_EDGE_STEPS && low <= high && !Admits(f, high)
      invariant 0 <= i <= MAX_EDGE_STEPS
      invariant HighAfter(f, low, high, tick, MAX_EDGE_STEPS - i) == HighAfter(f, low, high0, tick, MAX_EDGE_STEPS)
    {
      high := StepTick(high, tick, -1);
      i := i + 1;
    }
  }

  // ----- clamping -----

  /** Where a level goes: moved in the safe direction only, or off the ladder. */
  function Clamped(q: Quote, side: Side, low: real, high: real): Option<Quote> {
    match side
    case Buy => if q.price < low then None else Some(q.(price := Min(q.price, high)))
    case Sell => if q.price > high then None else Some(q.(price := Max(q.price, low)))
  }

  /** The clamped ladder; a price already taken is not quoted twice. */
  function Clamp(levels: seq<Quote>, side: Side, low: real, high: real): seq<Quote> {
    if levels == [] then []
    else
      var out, c := Clamp(levels[..|levels| - 1], side, low, high), Clamped(levels[|levels| - 1], side, low, high);
      if c.None? || HasPrice(out, c.value.price) then out else out + [c.value]
  }

  predicate HasPrice(quotes: seq<Quote>, price: real) {
    exists i :: 0 <= i < |quotes| && quotes[i].price == price
  }

  method ClampLevels(levels: seq<Quote>, side: Side, low: real, high: real) returns (out: seq<Quote>)
    ensures out == Clamp(levels, side, low, high)
  {
    out := [];
    var seen: set<real> := {};
    for i := 0 to |levels|
      invariant out == Clamp(levels[..i], side, low, high)
      invariant forall price :: price in seen <==> HasPrice(out, price)
    {
      assert levels[..i + 1][..i] == levels[..i];
      var level := levels[i];
      if side == Buy {
        if level.price < low {
          continue;
        }
        if level.price > high {
          level := level.(price := high);
        }
      } else {
        if level.price > high {
          continue;
        }
        if level.price < low {
          level := level.(price := low);
        }
      }
      if level.price in seen {
        continue;
      }
      ghost var before := out;
      seen := seen + {level.price};
      out := out + [level];
      assert forall price :: HasPrice(out, price) <==> HasPrice(before, price) || price == level.price by {
        HasPriceGrows(before, level);
      }
    }
    assert levels[..|levels|] == levels;
  }

  lemma HasPriceGrows(quotes: seq<Quote>, q: Quote)
    ensures forall price :: HasPrice(quotes + [q], price) <==> HasPrice(quotes, price) || price == q.price
  {
    forall price ensures HasPrice(quotes + [q], price) <==> HasPrice(quotes, price) || price == q.price {
      if HasPrice(quotes, price) {
        var i :| 0 <= i < |quotes| && quotes[i].price == price;
        assert (quotes + [q])[i].price == price;
      }
      assert (quotes + [q])[|quotes|] == q;
    }
  }

  // ----- what clamping keeps -----

  /** No level better than an earlier one. */
  ghost predicate BestFirst(side: Side, quotes: seq<Quote>) {
    forall i, j :: 0 <= i < j < |quotes| ==> !Better(side, quotes[j].price, quotes[i].price)
  }

  /** Every level strictly worse than the ones before it: distinct prices too. */
  ghost predicate StrictlyBestFirst(side: Side, quotes: seq<Quote>) {
    forall i, j :: 0 <= i < j < |quotes| ==> Better(side, quotes[i].price, quotes[j].price)
  }

  /** A level that is some target's, with only the price moved away from the market or not at all. */
  ghost predicate MovedFrom(levels: seq<Quote>, side: Side, q: Quote) {
    exists i :: 0 <= i < |levels| && q == levels[i].(price := q.price) && !Better(side, q.price, levels[i].price)
  }

  ghost predicate ClampGood(levels: seq<Quote>, side: Side, low: real, high: real, out: seq<Quote>) {
    && StrictlyBestFirst(side, out)
    && (forall i :: 0 <= i < |out| ==> low <= out[i].price <= high && MovedFrom(levels, side, out[i]))
  }

  /** Clamping moves bids only down and asks only up, into [low, high], and leaves the ladder strictly
      best first. */
  lemma {:induction false} ClampIsGood(levels: seq<Quote>, side: Side, low: real, high: real)
    requires BestFirst(side, levels) && low <= high
    ensures ClampGood(levels, side, low, high, Clamp(levels, side, low, high))
  {
    if levels != [] {
      var init, last := levels[..|levels| - 1], levels[|levels| - 1];
      ClampIsGood(init, side, low, high);
      var before, c := Clamp(init, side, low, high), Clamped(last, side, low, high);
      forall i | 0 <= i < |before| ensures MovedFrom(levels, side, before[i]) {
        MovedFromMore(init, last, side, before[i]);
      }
      if c.Some? && !HasPrice(before, c.value.price) {
        assert levels[|levels| - 1] == last;
        assert MovedFrom(levels, side, c.value);
        forall i | 0 <= i < |before| ensures Better(side, before[i].price, c.value.price) {
          LaterIsWorse(init, last, side, low, high, i);
          assert before[i].price != c.value.price;
        }
      }
    }
  }

  /** Every level on the fillable side of the band keeps its place, a bid not below the low edge or an ask not above
      the high one: at its own price if that is inside, else at the edge. */
  lemma {:induction false} NoLevelIsLost(levels: seq<Quote>, side: Side, low: real, high: real, k: nat)
    requires k < |levels| && if side == Buy then levels[k].price >= low else levels[k].price <= high
    ensures var price := levels[k].price;
            HasPrice(Clamp(levels, side, low, high), if side == Buy then (if price > high then high else price) else (if price < low then low else price))
  {
    var init := levels[..|levels| - 1];
    var before := Clamp(init, side, low, high);
    if k < |init| {
      NoLevelIsLost(init, side, low, high, k);
    }
    var c := Clamped(levels[|levels| - 1], side, low, high);
    if c.Some? {
      HasPriceGrows(before, c.value);
    }
  }

  lemma MovedFromMore(init: seq<Quote>, last: Quote, side: Side, q: Quote)
    requires MovedFrom(init, side, q)
    ensures MovedFrom(init + [last], side, q)
  {
    var i :| 0 <= i < |init| && q == init[i].(price := q.price) && !Better(side, q.price, init[i].price);
    assert (init + [last])[i] == init[i];
  }

  /** What a level is clamped to is not better than what an earlier level was clamped to. */
  lemma {:induction false} LaterIsWorse(init: seq<Quote>, last: Quote, side: Side, low: real, high: real, i: nat)
    requires BestFirst(side, init + [last]) && low <= high
    requires Clamped(last, side, low, high).Some? && i < |Clamp(init, side, low, high)|
    ensures !Better(side, Clamped(last, side, low, high).value.price, Clamp(init, side, low, high)[i].price)
  {
    var k := ClampedFrom(init, side, low, high, i);
    assert (init + [last])[k] == init[k] && (init + [last])[|init|] == last;
  }

  /** Which level a clamped one came from. */
  lemma {:induction false} ClampedFrom(levels: seq<Quote>, side: Side, low: real, high: real, i: nat) returns (k: nat)
    requires i < |Clamp(levels, side, low, high)|
    ensures k < |levels| && Clamped(levels[k], side, low, high) == Some(Clamp(levels, side, low, high)[i])
  {
    var init := levels[..|levels| - 1];
    if i < |Clamp(init, side, low, high)| {
      k := ClampedFrom(init, side, low, high, i);
    } else {
      k := |levels| - 1;
    }
  }

  // ----- one cycle's quotes on the future -----

  datatype Quotes = Quotes(bids: seq<Quote>, asks: seq<Quote>)

  const NO_QUOTES: Quotes := Quotes([], [])

  datatype BandConfig = BandConfig(bufferBPS: real, cutoffBefore: int, tick: real)

  /** The chain's edges with the buffer taken off inwards. */
  function BufferedLow(cfg: BandConfig, f: Future): real {
    f.bandLow * (1.0 + cfg.bufferBPS / 10000.0)
  }

  function BufferedHigh(cfg: BandConfig, f: Future): real {
    f.bandHigh * (1.0 - cfg.bufferBPS / 10000.0)
  }

  function StartLow(cfg: BandConfig, f: Future): real {
    RoundUp(BufferedLow(cfg, f), cfg.tick)
  }

  function StartHigh(cfg: BandConfig, f: Future): real {
    RoundDown(BufferedHigh(cfg, f), cfg.tick)
  }

  /** Whether the future may be quoted at all now. */
  predicate Open(cfg: BandConfig, future: Option<Future>, now: int) {
    future.Some? && !future.value.settled && now < QuotingCutoff(future.value, cfg.cutoffBefore)
  }

  /** The band the levels are clamped to, None when there is no admitted one. */
  function BandOf(cfg: BandConfig, f: Future): Option<(real, real)> {
    var low := LowAfter(f, StartLow(cfg, f), StartHigh(cfg, f), cfg.tick, MAX_EDGE_STEPS);
    var high := HighAfter(f, low, StartHigh(cfg, f), cfg.tick, MAX_EDGE_STEPS);
    if low <= 0.0 || high < low || !Admits(f, low) || !Admits(f, high) then None else Some((low, high))
  }

  function OnFuture(cfg: BandConfig, future: Option<Future>, now: int, q: Quotes): Quotes {
    if !Open(cfg, future, now) || BandOf(cfg, future.value).None? then NO_QUOTES
    else
      var (low, high) := BandOf(cfg, future.value).value;
      Quotes(Clamp(q.bids, Buy, low, high), Clamp(q.asks, Sell, low, high))
  }

  method ApplyMarginEngineFuture(cfg: BandConfig, future: Option<Future>, now: int, q: Quotes) returns (out: Quotes)
    ensures out == OnFuture(cfg, future, now, q)
  {
    hide Admits, StepTick, Clamp, LowAfter, HighAfter, RoundUp, RoundDown;
    if future.None? || future.value.settled || now >= QuotingCutoff(future.value, cfg.cutoffBefore) {
      return NO_QUOTES;
    }
    var f := future.value;
    var low, high := StepEdges(f, StartLow(cfg, f), StartHigh(cfg, f), cfg.tick);
    if low <= 0.0 || high < low || !Admits(f, low) || !Admits(f, high) {
      return NO_QUOTES;
    }
    var bids := ClampLevels(q.bids, Buy, low, high);
    var asks := ClampLevels(q.asks, Sell, low, high);
    out := Quotes(bids, asks);
  }

  /** The band reaches as far as it can: whenever some tick within the allowed steps in from each start is admitted,
      and the two are in order, there is a band, and it is no narrower. */
  lemma BandIsFoundWhereReachable(cfg: BandConfig, f: Future, m: int, h: int, i: nat, j: nat)
    requires cfg.tick > 0.0 && StartLow(cfg, f) == Multiple(m, cfg.tick) && StartHigh(cfg, f) == Multiple(h, cfg.tick)
    requires i <= MAX_EDGE_STEPS && j <= MAX_EDGE_STEPS && TickAdmitted(f, cfg.tick, m + i) && TickAdmitted(f, cfg.tick, h - j)
    requires Multiple(m + i, cfg.tick) <= Multiple(h - j, cfg.tick)
    ensures BandOf(cfg, f).Some?
    ensures BandOf(cfg, f).value.0 <= Multiple(m + i, cfg.tick) && BandOf(cfg, f).value.1 >= Multiple(h - j, cfg.tick)
  {
    hide Multiple, LowAfter, HighAfter, StartLow, StartHigh;
    var tick := cfg.tick;
    var a := LowMovesFewestTicks(f, m, Multiple(h, tick), tick, MAX_EDGE_STEPS);
    MultipleMonotone(m + a, m + i, tick);
    MultipleMonotone(h - j, h, tick);
    var b := HighMovesFewestTicks(f, Multiple(m + a, tick), h, tick, MAX_EDGE_STEPS);
    MultipleMonotone(h - j, h - b, tick);
    assert Admits(f, Multiple(m + a, tick)) && Admits(f, Multiple(h - b, tick));
  }

  /** A band is in order, positive, and admitted at both ends. */
  lemma BandIsAdmitted(cfg: BandConfig, f: Future)
    requires BandOf(cfg, f).Some?
    ensures var (low, high) := BandOf(cfg, f).value; 0.0 < low <= high && Admits(f, low) && Admits(f, high)
  {
    hide LowAfter, HighAfter, StartLow, StartHigh;
  }

  lemma {:induction false} NoTickNoSteps(f: Future, low: real, high: real, tick: real, n: nat)
    requires tick <= 0.0
    ensures LowAfter(f, low, high, tick, n) == low && HighAfter(f, low, high, tick, n) == high
    decreases n
  {
    hide Admits;
    if n > 0 {
      NoTickNoSteps(f, low, high, tick, n - 1);
    }
  }

  /** The buffer is so many basis points of each edge, inwards. */
  lemma BufferIsInward(cfg: BandConfig, f: Future)
    ensures (BufferedLow(cfg, f) - f.bandLow) * 10000.0 == f.bandLow * cfg.bufferBPS
    ensures (f.bandHigh - BufferedHigh(cfg, f)) * 10000.0 == f.bandHigh * cfg.bufferBPS
  {
    var share := cfg.bufferBPS / 10000.0;
    assert BufferedLow(cfg, f) == f.bandLow + f.bandLow * share;
    assert BufferedHigh(cfg, f) == f.bandHigh - f.bandHigh * share;
  }

  /** The band keeps the buffer to both edges of the chain's, up to the rounding tolerance. */
  lemma BandKeepsTheBuffer(cfg: BandConfig, f: Future)
    requires BandOf(cfg, f).Some?
    ensures var (low, high) := BandOf(cfg, f).value;
            low >= BufferedLow(cfg, f) - Slack(cfg.tick) && high <= BufferedHigh(cfg, f) + Slack(cfg.tick)
  {
    hide Admits, LowAfter, HighAfter, RoundUp, RoundDown, Multiple, Slack, BufferedLow, BufferedHigh;
    var rawLow, rawHigh := BufferedLow(cfg, f), BufferedHigh(cfg, f);
    RoundUpBounds(rawLow, cfg.tick);
    RoundDownBounds(rawHigh, cfg.tick);
    var _, m := RoundedToWholeSteps(rawLow, cfg.tick);
    var h, _ := RoundedToWholeSteps(rawHigh, cfg.tick);
    if cfg.tick <= 0.0 {
      NoTickNoSteps(f, StartLow(cfg, f), StartHigh(cfg, f), cfg.tick, MAX_EDGE_STEPS);
    } else {
      var a := LowMovesFewestTicks(f, m, StartHigh(cfg, f), cfg.tick, MAX_EDGE_STEPS);
      var b := HighMovesFewestTicks(f, BandOf(cfg, f).value.0, h, cfg.tick, MAX_EDGE_STEPS);
      MultipleMonotone(m, m + a, cfg.tick);
      MultipleMonotone(h - b, h, cfg.tick);
    }
  }

  ghost predicate SideInBand(f: Future, side: Side, levels: seq<Quote>, out: seq<Quote>) {
    && StrictlyBestFirst(side, out)
    && forall i :: 0 <= i < |out| ==> Admits(f, out[i].price) && MovedFrom(levels, side, out[i])
  }

  ghost predicate Uncrossed(q: Quotes) {
    forall i, j :: 0 <= i < |q.bids| && 0 <= j < |q.asks| ==> q.bids[i].price < q.asks[j].price
  }

  lemma SideClampIsInBand(cfg: BandConfig, f: Future, side: Side, levels: seq<Quote>)
    requires BestFirst(side, levels) && BandOf(cfg, f).Some?
    ensures var (low, high) := BandOf(cfg, f).value; SideInBand(f, side, levels, Clamp(levels, side, low, high))
  {
    hide Admits, LowAfter, HighAfter, Clamp, MovedFrom;
    var (low, high) := BandOf(cfg, f).value;
    ClampIsGood(levels, side, low, high);
    var out := Clamp(levels, side, low, high);
    forall i | 0 <= i < |out| ensures Admits(f, out[i].price) {
      AdmittedBetween(f, low, out[i].price, high);
    }
  }

  /** What is left of a cycle's quotes: nothing at or after the cutoff, on a settled series, or without
      an admitted band; otherwise every level is admitted as it will be signed, bids have only moved
      down and asks only up, sizes are as they were, and the ladders are strictly best first and do not
      cross. */
  lemma QuotesAreFillable(cfg: BandConfig, future: Option<Future>, now: int, q: Quotes)
    requires BestFirst(Buy, q.bids) && BestFirst(Sell, q.asks) && Uncrossed(q)
    ensures var out := OnFuture(cfg, future, now, q);
            && (out != NO_QUOTES ==>
                && future.Some? && !future.value.settled
                && now + cfg.cutoffBefore < future.value.fixingStart && now + cfg.cutoffBefore < future.value.lastTrade
                && SideInBand(future.value, Buy, q.bids, out.bids) && SideInBand(future.value, Sell, q.asks, out.asks))
            && Uncrossed(out)
  {
    hide Admits, BandOf, Clamp, StrictlyBestFirst;
    if Open(cfg, future, now) && BandOf(cfg, future.value).Some? {
      SideClampIsInBand(cfg, future.value, Buy, q.bids);
      SideClampIsInBand(cfg, future.value, Sell, q.asks);
      var out := OnFuture(cfg, future, now, q);
      forall i, j | 0 <= i < |out.bids| && 0 <= j < |out.asks| ensures out.bids[i].price < out.asks[j].price {
        MovedApart(q, out.bids[i], out.asks[j]);
      }
    }
  }

  /** Before the cutoff, on a series that is not settled and has a band, every bid not below it and every ask not above
      it is still quoted, at its own price or at the edge. */
  lemma FillableLevelsAreQuoted(cfg: BandConfig, f: Future, now: int, q: Quotes, side: Side, k: nat)
    requires !f.settled && now + cfg.cutoffBefore < f.fixingStart && now + cfg.cutoffBefore < f.lastTrade && BandOf(cfg, f).Some?
    requires k < |if side == Buy then q.bids else q.asks|
    requires var price := (if side == Buy then q.bids else q.asks)[k].price;
             if side == Buy then price >= BandOf(cfg, f).value.0 else price <= BandOf(cfg, f).value.1
    ensures var (low, high) := BandOf(cfg, f).value;
            var price := (if side == Buy then q.bids else q.asks)[k].price;
            var out := OnFuture(cfg, Some(f), now, q);
            if side == Buy then HasPrice(out.bids, if price > high then high else price) else HasPrice(out.asks, if price < low then low else price)
  {
    hide BandOf, Clamp, HasPrice;
    var (low, high) := BandOf(cfg, f).value;
    NoLevelIsLost(if side == Buy then q.bids else q.asks, side, low, high, k);
  }

  lemma MovedApart(q: Quotes, bid: Quote, ask: Quote)
    requires Uncrossed(q) && MovedFrom(q.bids, Buy, bid) && MovedFrom(q.asks, Sell, ask)
    ensures bid.price < ask.price
  {
    var i :| 0 <= i < |q.bids| && bid == q.bids[i].(price := bid.price) && !Better(Buy, bid.price, q.bids[i].price);
    var j :| 0 <= j < |q.asks| && ask == q.asks[j].(price := ask.price) && !Better(Sell, ask.price, q.asks[j].price);
    assert q.bids[i].price < q.asks[j].price;
  }
}
