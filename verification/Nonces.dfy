/** Order identities (allocateIdentities in bot.go and NonceAllocator in nonces.go), with the 64-bit
    arithmetic they are computed in. */
module Nonces {
  import opened Market
  import opened Decimals
  import Protocol = ControlProtocol

  const U64: int := 0x1_0000_0000_0000_0000

  /** uint64 of an integer. */
  function Wrap(x: int): (r: nat)
    ensures r < U64 && (0 <= x < U64 ==> r == x)
  {
    x % U64
  }

  /** Twice the clock, in 64 bits at each operation. */
  function ClockBase(micros: int): nat {
    Wrap(Wrap(micros) * 2)
  }

  function Even(base: nat): nat {
    if base % 2 != 0 then Wrap(base + 1) else base
  }

  function BaseFrom(floor: nat, next: nat, micros: int): nat {
    var clocked := if ClockBase(micros) > floor then ClockBase(micros) else floor;
    Even(if next > clocked then next else clocked)
  }

  class NonceAllocator {
    var next: nat

    constructor ()
      ensures next == 0
    {
      next := 0;
    }

    /** An even base for `width` nonces, at least the caller's own, and past every range handed out
        before -- as long as nothing wraps. */
    method Base(floor: nat, width: nat, micros: int) returns (base: nat)
      requires floor < U64 && next < U64
      modifies this
      ensures base == BaseFrom(floor, old(next), micros) && next == Wrap(base + width)
      ensures base < U64 && base % 2 == 0
      ensures 2 * micros < U64 && 0 <= micros && floor < U64 - 1 && old(next) < U64 - 1 ==>
                base >= floor && base >= old(next) && base >= 2 * micros
    {
      base := floor;
      var clock := Wrap(Wrap(micros) * 2);
      if clock > base {
        base := clock;
      }
      if next > base {
        base := next;
      }
      if base % 2 != 0 {
        base := Wrap(base + 1);
      }
      next := Wrap(base + width);
    }
  }

  // ----- several bots on one allocator -----

  datatype Call = Call(bot: nat, floor: nat, width: nat, micros: int)

  /** Where the allocator stands before the i-th call. */
  function NextBefore(calls: seq<Call>, i: nat): nat
    requires i <= |calls|
    decreases i, 0
  {
    if i == 0 then 0 else Wrap(BaseAt(calls, i - 1) + calls[i - 1].width)
  }

  /** The base handed out by the i-th call. */
  function BaseAt(calls: seq<Call>, i: nat): nat
    requires i < |calls|
    decreases i, 1
  {
    BaseFrom(calls[i].floor, NextBefore(calls, i), calls[i].micros)
  }

  /** No clock, floor or range reaches 2^64. */
  ghost predicate Fits(calls: seq<Call>) {
    forall i :: 0 <= i < |calls| ==>
      0 <= 2 * calls[i].micros < U64 && calls[i].floor < U64 - 1 && BaseAt(calls, i) + calls[i].width < U64 - 1
  }

  lemma BaseFromBounds(floor: nat, next: nat, micros: int)
    requires 0 <= 2 * micros < U64 && floor < U64 - 1 && next < U64 - 1
    ensures var base := BaseFrom(floor, next, micros); base >= floor && base >= next && base % 2 == 0
  {
  }

  lemma NextIsAbove(calls: seq<Call>, j: nat)
    requires Fits(calls) && j < |calls|
    ensures BaseAt(calls, j) % 2 == 0 && BaseAt(calls, j) >= calls[j].floor
    ensures j > 0 ==> BaseAt(calls, j - 1) + calls[j - 1].width <= BaseAt(calls, j)
  {
    hide BaseFrom;
    BaseFromBounds(calls[j].floor, NextBefore(calls, j), calls[j].micros);
  }

  lemma {:induction false} LaterIsAbove(calls: seq<Call>, i: nat, j: nat)
    requires Fits(calls) && i < j < |calls|
    ensures BaseAt(calls, i) + calls[i].width <= BaseAt(calls, j)
    decreases j
  {
    hide BaseAt, Fits;
    NextIsAbove(calls, j);
    if i < j - 1 {
      LaterIsAbove(calls, i, j - 1);
    }
  }

  /** Bots sharing an allocator get disjoint ranges, each with an even base at or above the bot's own
      floor, whatever order they ask in and however the clock jumps about. */
  lemma RangesAreDisjoint(calls: seq<Call>, i: nat, j: nat, m: nat, n: nat)
    requires Fits(calls) && i < |calls| && j < |calls| && i != j
    requires BaseAt(calls, i) <= m < BaseAt(calls, i) + calls[i].width
    requires BaseAt(calls, j) <= n < BaseAt(calls, j) + calls[j].width
    ensures m != n
    ensures BaseAt(calls, i) % 2 == 0 && BaseAt(calls, i) >= calls[i].floor
  {
    hide BaseAt, Fits;
    NextIsAbove(calls, i);
    if i < j {
      LaterIsAbove(calls, i, j);
    } else {
      LaterIsAbove(calls, j, i);
    }
  }

  /** Everything one process hands out ends where its allocator stands. */
  lemma RangeEndsBelowNext(calls: seq<Call>, i: nat)
    requires Fits(calls) && i < |calls|
    ensures BaseAt(calls, i) + calls[i].width <= NextBefore(calls, |calls|)
  {
    hide BaseAt, Fits;
    LastEndsAtNext(calls);
    if i < |calls| - 1 {
      LaterIsAbove(calls, i, |calls| - 1);
    }
  }

  lemma LastEndsAtNext(calls: seq<Call>)
    requires Fits(calls) && calls != []
    ensures BaseAt(calls, |calls| - 1) + calls[|calls| - 1].width == NextBefore(calls, |calls|)
  {
    hide BaseFrom;
  }

  /** A new process starts an empty allocator, and each bot knows only its own floor: two bots stay apart
      across the restart as long as the clock has passed everything handed out before. */
  lemma RestartOnALaterClockIsDisjoint(before: seq<Call>, after: seq<Call>, i: nat, j: nat, m: nat, n: nat)
    requires Fits(before) && Fits(after) && i < |before| && j < |after|
    requires 2 * after[j].micros >= NextBefore(before, |before|)
    requires BaseAt(before, i) <= m < BaseAt(before, i) + before[i].width && BaseAt(after, j) <= n
    ensures m < n
  {
    RangeEndsBelowNext(before, i);
    ClockIsAFloor(after[j].floor, NextBefore(after, j), after[j].micros);
  }

  lemma ClockIsAFloor(floor: nat, next: nat, micros: int)
    requires 0 <= 2 * micros < U64 && floor < U64 - 1 && next < U64 - 1
    ensures BaseFrom(floor, next, micros) >= 2 * micros
  {
  }

  /** What the next call will hand out, from what its caller can see beforehand. */
  function NextBaseOf(floor: nat, next: nat, micros: int): nat {
    var top := if 2 * micros > floor then 2 * micros else floor;
    var base := if next > top then next else top;
    if base % 2 != 0 then base + 1 else base
  }

  predicate Spans(base: nat, width: nat, n: nat) {
    base <= n < base + width
  }

  /** Exactly when a call after a restart keeps clear of one before it: its base, the largest of its own floor,
      the new allocator's mark and twice the clock, is past that range, or ends before it. */
  lemma RestartIsDisjointIff(before: seq<Call>, after: seq<Call>, i: nat, j: nat)
    requires Fits(before) && Fits(after) && i < |before| && j < |after| && before[i].width > 0 && after[j].width > 0
    ensures var base := NextBaseOf(after[j].floor, NextBefore(after, j), after[j].micros);
            && base == BaseAt(after, j)
            && ((forall n: nat :: !(Spans(BaseAt(before, i), before[i].width, n) && Spans(base, after[j].width, n)))
                <==> BaseAt(before, i) + before[i].width <= base || base + after[j].width <= BaseAt(before, i))
  {
    ShortOfAWrap(after[j].floor, NextBefore(after, j), after[j].micros);
    IntervalsApart(BaseAt(before, i), before[i].width, BaseAt(after, j), after[j].width);
  }

  lemma ShortOfAWrap(floor: nat, next: nat, micros: int)
    requires 0 <= 2 * micros < U64 && floor < U64 - 1 && next < U64 - 1
    ensures BaseFrom(floor, next, micros) == NextBaseOf(floor, next, micros)
  {
  }

  lemma IntervalsApart(a: nat, v: nat, b: nat, w: nat)
    requires v > 0 && w > 0
    ensures (forall n: nat :: !(Spans(a, v, n) && Spans(b, w, n))) <==> a + v <= b || b + w <= a
  {
    var shared := if a < b then b else a;
    assert Spans(a, v, shared) && Spans(b, w, shared) <==> a + v > b && b + w > a;
  }

  /** On a clock that stood still over the restart one bot is handed another's nonces again. */
  lemma RestartOnTheSameClockReuses()
    ensures var before := [Call(0, 0, 4, 500), Call(1, 0, 4, 500)];
            var after := [Call(0, 1004, 4, 500)];
            && Fits(before) && Fits(after)
            && after[0].floor == BaseAt(before, 0) + before[0].width
            && BaseAt(after, 0) == BaseAt(before, 1)
  {
    var before := [Call(0, 0, 4, 500), Call(1, 0, 4, 500)];
    var after := [Call(0, 1004, 4, 500)];
    assert BaseAt(before, 0) == 1000;
    assert BaseAt(before, 1) == 1004;
    assert BaseAt(after, 0) == 1004;
  }

  /** The whole of the promise at one call: the next range starts past this one exactly when this one
      ends below 2^64. */
  lemma NextIsPastIffItFits(base: nat, width: nat)
    requires base < U64 && 0 < width <= U64
    ensures (forall n: nat :: n < width ==> NonceAt(base, n) < Wrap(base + width)) <==> base + width < U64
  {
    if base + width < U64 {
      forall n: nat | n < width ensures NonceAt(base, n) < Wrap(base + width) {
      }
    } else {
      var n: nat := if base + width == U64 then 0 else U64 - 1 - base;
      assert n < width && NonceAt(base, n) >= Wrap(base + width);
    }
  }

  /** The n-th nonce of a range. */
  function NonceAt(base: nat, n: nat): nat {
    Wrap(base + n)
  }

  /** A clock one microsecond before 1970 wraps to the very top: the allocation after it starts over and
      hands out a nonce a second time. */
  lemma AWrappedClockReusesANonce()
    ensures var calls := [Call(0, 0, 2, 500), Call(0, 1002, 4, -1), Call(0, 2, 2, 500)];
            && BaseAt(calls, 0) == BaseAt(calls, 2) == 1000
            && calls[1].floor == BaseAt(calls, 0) + calls[0].width
            && calls[2].floor == Wrap(BaseAt(calls, 1) + calls[1].width)
  {
    var calls := [Call(0, 0, 2, 500), Call(0, 1002, 4, -1), Call(0, 2, 2, 500)];
    assert BaseAt(calls, 0) == 1000;
    assert Wrap(-1) == U64 - 1;
    assert ClockBase(-1) == U64 - 2;
    assert BaseAt(calls, 1) == U64 - 2;
    assert Wrap(U64 - 2 + 4) == 2;
  }

  /** Short of a wrap the single bot's base is the one the protocol model allocates from. */
  lemma SingleBotBase(floor: nat, micros: nat)
    requires 2 * micros < U64 && floor < U64 - 1
    ensures BaseFrom(floor, 0, micros) == Protocol.NextBase(floor, micros)
  {
  }

  // ----- identities -----

  function SideName(side: Side): string {
    match side
    case Buy => "buy"
    case Sell => "sell"
  }

  function BuildIdentity(market: string, side: Side, nonce: nat): Identity {
    Identity("mm:" + market + ":" + SideName(side) + ":" + Digits(nonce), nonce)
  }

  /** Buy levels get even offsets, sell levels odd. */
  function Ladder(market: string, side: Side, base: nat, levels: nat): (ids: seq<Identity>)
    ensures |ids| == levels
  {
    seq(levels, k requires 0 <= k < levels => BuildIdentity(market, side, NonceAt(base, 2 * k + if side == Sell then 1 else 0)))
  }

  method BuildLadders(market: string, base: nat, quoteLevels: int) returns (bids: seq<Identity>, asks: seq<Identity>, next: nat)
    requires base < U64
    ensures var levels := if quoteLevels < 1 then 1 else quoteLevels;
            bids == Ladder(market, Buy, base, levels) && asks == Ladder(market, Sell, base, levels) && next == Wrap(base + 2 * levels)
  {
    hide Wrap, Digits, NonceAt, BuildIdentity;
    var levels: nat := if quoteLevels < 1 then 1 else quoteLevels;
    bids, asks := [], [];
    for k := 0 to levels
      invariant bids == Ladder(market, Buy, base, levels)[..k] && asks == Ladder(market, Sell, base, levels)[..k]
    {
      var bidNonce := NonceAt(base, 2 * k);
      var askNonce := NonceAt(base, 2 * k + 1);
      bids := bids + [BuildIdentity(market, Buy, bidNonce)];
      asks := asks + [BuildIdentity(market, Sell, askNonce)];
    }
    next := Wrap(base + 2 * levels);
  }

  lemma SameTail(prefix: string, a: string, b: string)
    requires prefix + a == prefix + b
    ensures a == b
  {
    assert a == (prefix + a)[|prefix|..] && b == (prefix + b)[|prefix|..];
  }

  /** An order id tells its side and its nonce. */
  lemma OrderIDIsUnique(market: string, a: Side, m: nat, b: Side, n: nat)
    requires BuildIdentity(market, a, m).orderID == BuildIdentity(market, b, n).orderID
    ensures a == b && m == n
  {
    var head := "mm:" + market + ":";
    var x, y := SideName(a) + ":" + Digits(m), SideName(b) + ":" + Digits(n);
    assert BuildIdentity(market, a, m).orderID == head + x && BuildIdentity(market, b, n).orderID == head + y;
    SameTail(head, x, y);
    assert x[0] == y[0];
    assert a == b;
    SameTail(SideName(a) + ":", Digits(m), Digits(n));
    DigitsRoundTrip(m);
    DigitsRoundTrip(n);
  }

  ghost predicate AllDistinct(ids: seq<Identity>) {
    forall i, j :: 0 <= i < j < |ids| ==> ids[i].orderID != ids[j].orderID && ids[i].nonce != ids[j].nonce
  }

  lemma LadderIdentity(market: string, side: Side, base: nat, levels: nat, k: nat)
    requires k < levels && base + 2 * levels < U64
    ensures Ladder(market, side, base, levels)[k] == BuildIdentity(market, side, base + 2 * k + if side == Sell then 1 else 0)
  {
  }

  /** Every order of both ladders has its own nonce and its own id, all below the next base. */
  lemma IdentitiesAreDistinct(market: string, base: nat, levels: nat)
    requires base + 2 * levels < U64
    ensures var ids := Ladder(market, Buy, base, levels) + Ladder(market, Sell, base, levels);
            AllDistinct(ids) && forall i :: 0 <= i < |ids| ==> base <= ids[i].nonce < base + 2 * levels
  {
    hide Wrap, Digits, NonceAt, Ladder;
    var bids, asks := Ladder(market, Buy, base, levels), Ladder(market, Sell, base, levels);
    var ids := bids + asks;
    forall i | 0 <= i < |ids|
      ensures var side := if i < levels then Buy else Sell;
              var k := if i < levels then i else i - levels;
              ids[i] == BuildIdentity(market, side, base + 2 * k + if side == Sell then 1 else 0)
    {
      LadderIdentity(market, if i < levels then Buy else Sell, base, levels, if i < levels then i else i - levels);
    }
    forall i, j | 0 <= i < j < |ids| ensures ids[i].orderID != ids[j].orderID && ids[i].nonce != ids[j].nonce {
      if ids[i].orderID == ids[j].orderID {
        OrderIDIsUnique(market, if i < levels then Buy else Sell, ids[i].nonce, if j < levels then Buy else Sell, ids[j].nonce);
      }
    }
  }
}
