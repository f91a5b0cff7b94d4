/** The external anchor's cache (ZeroExUSDCCNGNSpotExternalAnchor.Fetch, cachedIfFresh and absBPS in
    anchor.go) over every sequence of fetches. The clock is read several times in one fetch. */
module AnchorCache {
  import opened Market
  import opened Rounding

  /** `interval` is 0 for a provider read on every cycle. */
  datatype AnchorConfig = AnchorConfig(maxAge: int, maxDeviationBPS: real, interval: int)

  /** A price and when upstream says it is from, if it says. */
  datatype Entry = Entry(price: real, fetchedAt: Option<int>)

  datatype Cache = Cache(last: Option<Entry>, lastFetch: int)

  datatype Reply = Unavailable | Got(entry: Entry)

  /** One call: the clock at the throttle, at the age check, at the guard and at the stamp, and what
      upstream answers if it is asked. */
  datatype Turn = Turn(asked: int, checked: int, guarded: int, stamped: int, reply: Reply)

  datatype Served = Served(entry: Option<Entry>, attempted: bool, failed: bool)

  predicate Ordered(t: Turn) {
    t.asked <= t.checked <= t.guarded <= t.stamped
  }

  function AbsBPS(a: real, b: real): real {
    if a <= 0.0 || b <= 0.0 then 0.0 else Abs(a - b) / b * 10000.0
  }

  /** An unknown time is infinitely long ago. */
  predicate OlderThan(e: Entry, maxAge: int, now: int) {
    e.fetchedAt.None? || now - e.fetchedAt.value > maxAge
  }

  predicate Throttled(cfg: AnchorConfig, c: Cache, t: Turn) {
    cfg.interval > 0 && c.last.Some? && t.asked - c.lastFetch < cfg.interval
  }

  /** A positive price that upstream does not date too far back. */
  predicate Usable(cfg: AnchorConfig, t: Turn) {
    t.reply.Got? && t.reply.entry.price > 0.0
    && (t.reply.entry.fetchedAt.Some? ==> t.checked - t.reply.entry.fetchedAt.value <= cfg.maxAge)
  }

  predicate GuardApplies(cfg: AnchorConfig, c: Cache, t: Turn) {
    c.last.Some? && cfg.maxDeviationBPS > 0.0 && !OlderThan(c.last.value, cfg.maxAge, t.guarded)
  }

  predicate Jumps(cfg: AnchorConfig, c: Cache, t: Turn) {
    GuardApplies(cfg, c, t) && t.reply.Got? && AbsBPS(t.reply.entry.price, c.last.value.price) > cfg.maxDeviationBPS
  }

  predicate Accepts(cfg: AnchorConfig, c: Cache, t: Turn) {
    !Throttled(cfg, c, t) && Usable(cfg, t) && !Jumps(cfg, c, t)
  }

  function CachedIfFresh(cfg: AnchorConfig, c: Cache, now: int): Option<Entry> {
    if c.last.None? || OlderThan(c.last.value, cfg.maxAge, now) then None else c.last
  }

  function Fetched(cfg: AnchorConfig, c: Cache, t: Turn): (Cache, Served) {
    if Throttled(cfg, c, t) then (c, Served(c.last, false, false))
    else if !Usable(cfg, t) then (c, Served(CachedIfFresh(cfg, c, t.checked), true, true))
    else if Jumps(cfg, c, t) then (c.(lastFetch := t.stamped), Served(c.last, true, true))
    else (Cache(Some(t.reply.entry), t.stamped), Served(Some(t.reply.entry), true, false))
  }

  class Anchor {
    const cfg: AnchorConfig
    var last: Option<Entry>
    var lastFetchWall: int

    constructor (cfg: AnchorConfig)
      ensures this.cfg == cfg && last.None?
    {
      this.cfg, last, lastFetchWall := cfg, None, 0;
    }

    method Fetch(t: Turn) returns (out: Served)
      modifies this
      ensures (Cache(last, lastFetchWall), out) == Fetched(cfg, old(Cache(last, lastFetchWall)), t)
    {
      if cfg.interval > 0 && last.Some? && t.asked - lastFetchWall < cfg.interval {
        return Served(last, false, false);
      }
      if t.reply.Unavailable? || t.reply.entry.price <= 0.0
         || (t.reply.entry.fetchedAt.Some? && t.checked - t.reply.entry.fetchedAt.value > cfg.maxAge) {
        return Served(CachedIfFresh(cfg, Cache(last, lastFetchWall), t.checked), true, true);
      }
      var quote := t.reply.entry;
      if last.Some? && cfg.maxDeviationBPS > 0.0 && !OlderThan(last.value, cfg.maxAge, t.guarded) {
        if AbsBPS(quote.price, last.value.price) > cfg.maxDeviationBPS {
          lastFetchWall := t.stamped;
          return Served(last, true, true);
        }
      }
      last, lastFetchWall := Some(quote), t.stamped;
      out := Served(last, true, false);
    }
  }

  // ----- one fetch -----

  /** Within the deviation allowed of a positive price. */
  predicate Near(cfg: AnchorConfig, price: real, held: real) {
    -cfg.maxDeviationBPS * held <= (price - held) * 10000.0 <= cfg.maxDeviationBPS * held
  }

  lemma AbsBPSIsRelative(cfg: AnchorConfig, price: real, held: real)
    requires price > 0.0 && held > 0.0
    ensures AbsBPS(price, held) <= cfg.maxDeviationBPS <==> Near(cfg, price, held)
  {
    var share := Abs(price - held) / held;
    assert share * held == Abs(price - held);
    assert AbsBPS(price, held) == share * 10000.0;
    if share * 10000.0 <= cfg.maxDeviationBPS {
      ScaleWeakly(share * 10000.0, cfg.maxDeviationBPS, held);
    } else {
      Scale(cfg.maxDeviationBPS, share * 10000.0, held);
    }
    assert share * 10000.0 * held == Abs(price - held) * 10000.0;
  }

  /** A usable price that upstream is asked for is taken exactly when no price is held, none is guarded, the held one
      has aged out, or the new one is near it. */
  lemma TakenExactlyWhenNear(cfg: AnchorConfig, c: Cache, t: Turn)
    requires c.last.Some? ==> c.last.value.price > 0.0
    requires !Throttled(cfg, c, t) && Usable(cfg, t)
    ensures var (after, out) := Fetched(cfg, c, t);
            var aged := c.last.Some? && (c.last.value.fetchedAt.None? || t.guarded - c.last.value.fetchedAt.value > cfg.maxAge);
            if c.last.None? || cfg.maxDeviationBPS <= 0.0 || aged || Near(cfg, t.reply.entry.price, c.last.value.price)
            then after == Cache(Some(t.reply.entry), t.stamped) && out == Served(Some(t.reply.entry), true, false)
            else after.last == c.last && after.lastFetch == t.stamped && out == Served(c.last, true, true)
  {
    if c.last.Some? {
      AbsBPSIsRelative(cfg, t.reply.entry.price, c.last.value.price);
    }
  }

  /** When upstream has no usable price the held one is served, as a failure, exactly while it is dated and within the
      maximum age; nothing else changes. */
  lemma FreshPriceOutlivesUpstream(cfg: AnchorConfig, c: Cache, t: Turn)
    requires !Throttled(cfg, c, t) && !Usable(cfg, t)
    ensures var (after, out) := Fetched(cfg, c, t);
            && after == c && out.attempted && out.failed
            && out.entry == (if c.last.Some? && c.last.value.fetchedAt.Some? && t.checked - c.last.value.fetchedAt.value <= cfg.maxAge then c.last else None)
  {
  }

  /** Between two requests upstream is left alone for a whole interval, whether the last one was taken or refused as too
      far off; a provider without an interval is asked every time. */
  lemma UpstreamIsLeftAlone(cfg: AnchorConfig, c: Cache, t: Turn, next: Turn)
    requires !Throttled(cfg, c, t) && Usable(cfg, t)
    ensures Throttled(cfg, Fetched(cfg, c, t).0, next) <==> cfg.interval > 0 && next.asked < t.stamped + cfg.interval
    ensures Throttled(cfg, Fetched(cfg, c, t).0, next) ==>
              Fetched(cfg, Fetched(cfg, c, t).0, next) == (Fetched(cfg, c, t).0, Served(Fetched(cfg, c, t).0.last, false, false))
  {
  }

  // ----- runs -----

  const EMPTY: Cache := Cache(None, 0)

  function After(cfg: AnchorConfig, turns: seq<Turn>): Cache {
    if turns == [] then EMPTY else Fetched(cfg, After(cfg, turns[..|turns| - 1]), turns[|turns| - 1]).0
  }

  /** The clock never goes back, within a call or between calls. */
  ghost predicate Forward(turns: seq<Turn>) {
    (forall i :: 0 <= i < |turns| ==> Ordered(turns[i])) &&
    forall i, j :: 0 <= i < j < |turns| ==> turns[i].stamped <= turns[j].asked
  }

  /** No call takes longer than `lag` from its age check to its stamp. */
  ghost predicate Prompt(turns: seq<Turn>, lag: int) {
    forall i :: 0 <= i < |turns| ==> turns[i].stamped - turns[i].checked <= lag
  }

  ghost predicate FreshWhenStamped(cfg: AnchorConfig, c: Cache, lag: int) {
    c.last.Some? && c.last.value.fetchedAt.Some? ==> c.lastFetch - c.last.value.fetchedAt.value <= cfg.maxAge + lag
  }

  lemma {:induction false} CacheIsFreshWhenStamped(cfg: AnchorConfig, turns: seq<Turn>, lag: int)
    requires Forward(turns) && Prompt(turns, lag)
    ensures FreshWhenStamped(cfg, After(cfg, turns), lag)
  {
    if turns != [] {
      CacheIsFreshWhenStamped(cfg, turns[..|turns| - 1], lag);
      assert Ordered(turns[|turns| - 1]);
    }
  }

  /** When the last call of a run answers: at once if throttled, else at its stamp. */
  function AnsweredAt(cfg: AnchorConfig, turns: seq<Turn>): int
    requires turns != []
  {
    var t := turns[|turns| - 1];
    if Throttled(cfg, After(cfg, turns[..|turns| - 1]), t) then t.asked else t.stamped
  }

  function Answer(cfg: AnchorConfig, turns: seq<Turn>): Served
    requires turns != []
  {
    Fetched(cfg, After(cfg, turns[..|turns| - 1]), turns[|turns| - 1]).1
  }

  /** In every sequence of fetches a served price of known date is no older than the maximum age plus the
      refresh interval, plus the time a call spends between checking an age and stamping it; a price
      served from the throttle is strictly younger. */
  lemma ServedPriceIsFresh(cfg: AnchorConfig, turns: seq<Turn>, lag: int)
    requires turns != [] && Forward(turns) && Prompt(turns, lag) && cfg.interval >= 0
    requires Answer(cfg, turns).entry.Some? && Answer(cfg, turns).entry.value.fetchedAt.Some?
    ensures AnsweredAt(cfg, turns) - Answer(cfg, turns).entry.value.fetchedAt.value <= cfg.maxAge + cfg.interval + lag
  {
    CacheIsFreshWhenStamped(cfg, turns[..|turns| - 1], lag);
    assert Ordered(turns[|turns| - 1]);
  }

  /** The bound without the lag is missed when the clock moves between the check and the stamp. */
  lemma LagShows()
    ensures var cfg := AnchorConfig(100, 0.0, 15);
            var turns := [Turn(0, 100, 100, 105, Got(Entry(1.0, Some(0)))), Turn(119, 119, 119, 119, Unavailable)];
            Forward(turns) && Answer(cfg, turns).entry == Some(Entry(1.0, Some(0))) && AnsweredAt(cfg, turns) - 0 > cfg.maxAge + cfg.interval
  {
    var cfg := AnchorConfig(100, 0.0, 15);
    var turns := [Turn(0, 100, 100, 105, Got(Entry(1.0, Some(0)))), Turn(119, 119, 119, 119, Unavailable)];
    assert turns[..1][..0] == [];
    assert After(cfg, turns[..1]) == Cache(Some(Entry(1.0, Some(0))), 105);
  }

  /** Every price of known date served in such a sequence is within the maximum age plus the interval. */
  ghost predicate NeverOlder(cfg: AnchorConfig, lag: int) {
    forall turns :: turns != [] && Forward(turns) && Prompt(turns, lag) && Answer(cfg, turns).entry.Some? && Answer(cfg, turns).entry.value.fetchedAt.Some? ==>
      AnsweredAt(cfg, turns) - Answer(cfg, turns).entry.value.fetchedAt.value <= cfg.maxAge + cfg.interval
  }

  /** The lag a bound without it forgives: one tick of the clock where prices are throttled, none otherwise. */
  function Forgiven(cfg: AnchorConfig): int {
    if cfg.interval > 0 then 1 else 0
  }

  /** A fetch that takes `lag` from its check to its stamp. */
  function SlowFetch(cfg: AnchorConfig, lag: int): Turn {
    Turn(cfg.maxAge, cfg.maxAge, cfg.maxAge, cfg.maxAge + lag, Got(Entry(1.0, Some(0))))
  }

  /** The last moment at which the throttle still serves it. */
  function LastServed(cfg: AnchorConfig, lag: int): Turn {
    var at := cfg.maxAge + lag + cfg.interval - 1;
    Turn(at, at, at, at, Unavailable)
  }

  lemma SlowFetchIsLate(cfg: AnchorConfig, lag: int)
    requires cfg.interval >= 0 && lag > Forgiven(cfg)
    ensures !NeverOlder(cfg, lag)
  {
    var first, second := SlowFetch(cfg, lag), LastServed(cfg, lag);
    assert [first][..0] == [];
    assert After(cfg, [first]) == Cache(Some(Entry(1.0, Some(0))), cfg.maxAge + lag);
    if cfg.interval > 0 {
      var turns := [first, second];
      assert turns[..1] == [first];
      assert Forward(turns) && Prompt(turns, lag);
      assert Answer(cfg, turns).entry == Some(Entry(1.0, Some(0))) && AnsweredAt(cfg, turns) == cfg.maxAge + lag + cfg.interval - 1;
    } else {
      var turns := [first];
      assert Forward(turns) && Prompt(turns, lag);
      assert Answer(cfg, turns).entry == Some(Entry(1.0, Some(0))) && AnsweredAt(cfg, turns) == cfg.maxAge + lag;
    }
  }

  lemma ForgivenLagIsNotSeen(cfg: AnchorConfig, turns: seq<Turn>, lag: int)
    requires turns != [] && Forward(turns) && Prompt(turns, lag) && cfg.interval >= 0 && lag <= Forgiven(cfg)
    requires Answer(cfg, turns).entry.Some? && Answer(cfg, turns).entry.value.fetchedAt.Some?
    ensures AnsweredAt(cfg, turns) - Answer(cfg, turns).entry.value.fetchedAt.value <= cfg.maxAge + cfg.interval
  {
    CacheIsFreshWhenStamped(cfg, turns[..|turns| - 1], lag);
    assert Ordered(turns[|turns| - 1]);
  }

  /** Served prices keep to the maximum age plus the refresh interval in every sequence of calls that take no
      more than a lag if and only if that lag is at most one tick of the clock, or none for a provider read
      on every cycle. */
  lemma BoundHoldsIffPrompt(cfg: AnchorConfig, lag: int)
    requires cfg.interval >= 0
    ensures NeverOlder(cfg, lag) <==> lag <= Forgiven(cfg)
  {
    if lag <= Forgiven(cfg) {
      forall turns | turns != [] && Forward(turns) && Prompt(turns, lag) && Answer(cfg, turns).entry.Some? && Answer(cfg, turns).entry.value.fetchedAt.Some?
        ensures AnsweredAt(cfg, turns) - Answer(cfg, turns).entry.value.fetchedAt.value <= cfg.maxAge + cfg.interval
      {
        ForgivenLagIsNotSeen(cfg, turns, lag);
      }
    } else {
      SlowFetchIsLate(cfg, lag);
    }
  }

  /** A price upstream does not date is stamped by the fetch that brought it and by none after. */
  ghost predicate StampedBy(cfg: AnchorConfig, turns: seq<Turn>, i: nat) {
    i < |turns| && turns[i].reply.Got? && After(cfg, turns).last == Some(turns[i].reply.entry) && After(cfg, turns).lastFetch == turns[i].stamped
  }

  lemma {:induction false} UndatedKeepsItsStamp(cfg: AnchorConfig, turns: seq<Turn>) returns (i: nat)
    requires After(cfg, turns).last.Some? && After(cfg, turns).last.value.fetchedAt.None?
    ensures StampedBy(cfg, turns, i)
  {
    var init, t := turns[..|turns| - 1], turns[|turns| - 1];
    if Accepts(cfg, After(cfg, init), t) {
      i := |turns| - 1;
    } else {
      i := UndatedKeepsItsStamp(cfg, init);
    }
  }

  /** It is served by that fetch, or from the throttle less than one interval after; once the throttle has run
      out a failed refresh serves nothing of it. */
  lemma UndatedPriceIsRecent(cfg: AnchorConfig, turns: seq<Turn>) returns (i: nat)
    requires turns != [] && Answer(cfg, turns).entry.Some? && Answer(cfg, turns).entry.value.fetchedAt.None?
    ensures i < |turns| && turns[i].reply.Got? && Answer(cfg, turns).entry.value == turns[i].reply.entry
    ensures i == |turns| - 1 || AnsweredAt(cfg, turns) - turns[i].stamped < cfg.interval
  {
    var init, t := turns[..|turns| - 1], turns[|turns| - 1];
    if Accepts(cfg, After(cfg, init), t) {
      i := |turns| - 1;
    } else {
      i := UndatedKeepsItsStamp(cfg, init);
    }
  }

  /** An accepted price within the guard: no further from the previous accepted one than the deviation
      allowed, whenever that one was still within the maximum age; and once it is not, no usable price
      is refused for its distance. */
  lemma AcceptedPriceIsGuarded(cfg: AnchorConfig, turns: seq<Turn>, t: Turn)
    requires cfg.maxDeviationBPS > 0.0 && After(cfg, turns).last.Some?
    ensures var previous := After(cfg, turns).last.value;
            && (Accepts(cfg, After(cfg, turns), t) && !OlderThan(previous, cfg.maxAge, t.guarded) ==>
                AbsBPS(t.reply.entry.price, previous.price) <= cfg.maxDeviationBPS)
            && (OlderThan(previous, cfg.maxAge, t.guarded) && Usable(cfg, t) && !Throttled(cfg, After(cfg, turns), t) ==>
                After(cfg, turns + [t]).last == Some(t.reply.entry))
  {
    assert (turns + [t])[..|turns|] == turns;
  }

  /** What is held is always the last price accepted, positive: a refused or failed fetch changes nothing
      but the throttle. */
  lemma {:induction false} HeldIsLastAccepted(cfg: AnchorConfig, turns: seq<Turn>) returns (i: nat)
    requires After(cfg, turns).last.Some?
    ensures i < |turns| && Accepts(cfg, After(cfg, turns[..i]), turns[i]) && After(cfg, turns).last == Some(turns[i].reply.entry)
    ensures After(cfg, turns).last.value.price > 0.0
    ensures forall j :: i < j < |turns| ==> !Accepts(cfg, After(cfg, turns[..j]), turns[j])
  {
    var init, t := turns[..|turns| - 1], turns[|turns| - 1];
    if Accepts(cfg, After(cfg, init), t) {
      i := |turns| - 1;
    } else {
      i := HeldIsLastAccepted(cfg, init);
      assert init[..i] == turns[..i];
      forall j | i < j < |turns| ensures !Accepts(cfg, After(cfg, turns[..j]), turns[j]) {
        if j < |init| {
          assert init[..j] == turns[..j] && init[j] == turns[j];
        }
      }
    }
  }
}
