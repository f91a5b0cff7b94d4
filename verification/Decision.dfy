/** The keep, suppress or cancel decision on one resting order (evaluateCancel in sync.go and the
    signed-terms rules in reconcile.go it shares with startup). */
module Decision {
  import opened Market
  import opened Pairing

  const EXPIRY_SLACK: int := 10

  datatype Reason =
    | NoTarget
    | SideMismatch
    | PostOnlyMismatch
    | ExpiryBeyondConfig
    | UnreadableWorstFee
    | WorstFeeBelowSchedule
    | Expiring
    | SizeMismatch
    | StaleOrWrong
    | CrossingOwnQuotes

  datatype Hold = MinimumLifetimeNotMet | MinimumMoveNotMet

  datatype Verdict =
    | Keep
    | Suppress(why: Hold)
    | Cancel(reason: Reason, rationed: bool)

  /** Signed to live longer than this process would sign now. */
  predicate BeyondConfig(cfg: Config, o: Order, now: int) {
    o.expiry > 0 && cfg.orderExpiry > 0 && !Protected(cfg, o.id)
    && o.expiry > now + cfg.orderExpiry + EXPIRY_SLACK
  }

  /** Why an order rests under terms this process would not sign now. `required` is None when the
      required fee bound cannot be computed or read: the fee is then not judged. */
  function StaleTerms(cfg: Config, o: Order, required: Option<int>, now: int): Option<Reason> {
    if o.postOnly != cfg.postOnly then Some(PostOnlyMismatch)
    else if BeyondConfig(cfg, o, now) then Some(ExpiryBeyondConfig)
    else if required.None? then None
    else if o.worstFee.None? then Some(UnreadableWorstFee)
    else if o.worstFee.value < required.value then Some(WorstFeeBelowSchedule)
    else None
  }

  predicate ExpiringWithin(o: Order, margin: int, now: int) {
    o.expiry > 0 && o.expiry - now <= margin
  }

  /** Sizes further apart than the absolute tolerance, five basis points and one venue quantum. */
  predicate SizeMismatched(current: real, target: real, cfg: Config, quantum: real) {
    var diff := Abs(current - target);
    var relative := Max(Abs(current), Abs(target)) * (5.0 / 10000.0);
    diff > 0.000000001 && diff > Max(Max(cfg.adoptSizeTolerance, relative), quantum)
  }

  predicate Drifted(current: real, target: real, threshold: real) {
    !Closer(PriceDrift(current, target), Bps(threshold))
  }

  /** The age of the quote: its own creation time, else the last quote update, else zero. */
  function QuoteAge(o: Order, fallback: Option<int>, now: int): int {
    match o.createdAt
    case Some(at) => now - at
    case None => if fallback.Some? then now - fallback.value else 0
  }

  predicate Crosses(side: Side, target: Quote, opposite: Option<Quote>) {
    opposite.Some? &&
    match side
    case Buy => target.price >= opposite.value.price
    case Sell => opposite.value.price >= target.price
  }

  function EvaluateCancel(
    o: Order, target: Option<Quote>, opposite: Option<Quote>, cfg: Config, fallback: Option<int>, now: int,
    quantum: real, required: Option<int>): Verdict
  {
    if target.None? then Cancel(NoTarget, false)
    else if o.side != target.value.side then Cancel(SideMismatch, false)
    else
      var stale := StaleTerms(cfg, o, required, now);
      if stale.Some? then Cancel(stale.value, false)
      else if ExpiringWithin(o, cfg.expiryMargin, now) && !Protected(cfg, o.id) then Cancel(Expiring, false)
      else if SizeMismatched(o.size, target.value.size, cfg, quantum) then Cancel(SizeMismatch, true)
      else if Drifted(o.price, target.value.price, cfg.staleBPS) then
        if cfg.minQuoteLifetime > 0 && QuoteAge(o, fallback, now) < cfg.minQuoteLifetime then Suppress(MinimumLifetimeNotMet)
        else if cfg.minReplaceMoveBPS > 0.0 && Closer(PriceDrift(o.price, target.value.price), Bps(cfg.minReplaceMoveBPS))
        then Suppress(MinimumMoveNotMet)
        else Cancel(StaleOrWrong, true)
      else if Crosses(o.side, target.value, opposite) then Cancel(CrossingOwnQuotes, false)
      else Keep
  }

  /** The terms every order left on the book carries, as judged at `now`. */
  predicate TermsHold(cfg: Config, o: Order, required: Option<int>, now: int) {
    && o.postOnly == cfg.postOnly
    && (required.Some? ==> o.worstFee.Some? && o.worstFee.value >= required.value)
    && (o.expiry > 0 && cfg.orderExpiry > 0 ==> o.expiry <= now + cfg.orderExpiry + EXPIRY_SLACK)
  }

  /** An unprotected order that is not cancelled outright -- kept, suppressed, or deferred for want of
      cancel budget -- is under terms this process would sign, with more than the margin left. */
  lemma OnlySoundTermsSurvive(
    o: Order, target: Option<Quote>, opposite: Option<Quote>, cfg: Config, fallback: Option<int>, now: int,
    quantum: real, required: Option<int>)
    requires !Protected(cfg, o.id)
    requires var v := EvaluateCancel(o, target, opposite, cfg, fallback, now, quantum, required);
             v.Cancel? ==> v.rationed
    ensures TermsHold(cfg, o, required, now)
    ensures !ExpiringWithin(o, cfg.expiryMargin, now)
  {
  }

  /** Terms that hold keep holding as the clock advances; only the margin runs down. */
  lemma TermsOutlastTheClock(cfg: Config, o: Order, required: Option<int>, now: int, later: int)
    requires TermsHold(cfg, o, required, now) && now <= later
    ensures TermsHold(cfg, o, required, later)
  {
  }

  /** An order may stay where it is: right side, terms this process would sign, more than the margin
      left (or protected), a size the venue cannot tell from the target's, a price within the stale
      threshold, and a target that does not cross the other side's best. */
  predicate MayStay(o: Order, target: Quote, opposite: Option<Quote>, cfg: Config, now: int, quantum: real, required: Option<int>) {
    && o.side == target.side && TermsHold(cfg, o.(expiry := if Protected(cfg, o.id) then 0 else o.expiry), required, now)
    && (ExpiringWithin(o, cfg.expiryMargin, now) ==> Protected(cfg, o.id))
    && !SizeMismatched(o.size, target.size, cfg, quantum)
    && Closer(PriceDrift(o.price, target.price), Bps(cfg.staleBPS))
    && !Crosses(o.side, target, opposite)
  }

  /** Right side, terms this process would sign, and more than the margin left. */
  predicate Fit(o: Order, target: Quote, cfg: Config, now: int, required: Option<int>) {
    && o.side == target.side && TermsHold(cfg, o.(expiry := if Protected(cfg, o.id) then 0 else o.expiry), required, now)
    && (ExpiringWithin(o, cfg.expiryMargin, now) ==> Protected(cfg, o.id))
  }

  /** Younger than the minimum lifetime: by its own creation time, else by the last quote update, else brand new. */
  predicate TooYoung(o: Order, cfg: Config, fallback: Option<int>, now: int) {
    var age := if o.createdAt.Some? then now - o.createdAt.value else if fallback.Some? then now - fallback.value else 0;
    cfg.minQuoteLifetime > 0 && age < cfg.minQuoteLifetime
  }

  /** Not far enough off the target to be worth a replace. */
  predicate TooSmallAMove(o: Order, target: Quote, cfg: Config) {
    cfg.minReplaceMoveBPS > 0.0 && !Drifted(o.price, target.price, cfg.minReplaceMoveBPS)
  }

  /** The verdict in full. An order is kept exactly when nothing is wrong with it. One on the wrong side, under other
      terms or about to expire is cancelled at once. A wrong size is replaced whatever the price; one whose price alone
      is wrong is held back while it is too young or the move too small, and replaced otherwise; one whose target
      crosses the other side is cancelled when its price is right. Only size and price replaces draw on the budget. */
  lemma VerdictIsExact(
    o: Order, target: Option<Quote>, opposite: Option<Quote>, cfg: Config, fallback: Option<int>, now: int, quantum: real, required: Option<int>)
    ensures var v := EvaluateCancel(o, target, opposite, cfg, fallback, now, quantum, required);
            && (v.Keep? <==> target.Some? && MayStay(o, target.value, opposite, cfg, now, quantum, required))
            && (target.Some? && Fit(o, target.value, cfg, now, required) ==>
                (v == Cancel(SizeMismatch, true) <==> SizeMismatched(o.size, target.value.size, cfg, quantum)))
            && (target.Some? && Fit(o, target.value, cfg, now, required) && !SizeMismatched(o.size, target.value.size, cfg, quantum) ==>
                var drifted, young, small :=
                  Drifted(o.price, target.value.price, cfg.staleBPS), TooYoung(o, cfg, fallback, now), TooSmallAMove(o, target.value, cfg);
                && (v == Suppress(MinimumLifetimeNotMet) <==> drifted && young)
                && (v == Suppress(MinimumMoveNotMet) <==> drifted && !young && small)
                && (v == Cancel(StaleOrWrong, true) <==> drifted && !young && !small)
                && (v == Cancel(CrossingOwnQuotes, false) <==>
                      (!drifted && opposite.Some?
                       && (if o.side == Buy then target.value.price >= opposite.value.price else target.value.price <= opposite.value.price))))
            && (target.None? || !Fit(o, target.value, cfg, now, required) ==> v.Cancel? && !v.rationed)
  {
    hide Protected, SizeMismatched, PriceDrift, ExpiringWithin;
  }

  /** Two sizes call for a replace exactly when they are further apart than every tolerance: the configured one, five
      basis points of the larger, what the venue can express, and rounding noise. */
  lemma SizeReplacedBeyondEveryTolerance(current: real, target: real, cfg: Config, quantum: real)
    ensures var apart := if current >= target then current - target else target - current;
            SizeMismatched(current, target, cfg, quantum) <==>
              && apart > 0.000000001 && apart > cfg.adoptSizeTolerance && apart > quantum
              && apart * 2000.0 > Abs(current) && apart * 2000.0 > Abs(target)
  {
  }
}
