/** Following the venue's fee schedule (syncFeeSchedule in bot.go): the syncer judges by what the venue
    lists, and a raised fee takes the resting ladder off so that it is signed again. */
module FeeSchedule {
  import opened Market
  import opened FeeBound
  import opened Decision
  import opened Reconcile
  import opened CancelSweep
  import opened SyncerMachine

  /** What the syncer reads of a market's listing: the fee schedule and the size quantum. */
  datatype MarketSpec = MarketSpec(fee: FeeSpec, quantum: real)

  /** The listing last read, kept by the bot beside its syncer. */
  class FeeWatch {
    var spec: MarketSpec
    const syncer: Syncer

    constructor (spec: MarketSpec, syncer: Syncer)
      ensures this.spec == spec && this.syncer == syncer
    {
      this.spec, this.syncer := spec, syncer;
    }

    /** The syncer works from the bot's own listing. */
    ghost predicate InStep()
      reads this, syncer
    {
      syncer.desk.fee == spec.fee && syncer.desk.quantum == spec.quantum
    }

    /** A changed fee replaces the whole listing, the syncer's with the bot's; an unchanged one replaces
        nothing. `listing` and `moments` are the book and the venue's answers should the ladder have to go. */
    method SyncFeeSchedule(listed: Option<MarketSpec>, listing: Option<seq<Order>>, moments: nat -> Moment) returns (ok: bool)
      requires InStep()
      modifies this`spec, syncer`desk, syncer`cancelledIDs, syncer.venue, syncer.window
      ensures InStep() && syncer.desk == old(syncer.desk).(fee := spec.fee, quantum := spec.quantum)
      ensures listed.None? ==> !ok
      ensures listed.Some? && listed.value.fee.takerFeeBps != old(spec.fee.takerFeeBps) ==> spec == listed.value
      ensures listed.None? || listed.value.fee.takerFeeBps == old(spec.fee.takerFeeBps) ==> spec == old(spec)
      ensures listed.None? || listed.value.fee.takerFeeBps <= old(spec.fee.takerFeeBps) || listing.None? ==>
                syncer.Standing() == old(syncer.Standing())
      ensures listed.Some? && listed.value.fee.takerFeeBps <= old(spec.fee.takerFeeBps) ==> ok
      ensures listed.Some? && listed.value.fee.takerFeeBps > old(spec.fee.takerFeeBps) ==>
                if listing.None? then ok <==> syncer.desk.cfg.dryRun
                else
                  var w := RunSweep(syncer.desk, None, old(syncer.Standing()), listing.value, moments, |listing.value|);
                  syncer.Standing() == w.st && (ok <==> !w.erred)
    {
      if listed.None? {
        return false;
      }
      var was := spec.fee.takerFeeBps;
      if listed.value.fee.takerFeeBps == was {
        return true;
      }
      spec := listed.value;
      syncer.desk := syncer.desk.(fee := spec.fee, quantum := spec.quantum);
      if listed.value.fee.takerFeeBps < was {
        return true;
      }
      var results, remaining, listFailed, erred := syncer.CancelAll(listing, None, moments);
      if listFailed {
        return syncer.desk.cfg.dryRun;
      }
      ok := !erred;
    }
  }

  /** After a rise that went through, no unprotected order signed under the old schedule rests. */
  lemma RaisedFeeClearsTheBook(desk: Desk, st: State, listed: seq<Order>, moments: nat -> Moment)
    requires !desk.cfg.dryRun && ScopeListed(desk, None, st.book, listed)
    requires !RunSweep(desk, None, st, listed, moments, |listed|).erred
    ensures forall o :: o in RunSweep(desk, None, st, listed, moments, |listed|).st.book ==> Protected(desk.cfg, o.id)
  {
    hide Protected;
    CleanSweepLeavesNothing(desk, None, st, listed, moments);
  }

  /** A cut leaves every order under terms that held under terms that hold: nothing has to be replaced
      for it. */
  lemma CutKeepsTerms(cfg: Config, was: FeeSpec, listed: FeeSpec, o: Order, now: int)
    requires 0 < listed.takerFeeBps <= was.takerFeeBps && listed == was.(takerFeeBps := listed.takerFeeBps)
    requires UnitValue(listed, o.price) > 0.0
    requires TermsHold(cfg, o, SignedWorstFee(was, o.price), now)
    ensures TermsHold(cfg, o, SignedWorstFee(listed, o.price), now)
  {
    BoundIsMonotone(listed, was, o.price, o.price);
  }

  /** An order the new schedule's own signer signs is never judged below it: with one schedule on both sides
      a fresh order keeps its place. */
  lemma FreshOrdersAreNotReplaced(desk: Desk, q: Quote, id: Identity, now: int)
    requires CanSign(desk, q, now) && desk.signer == desk.fee
    ensures StaleTerms(desk.cfg, SignedOrder(desk, q, id, now), Required(desk, q.price), now).None?
  {
    hide SignedWorstFee;
  }

  /** A schedule any lower gives a lower bound, once a unit is worth ten thousand wei. */
  lemma LowerScheduleSignsLess(signer: FeeSpec, fee: FeeSpec, price: real)
    requires 0 < signer.takerFeeBps < fee.takerFeeBps && signer == fee.(takerFeeBps := signer.takerFeeBps)
    requires UnitValue(fee, price) * WEI as real >= 10000.0
    ensures SignedWorstFee(signer, price).Some? && SignedWorstFee(fee, price).Some?
    ensures SignedWorstFee(signer, price).value < SignedWorstFee(fee, price).value
  {
    hide FeeAt, UnitValue;
    var value, low, high := UnitValue(fee, price), signer.takerFeeBps + HEADROOM_BPS, fee.takerFeeBps + HEADROOM_BPS;
    SameUnit(signer, fee, price);
    Worth(value);
    BoundIsPositive(signer, price);
    BoundIsPositive(fee, price);
    FeeAtScales(value, low);
    FeeAtScales(value, high);
    AStepIsAWei(value * WEI as real, low, high);
  }

  lemma SameUnit(signer: FeeSpec, fee: FeeSpec, price: real)
    requires signer == fee.(takerFeeBps := signer.takerFeeBps)
    ensures UnitValue(signer, price) == UnitValue(fee, price)
  {
  }

  lemma Worth(value: real)
    requires value * WEI as real >= 10000.0
    ensures value > 0.0
  {
  }

  lemma AStepIsAWei(worth: real, low: nat, high: nat)
    requires worth >= 10000.0 && low < high
    ensures worth * high as real >= worth * low as real + 10000.0
  {
    var step := (high - low) as real;
    RealMulMonotone(1.0, step, worth);
    assert worth * high as real == worth * low as real + worth * step;
  }

  /** With a signer on a lower schedule than the judge every order it signs is judged below the schedule the
      moment it rests, and cancelled: the two must move together. */
  lemma LaggingSignerChurns(desk: Desk, q: Quote, id: Identity, opposite: Option<Quote>, fallback: Option<int>, now: int)
    requires CanSign(desk, q, now) && UnitValue(desk.fee, q.price) * WEI as real >= 10000.0
    requires 0 < desk.signer.takerFeeBps < desk.fee.takerFeeBps && desk.signer == desk.fee.(takerFeeBps := desk.signer.takerFeeBps)
    ensures VerdictOn(desk, SignedOrder(desk, q, id, now), Some(q), opposite, fallback, now) == Cancel(WorstFeeBelowSchedule, false)
  {
    LowerScheduleSignsLess(desk.signer, desk.fee, q.price);
    hide SignedWorstFee, UnitValue;
  }
}
