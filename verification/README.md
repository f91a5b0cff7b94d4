# Market maker: order management, operator control and exact arithmetic

This project models the part of the market maker that decides what rests on the venue and proves what
that part promises. Prices, sizes and amounts are exact reals or integers, time is an integer clock, and
the venue answers every request as it likes: a cancel may be confirmed, find nothing or fail, a placement
may rest, be refused as crossing or fail, and orders may leave the book before any slot is reached.

**Ladder reconciliation.** `Pairing` is the two-pass matcher over its mutable arrays, proved to compute a
matching function; `PairingLaws` says it is a partition, maximal and stable under missing orders.
`Decision` is the keep, hold back or cancel rule on one order. `Reconcile` is a whole reconciliation as a
function of the venue's answers, and `SyncerMachine` is the syncer as an object over a venue, a cancel
window and a set of noted ids, proved slot by slot to do what that function says. `CancelBudget` is the
sliding one-minute window, `CancelSweep` the cancel-all behind kills, halts and pulled sides. On top:
`ReconcileLaws` (how much can rest, at every step), `ReconcileTerms` (under which signed terms),
`ReconcileRequests` and `SyncRequests` (what is sent, in which order, under which identity, by a side and
by a whole Sync), `SlotEffects` and `RunEffects` (exactly what each slot and each run asks for, notes and
reports, told from verdict, window, gate and answers), `ReplaceRation` (the cancel budget on what the venue
confirmed, over a syncer's life), `PlacementGate` (the operator's gate inside a Sync), `SettledBook` and `Quiescence` (a book that was reconciled once is left alone),
`StrayOrders` and `RestfulLadders` (exactly which ladders that is true of). `SideOrder` is the stable sort
that comes first, `Churn` and `Duplicates` are books in numbers, and `FeeSchedule` is the refresh that keeps
judging and signing on one schedule.

**Operator control.** `ControllerMachine` holds the controller with its ring of attempts and the state
store as objects. `ControlProtocol` is the quoting loop and the control requests as one transition system
with a controller lock, a store lock, a wake channel of capacity one, the state file and the book, in which
the process may crash at any step; `ControlInvariants` and `ControlSafety` are about every run of it,
`ControlLedger` says how far the file is behind the controller, `ControlScenarios` walks through three runs,
and `ManyLoops` is a kill or a pause over several quoting loops, of which the protocol is shown to be one. `Nonces` is
identity allocation in 64-bit arithmetic.

**Sizing.** `Rounding`, `Ladder` and `Exposure` build a multi-level ladder from one budget and one
headroom and follow the position through every sequence of partial fills; `FixedLadder` sizes a ladder
again from what it commits; `LadderSpacing` says when a configuration's ladder is wide enough to be left
alone; `SpotPricing` and `SpotPosition` say where a spot cycle quotes, how large, and what its fills can do to
the position, in the operator's own settings; `FillBand` clamps a future's ladder to the band the chain admits.

**Exact arithmetic.** `FeeBound` is the signed fee ceiling against the charge and the contract's test,
`Decimals` and `WireAmounts` the amounts and decimal strings on the wire.

**From cycle to cycle.** `SelfFeedback` shows the bot's own orders do not move its own target,
`NextBudget` and `Holdings` follow what a placed ladder does to the next budget, and `EndToEnd` puts that
together with the reconciliation: on a spot market where nothing else moves a placed ladder is followed by
silence. `FillAccounting` and `FillRuns` count fills over runs that may fail anywhere, `Startup` adopts or
cancels what a previous process left and `Ownership` says which orders it takes for its own, `AnchorCache` serves an external price.

## Where the code gives less than it seems to

Each of these has a lemma with concrete values, and a theorem with the condition under which the code does
give it.

- A reconciled book is left alone exactly when both ladders are spaced by the stale tolerance and do not
  cross (`RestfulLadders.LeftAloneIffRestful`; in numbers, `Churn.TightLadderChurns`). On a tighter ladder not
  every book moves, but some book that was reconciled in full does.
- That is over a book with one listed order a price, and where a protected order that a level claims within
  tolerance is kept by it (`Quiescence.BookIsClean`, `Quiescence.NoneBeside`); protected orders that no level
  claims stand unnoticed. Without either it fails: `Duplicates.SamePriceChurns`, and
  `Duplicates.ProtectedOrderChurns`, where the protected order's level places another beside it on every
  cycle.
- Available plus reusable is the total less foreign reservations exactly when *all* reservations fit in the
  total (`SelfFeedback.BudgetIsTotalLessForeign`); foreign reservations fitting is not enough
  (`SelfFeedback.ForeignFittingIsNotEnough`). In general it is the larger of that and what the bot itself
  holds, so the next target is the same as long as kept orders hold no more than their levels or everything
  fits (`EndToEnd.Affordable`). What a fresh ladder over-reserves by rounding changes nothing
  (`FixedLadder.TargetsKeep`).
- The signed fee bound covers every fill exactly when what the *signed* price owes per unit is within it
  (`FeeBound.PriceIsCoveredIff`). A price of whole wei always is (`FeeBound.WholeWeiIsCovered`); one that is
  rounded up when it is put into 18 decimals need not be (`FeeBound.RoundedUpPriceCanBreachTheBound`).
- A nonce is never reused while clock, base and range stay below 2^64: one range leads past itself exactly
  when it ends below that (`Nonces.NextIsPastIffItFits`), and a clock just before 1970 wraps
  (`Nonces.AWrappedClockReusesANonce`).
- Two bots that shared an allocator can be handed each other's nonces after a restart: the allocator starts
  empty and each bot knows only its own floor (`Nonces.RestartOnTheSameClockReuses`; exactly when,
  `Nonces.RestartIsDisjointIff`).
- After a write that failed the file's kill and pause differ from the controller's with nobody persisting,
  and a crash then loses the kill (`ControlScenarios.UnwrittenKillIsLost`). The two agree exactly when the
  requests committed since the last written copy leave the flags as they are
  (`ControlLedger.FileLagsByCommits`).
- A served anchor price can be older than the maximum age plus the refresh interval (`AnchorCache.LagShows`):
  it never is exactly when no call takes longer than one tick of the clock between checking an age and
  stamping it (`AnchorCache.BoundHoldsIffPrompt`).
- A best quote can stand beside an empty ladder (`Ladder.BestQuoteWithoutALadder`), exactly when capacity is
  under the minimum size by less than the tolerance (`Ladder.LevelZeroIsTheBestQuote`); the syncer then quotes
  that one level.

## Model

| member | source | states |
|---|---|---|
| `Pairing.NearestOrder` | internal/execution/sync.go:247-258 | the inner scan over the mutable match marks picks the first of the nearest unclaimed orders within the given distance, or none |
| `Pairing.FirstPass` | internal/execution/sync.go:262-267 | the pass that respects the tolerance leaves exactly the claims of the matching function, and the marks are exactly the claimed orders |
| `Pairing.SecondPass` | internal/execution/sync.go:268-275 | the pass over levels still without an order, at any distance, continues that matching and keeps marks and claims together |
| `Pairing.PairByRank` | internal/execution/sync.go:228-244 | with no tolerance orders and levels are paired by rank |
| `Pairing.PairByPrice` | internal/execution/sync.go:226-289 | the whole matcher, arrays and loops, returns the slots of the matching function, for every input |
| `PairingLaws.WithinExactlyByShare` | internal/execution/sync.go:570-575 | a resting price is within a threshold of a target exactly when both are positive and they are apart by less than that share of the resting price |
| `PairingLaws.NearestIsFirstMinimum` | internal/execution/sync.go:247-258 | the picked order is a candidate, none is nearer, and no earlier one is as near |
| `PairingLaws.ClaimsInjective` | internal/execution/sync.go:216-289 | no resting order is claimed by two levels |
| `PairingLaws.PairingPartitions` | internal/execution/sync.go:216-289 | every resting order and every level is in exactly one slot, and the slot of a level carries that level's number |
| `PairingLaws.PairingIsMaximal` | internal/execution/sync.go:216-289 | after the first pass no free order is within tolerance of a free level; after the second no free positively priced order coexists with a free positively priced level |
| `PairingLaws.SecondPassPairsAreFar` | internal/execution/sync.go:259-275 | a pair made within tolerance survives the second pass, and a pair the second pass makes is outside it |
| `PairingLaws.SlotCount` | internal/execution/sync.go:226-289 | with positive prices there are as many slots as the longer of the two ladders |
| `PairingLaws.OneToOneClaims` | internal/execution/sync.go:216-289 | when every order quotes exactly one level and no level has two, each level claims its own order |
| `PairingLaws.MissingOrdersShiftNothing` | internal/execution/sync.go:216-225 | then removing any orders leaves every other order on its own level: one missing order does not shift the ladder |
| `PairingFixpoint.EarlierChoice` | internal/execution/sync.go:247-267 | what a level chose over any order that no better level had taken |
| `PairingFixpoint.RepairingIsFixed` | internal/execution/sync.go:216-289 | on a strict ladder spaced by the tolerance a settled book pairs back with the very levels its orders were kept for or placed at, and what no level claimed stays unclaimed |
| `PairingSpacing.Wanderer` | internal/execution/sync.go:570-575 | between a level's crowding neighbour and the edge of its tolerance there is always room for an order that is kept but is no longer the nearest |
| `PairingSpacing.CrowdedLadderLosesItsPlace` | internal/execution/sync.go:216-289 | on every ladder tighter than the tolerance some settled book pairs with other levels than its own |
| `PairingSpacing.PairsBackIffSpaced` | internal/execution/sync.go:216-289 | re-pairing is a fixed point on every settled book if and only if no level's exact price is within the tolerance of a better level |
| `StrayOrders.StrayExists` | internal/execution/sync.go:216-289 | on a ladder tighter than the tolerance there is a price that is some level's own and, once the level below is quoted, no level's |
| `StrayOrders.StrayIsForgotten` | internal/execution/sync.go:247-275 | once every other level is quoted exactly, no level claims the order at that price within tolerance |
| `Decision.VerdictIsExact` | internal/execution/sync.go:414-482 | the verdict in full: kept if and only if nothing is wrong; on the wrong side, under other terms or about to expire, cancelled at once and unrationed; a wrong size replaced whatever the price; an order whose price alone is wrong held back exactly while it is too young or the move too small, and replaced otherwise; a crossing target cancelled |
| `Decision.SizeReplacedBeyondEveryTolerance` | internal/execution/sync.go:560-568 | sizes call for a replace exactly when they are further apart than the configured tolerance, five basis points of the larger, the venue's quantum and rounding noise |
| `Market.ProtectedExactlyUnderAPrefix` | internal/execution/order_protection.go:9-24 | an order is protected exactly when its id begins with one of the prefixes |
| `Market.BlankProtectsNothing` | internal/execution/order_protection.go:9-19 | a blank id is not protected and blank prefixes protect nothing, white space around either being dropped |
| `Decision.OnlySoundTermsSurvive` | internal/execution/reconcile.go:201-248 | an unprotected order that is not cancelled outright is under terms this process would sign, with more than the replace margin left |
| `FeeSchedule.FeeWatch.SyncFeeSchedule` | internal/execution/bot.go:302-335 | a changed fee replaces the whole listing the syncer works from, size quantum included, with the one the bot holds; only a rise takes the ladder off, and a rise whose sweep failed is an error |
| `FeeSchedule.RaisedFeeClearsTheBook` | internal/execution/bot.go:284-301 | after a rise that went through nothing signed under the old schedule rests |
| `FeeSchedule.CutKeepsTerms` | internal/execution/bot.go:293-296 | a cut leaves every order under sound terms, so nothing has to be replaced for it |
| `FeeSchedule.LowerScheduleSignsLess` | internal/exchange/client.go:2108-2137 | a schedule lower by a single basis point signs a strictly lower bound once a unit is worth ten thousand wei |
| `FeeSchedule.LaggingSignerChurns` | internal/execution/bot.go:314-318 | with the client signing on a lower schedule than the syncer judges by, every order it signs on a unit worth ten thousand wei is cancelled as soon as it rests |
| `FeeBound.TruncationOnlyHelps` | internal/exchange/client.go:2091-2107 | truncating twice never raises a charge |
| `FeeBound.BoundAdmitsEveryFill` | internal/exchange/client.go:2091-2107 | a bound admits every fill amount if and only if it covers the untruncated per-unit charge at the signed price |
| `FeeBound.EveryFillIsAdmitted` | internal/exchange/client.go:2108-2137 | for every price signed without rounding up, every amount and every schedule up to the listed one plus the headroom, the twice-truncated charge never exceeds the signed bound |
| `FeeBound.PriceIsCoveredIff` | internal/exchange/client.go:2108-2137 | every fill up to the fully raised schedule is admitted at the signed price if and only if what that price owes per unit is within the bound taken at the price itself |
| `FeeBound.WholeWeiIsCovered` | internal/exchange/client.go:2108-2137 | a price of a whole number of wei is signed as it is and covers every fill |
| `FeeBound.RoundedUpPriceCanBreachTheBound` | internal/exchange/client.go:2108-2137 | a price whose 18-decimal form rounds up can owe more than the bound: a concrete one does |
| `FeeBound.BoundIsPositive` | internal/exchange/client.go:2132-2135 | a bound is signed and is at least one wei |
| `FeeBound.BoundIsLeast` | internal/exchange/client.go:2120-2136 | the bound is the least whole number of wei that covers the fee |
| `FeeBound.BoundIsOfTheUnitsWorth` | internal/exchange/client.go:2108-2119 | without a schedule the configured bound is signed; with one a bound is signed exactly when a unit is worth something, a future's contract its fixed size or its size at the price, and it is the bound of that worth |
| `FeeBound.BoundIsMonotone` | internal/exchange/client.go:2108-2137 | a higher price or schedule never lowers the bound |
| `CancelBudget.Window.PruneStamps` | internal/execution/sync.go:730-742 | the loop drops exactly the leading stamps older than a minute |
| `CancelBudget.Window.CanUse` | internal/execution/sync.go:708-716 | asks for room after pruning; no limit always has room and prunes nothing |
| `CancelBudget.Window.Record` | internal/execution/sync.go:718-727 | prunes, then adds the cancel |
| `CancelBudget.UseKeepsBudget` | internal/execution/sync.go:708-742 | a granted slot keeps every stretch of more than the limit longer than a minute |
| `CancelBudget.AtMostLimitPerMinute` | internal/execution/sync.go:708-742 | over every run on a monotone clock any closed minute holds at most the limit of recorded cancels, and what is retained is exactly the last minute as of the last prune |
| `CancelBudget.RoomIsCounted` | internal/execution/sync.go:708-716 | there is room exactly when fewer than the limit were recorded in the minute up to now |
| `ReplaceRation.RunCountsReplaces` | internal/execution/sync.go:591-626 | the window's record grows by exactly the cancels sent for size or price that the venue confirmed, each at its own time |
| `ReplaceRation.HeldBackExactlyWhenFull` | internal/execution/sync.go:317-335 | a size or price replace is held back for want of budget exactly when the minute before it holds the limit of recorded ones |
| `ReplaceRation.SideReplacesAreRationed` | internal/execution/sync.go:317-335 | through one side, whatever the venue answers, no closed minute holds more confirmed size and price cancels than the limit, those before it included |
| `ReplaceRation.ReplacesAreRationed` | internal/execution/sync.go:708-742 | over a syncer's whole life, Syncs that fail anywhere and sweeps in between, every closed minute holds at most the limit of confirmed cancels whose verdict was size or price, counted on the requests |
| `SyncerMachine.Venue.Drop` | internal/execution/sync.go:295-380 | taking orders off the book keeps the rest in order |
| `SyncerMachine.Venue.CancelOrder` | internal/execution/sync.go:609-613 | a cancel takes the order off when it is confirmed or no longer there, and is recorded as sent whatever the answer |
| `SyncerMachine.Venue.PlaceLimitOrder` | internal/exchange/client.go:1085-1101 | an order that cannot be signed sends nothing; one that is sent rests under the signed terms exactly when the venue takes it |
| `SyncerMachine.Syncer.TakeCancelled` | internal/execution/sync.go:697-706 | returns the noted ids and starts the set over |
| `SyncerMachine.Syncer.CancelResting` | internal/execution/sync.go:591-626 | noted on intent, sent unless dry-run, counted against the window only when it went through; not-found is told apart from failure |
| `SyncerMachine.Syncer.ReconcileOrder` | internal/execution/sync.go:309-352 | verdict, budget and cancel of one slot's order |
| `SyncerMachine.Syncer.Place` | internal/execution/sync.go:628-678 | gated just before sending; a post-only refusal is not a failure, any other error is |
| `SyncerMachine.Syncer.ReconcileSlot` | internal/execution/sync.go:309-380 | one slot, cancel before place |
| `SyncerMachine.Syncer.ReconcileSide` | internal/execution/sync.go:295-380 | one side slot by slot, stopping at the first failure |
| `SyncerMachine.Syncer.Sync` | internal/execution/sync.go:169-208 | bids then asks; the venue, the window, the noted ids and the result end exactly where the reconciliation function says, for every sequence of venue answers |
| `SyncerMachine.Syncer.SweepOrder` | internal/execution/sync.go:133-161 | one order of a cancel-all: left alone, reported unsent in dry-run, or cancelled |
| `SyncerMachine.Syncer.CancelAll` | internal/execution/sync.go:119-163 | the sweep does not stop at a failure and reports what may still rest; a failed listing cancels nothing |
| `SideOrder.SideBookIsAStableSort` | internal/execution/sync.go:384-397 | a side holds every listed order of it exactly as often as listed, best price first, in listing order at each price |
| `ReconcileLaws.CountIsCard` | internal/execution/sync.go:295-380 | counting orders and counting ids agree on a book of distinct ids |
| `ReconcileLaws.SlotLeavesOne` | internal/execution/sync.go:309-380 | a slot replaces its own order by at most one; a slot without a level leaves nothing |
| `ReconcileLaws.SideEndsWithinTargets` | internal/execution/sync.go:295-380 | when a side completes outside dry-run no more unprotected orders rest than there are targets |
| `ReconcileLaws.NeverMoreThanTheLongerLadder` | internal/execution/sync.go:295-380 | with positive prices no intermediate step, failed or not, has more of ours resting than the longer of the listed side and the ladder |
| `ReconcileTerms.SideEndsSound` | internal/execution/sync.go:295-380 | when a side completes, every unprotected order on it -- kept, suppressed or new -- is under sound signed terms |
| `ReconcileTerms.SignedOrdersAreSound` | internal/exchange/margin.go:345-366 | a newly signed order has the configured flag, a bound at or above the required one, an expiry within configuration and, away from the market's cap, more than the margin left |
| `ReconcileTerms.FailureIsFinal` | internal/execution/sync.go:295-380 | nothing changes after a failure |
| `ReconcileTerms.SyncBoundsAndTerms` | internal/execution/sync.go:169-208 | when Sync returns without error outside dry-run, each side has at most as many unprotected orders as targets and every one is under sound terms |
| `ReconcileRequests.SlotSends` | internal/execution/sync.go:309-380 | a slot sends at most its own cancel and then its own placement, the placement only when the cancel did not fail |
| `ReconcileRequests.SideRequests` | internal/execution/sync.go:295-380 | no request follows a failed one, no order is cancelled twice, each identity is used at most once, and every placement is a level's own target under that level's own identity |
| `SyncRequests.SyncSendsInOrder` | internal/execution/sync.go:169-208 | over both sides of a whole Sync, whatever the venue answers, nothing follows a failed request, no order is cancelled twice, no identity is used twice, and every placement is some level's own target under that level's own identity |
| `ReconcileRequests.RunKeepsDistinct` | internal/execution/sync.go:295-380 | order ids on the book stay distinct |
| `SlotEffects.CancelHalf` | internal/execution/sync.go:304-357 | a slot's cancel half in full: it is sent exactly for an order whose verdict is cancel, with room if it is a replace, that is the bot's and outside a dry run; noted on intent; the book, the failure and whether the slot is free follow the answer |
| `SlotEffects.CancelHalfSpends` | internal/execution/sync.go:591-626 | one more stamp exactly for a size or price cancel that was confirmed, or that a dry run pretended |
| `SlotEffects.SlotInFull` | internal/execution/sync.go:358-380 | and its placement half: sent exactly when the slot is clear, has a level and an identity, is admitted, can be signed and is no dry run; what then rests, is reported and fails |
| `RunEffects.RunSends` | internal/execution/sync.go:295-380 | a whole run sends what its slots send by those rules and nothing else |
| `RunEffects.SyncNotesWhatItAsks` | internal/execution/sync.go:680-692 | outside a dry run the ids a Sync notes as its own cancels are exactly those whose cancel it sent, whatever was answered |
| `RunEffects.SyncReportsFirstPlaced` | internal/execution/sync.go:373-378 | a Sync reports for each side the first of its placements that did not fail |
| `RunEffects.DryRunSendsNothing` | internal/execution/sync.go:599-610 | a dry run sends nothing, cannot fail, and the book loses exactly what leaves it anyway |
| `RunEffects.DrySyncSendsNothing` | internal/execution/sync.go:634-638 | nor does a whole Sync in a dry run |
| `PlacementGate.SidePlacesOnlyWithLeave` | internal/execution/sync.go:628-632 | every placement of a side is some level's, sent at a moment at which neither kill nor pause was set and the side was enabled |
| `PlacementGate.SyncPlacesOnlyWithLeave` | internal/control/controller.go:218-244 | so is every placement of a whole Sync |
| `PlacementGate.ClearLevelIsPlaced` | internal/execution/sync.go:358-372 | conversely a level whose slot is clear, with an identity, admitted and fit to sign, is placed |
| `PlacementGate.ShutRun` | internal/execution/sync.go:368-372 | from the slot at which the gate shuts a side only sends cancels, adds no order to the book and reports no placement |
| `PlacementGate.SyncOnlyTakesOffOnceShut` | internal/control/controller.go:218-244 | a kill, a pause or a switched-off side landing at any slot: from there on the whole Sync only takes orders off |
| `SettledBook.SideSettles` | internal/execution/sync.go:295-380 | after a reconciliation accepted in full with nothing held back a side holds one order a level, kept or placed, and the protected orders no level kept; the other side is untouched |
| `Quiescence.KeptIsKeptAgain` | internal/execution/sync.go:414-482 | an order kept once is kept later while it is not expiring |
| `Quiescence.PlacedIsKept` | internal/execution/sync.go:414-482 | an order just placed for a level is kept at that level |
| `Quiescence.RestingSlotSendsNothing` | internal/execution/sync.go:309-380 | a slot whose order is kept, or is a protected one that no level claims, sends nothing |
| `Quiescence.SecondSyncIsQuiet` | internal/execution/sync.go:169-380 | once a Sync over clean spaced ladders was accepted in full, the next one against the same targets sends no cancel and no placement, notes nothing and spends no budget, and leaves the book as it is if nothing else happens to it |
| `Quiescence.NothingIsHeldWithoutLimits` | internal/execution/sync.go:309-335 | with no lifetime, move or budget limit nothing is ever held back |
| `RestfulLadders.LeftAloneIffRestful` | internal/execution/sync.go:169-380 | for strict ladders that can be quoted, without limits, every Sync accepted in full over a clean book is followed by one that sends nothing if and only if both ladders are spaced by the tolerance and do not cross |
| `RestfulLadders.CrowdedBidsAreNotLeftAlone` | internal/execution/sync.go:169-380 | for any bid ladder tighter than the tolerance, whatever its sizes, a whole Sync accepted in full after which the next one sends |
| `RestfulLadders.CrossedIsNotLeftAlone` | internal/execution/sync.go:471-480 | for any two ladders that cross, the same |
| `Duplicates.ProtectedOrderChurns` | internal/execution/sync.go:448-456 | a protected order at a level's own price and of another size has a fresh duplicate placed beside it, and the last one cancelled, on every cycle |
| `Duplicates.SamePriceChurns` | internal/execution/sync.go:384-397 | two listed orders at one price: over a spaced, uncrossed ladder a Sync accepted in full is followed by one that sends |
| `Churn.TightLadderChurns` | internal/execution/sync.go:169-380 | two levels 50 bps apart under a 150 bps tolerance: a Sync accepted in full is followed by one that still sends |
| `Churn.WideLadderSettles` | internal/execution/sync.go:169-380 | the same tolerance with the second level 300 bps down: the Sync after the first sends nothing |
| `CancelSweep.EveryOrderIsSwept` | internal/execution/sync.go:119-163 | every listed order in scope is asked for and noted, and an error is reported exactly when some cancel failed |
| `CancelSweep.RemainingCoversTheBook` | internal/execution/sync.go:119-163 | the reported remainder covers every listed order still on the book |
| `CancelSweep.CleanSweepLeavesNothing` | internal/execution/sync.go:119-163 | a complete listing with no failed cancel leaves no unprotected order on the swept side |
| `CancelSweep.OnlyFailedCancelsRemain` | internal/execution/sync.go:119-163 | otherwise only orders whose own cancel failed remain |
| `CancelSweep.SweepAsksOnlyInScope` | internal/execution/sync.go:119-167 | a sweep asks only for listed, unprotected orders of its side, nothing at all in a dry run, and leaves the cancel budget alone |
| `CancelSweep.SweepSparesTheRest` | internal/execution/sync.go:106-118 | an order of the other side or a protected one stays through a sweep unless it leaves by itself |
| `CancelSweep.DrySweepReportsEverything` | internal/execution/sync.go:119-167 | a dry-run sweep reports every order as remaining and each it would have cancelled as not done |
| `ControlFlags.KillOutlastsEverythingElse` | internal/control/controller.go:248-294 | only a resume that clears the kill takes it off, and the time of the first kill stands |
| `ControlFlags.PauseStands` | internal/control/controller.go:263-276 | from a pause on, through any requests but an accepted resume, neither side passes the gate and the time of the first pause stands |
| `ControlFlags.ResumeOpensTheGate` | internal/control/controller.go:278-294 | a resume leaves nothing in the way of an enabled side but a kill it was not told to clear, which it leaves as it was |
| `ControlFlags.KillReasonIsTheLastGiven` | internal/control/controller.go:246-261 | an empty reason does not overwrite the one a kill was given |
| `ControlFlags.PauseReasonIsTheLastGiven` | internal/control/controller.go:263-276 | nor that of a pause |
| `ControlFlags.FlagsStayTidy` | internal/control/controller.go:280-294 | through any requests a flag has a time exactly while it is set, and no reason while it is not |
| `ControllerMachine.Store.Save` | internal/state/state.go:231-270 | what is written carries the controller's current flags, whoever writes |
| `ControllerMachine.Store.Update` | internal/state/state.go:239-250 | rewrites the file from its own contents, so nothing but the flags changes |
| `ControllerMachine.Controller.constructor` | internal/control/controller.go:132-155 | takes the flags a load found and becomes its store's overlay |
| `ControllerMachine.Controller.FromStore` | internal/control/controller.go:132-155 | kill and pause come back from the file; an unreadable file makes no controller and leaves the store as it was |
| `ControllerMachine.KillThenRestart` | internal/state/state.go:178-185 | a kill is back in the next process, whatever the loop saved after it, unless its own write failed and the loop saved nothing either |
| `ControllerMachine.PauseThenResume` | internal/control/controller.go:227-294 | while paused neither side may place; after a resume every enabled side may, unless there is a kill |
| `ControllerMachine.Controller.Kill` | internal/control/controller.go:248-261 | the flag, the wake and, when the write succeeds, a file that says killed and is otherwise as it was |
| `ControllerMachine.Controller.Pause` | internal/control/controller.go:263-276 | the same for a pause |
| `ControllerMachine.Controller.Resume` | internal/control/controller.go:280-294 | a refused resume changes nothing at all |
| `ControllerMachine.Controller.SetSide` | internal/control/controller.go:296-311 | one side only, and the loop is woken |
| `ControllerMachine.Controller.SetAdjust` | internal/control/controller.go:315-344 | one bad field changes nothing, and the bounds hold over every patch |
| `ControllerMachine.Controller.AllowPlace` | internal/control/controller.go:227-244 | a placement passes if and only if neither flag is set and its side is enabled |
| `ControllerMachine.Controller.RecordAction` | internal/control/controller.go:351-365 | the ring holds the latest fifty attempts |
| `ControllerMachine.Controller.Actions` | internal/control/controller.go:368-380 | and returns them oldest first |
| `ControllerMachine.RingPush` | internal/control/controller.go:351-365 | overwriting at the next index drops exactly the oldest once the ring is full |
| `ControlInvariants.StepKeepsLocks` | internal/state/state.go:186-270 | each lock is held by exactly the thread whose place in the code says so |
| `ControlInvariants.StepKeepsNonces` | internal/execution/bot.go:472-512 | what is set aside for placement is unused and, once placeable, below the base on file |
| `ControlInvariants.StepKeepsFileFollows` | internal/state/state.go:231-270 | a value about to be written is current unless some request is still to take its copy |
| `ControlInvariants.StepKeepsHaltCovers` | internal/execution/bot.go:741-784 | while every cancel so far was confirmed, whatever still rests is still to be cancelled |
| `ControlSafety.NonceIsNeverReused` | internal/execution/bot.go:472-512 | over every run and any crashes, on any clock whose allocations stay below 2^64, no nonce is sent twice |
| `ControlSafety.BaseNeverGoesBack` | internal/state/state.go:231-270 | the base on file never decreases |
| `ControlSafety.StepWhileStopped` | internal/control/controller.go:218-244 | under a kill or a pause a step adds to the book at most the placement already in flight and admits no other |
| `ControlSafety.AfterAStopAtMostOneIsSent` | internal/control/server.go:366-384 | while killed or paused, in every interleaving and across restarts, at most the one placement already past the gate is sent |
| `ControlSafety.StoppedBookStaysEmpty` | internal/execution/bot.go:337-353 | after one killed or paused cycle whose listing and cancels succeed, nothing of ours rests for as long as one of them holds |
| `ControlSafety.RequestStopsAllButOne` | internal/control/controller.go:245-276 | from the step in which a kill or pause request takes effect, until a resume does or the process restarts, at most the one placement past the gate is sent and nothing else joins the book |
| `ControlSafety.HaltOnlyTakesOff` | internal/execution/bot.go:337-353 | a halt, as every cycle under a kill is one, lists first and then only cancels and saves until the next cycle, even if the kill is cleared before it ends |
| `ControlSafety.PersistedKillSurvives` | internal/state/state.go:158-165 | a kill whose persist returned survives every later save, request, crash and restart until a clearing resume takes effect |
| `ControlSafety.NoChangeIsMissed` | internal/control/controller.go:179-187 | from a change until the loop starts its next cycle the wake is pending, about to be sent or just taken |
| `ControlSafety.WakeIsEarned` | internal/control/controller.go:179-187 | a pending wake was signalled by a request and not taken since |
| `ControlSafety.NobodyWaitsForever` | internal/control/controller.go:157-170 | in every reachable state a thread that cannot go waits for one that can: store before controller admits no deadlock |
| `ControlSafety.FileSaysWhatTheControllerSays` | internal/state/state.go:178-185 | outside every request's change-to-persist window the file's flags are the controller's, unless a write failed and none has succeeded since |
| `ControlLedger.FileLagsByCommits` | internal/state/state.go:231-270 | in every run, at every moment, the controller's flags are those on file with the requests committed since the last written copy on top; the two agree if and only if those requests leave the flags as they are |
| `ControlLedger.KillSinceIsMissing` | internal/control/controller.go:248-261 | a kill among those requests that nothing cleared since is missing from the file |
| `ControlScenarios.OneCanSlipPast` | internal/control/controller.go:218-226 | a run in which a placement past the gate is sent after the kill and rests: the bound is reached, and the next killed cycle is needed |
| `ControlScenarios.PersistedKillComesBack` | internal/control/controller.go:132-155 | a run through kill, persist, crash and boot that comes up killed with its reason and time |
| `ControlScenarios.UnwrittenKillIsLost` | internal/control/controller.go:172-177 | a run in which the kill's write fails: nobody is persisting, the file does not say killed, and after a crash the process comes up not killed |
| `ManyLoops.EachLoopSendsAtMostOne` | internal/control/controller.go:218-244 | with any number of quoting loops under one controller each sends at most the one placement it had past the gate |
| `ManyLoops.EveryBookStaysEmpty` | internal/execution/bot.go:337-353 | once every loop has completed a halt while killed or paused, each at its own time, no order of any of them rests while that lasts |
| `ManyLoops.ProtocolRunsHere` | internal/execution/bot.go:337-353 | every run of the one-loop protocol, with its locks, saves, crashes and restarts, is a run of the many-loops machine |
| `Nonces.NonceAllocator.Base` | internal/execution/nonces.go:25-40 | an even base at or above the floor, the clock and every range handed out, short of a 64-bit wrap |
| `Nonces.RangesAreDisjoint` | internal/execution/nonces.go:8-12 | bots sharing an allocator get disjoint even-based ranges whatever the clock does, while nothing wraps |
| `Nonces.RestartOnALaterClockIsDisjoint` | internal/execution/nonces.go:8-12 | bots that shared an allocator stay apart across a restart once the clock has passed everything handed out before |
| `Nonces.RestartIsDisjointIff` | internal/execution/nonces.go:25-40 | a call after a restart keeps clear of one before it if and only if its base -- the largest of its floor, the new allocator's mark and twice the clock -- is past that range or its own range ends before it |
| `Nonces.RestartOnTheSameClockReuses` | internal/execution/nonces.go:8-12 | on a clock that stood still one bot is handed another's nonces again: concrete calls |
| `Nonces.NextIsPastIffItFits` | internal/execution/nonces.go:38-39 | the next range starts past this one if and only if this one ends below 2^64 |
| `Nonces.AWrappedClockReusesANonce` | internal/execution/bot.go:480-487 | a clock one microsecond before 1970 wraps and hands out a nonce again |
| `Nonces.SingleBotBase` | internal/execution/bot.go:480-487 | the single bot's base is the one the protocol allocates from |
| `Nonces.BuildLadders` | internal/execution/bot.go:488-508 | the loop builds both ladders of identities and the next base |
| `Nonces.OrderIDIsUnique` | internal/execution/bot.go:514-519 | an order id tells its side and its nonce |
| `Nonces.IdentitiesAreDistinct` | internal/execution/bot.go:488-508 | across both sides and all levels every nonce and every id is distinct and below the next base |
| `Rounding.RoundDownBounds` | internal/strategy/strategy.go:618-623 | overshoots by at most a billionth of a step, loses less than one |
| `Rounding.RoundUpBounds` | internal/strategy/strategy.go:625-630 | undershoots by at most a billionth of a step, adds less than one |
| `Rounding.RoundedToWholeSteps` | internal/strategy/strategy.go:618-630 | both roundings land on whole steps, and change nothing where there is no step |
| `Rounding.RoundDownIsStable` | internal/strategy/strategy.go:618-623 | rounding a rounded value changes nothing |
| `Ladder.BuildLevels` | internal/strategy/strategy.go:514-564 | the loop over the shared budget and headroom builds the ladder the function says |
| `Ladder.LadderWithinBudget` | internal/strategy/strategy.go:507-564 | all sizes together exceed neither the budget nor the headroom by more than a billionth of one step |
| `Ladder.LadderIsWellFormed` | internal/strategy/strategy.go:514-564 | each level is priced at its own distance, stands against the other side and is never below the venue's minimum |
| `Ladder.LadderIsExact` | internal/strategy/strategy.go:514-563 | level by level: a level is there exactly when it is configured, both remainders still hold a minimum size, its price is positive and does not meet the other side's best and its size is not too small; and it is its configured size or what is left, rounded down |
| `Ladder.SideQuotesExactlyWithinTheLimit` | internal/strategy/strategy.go:274-296 | a side quotes at all exactly when its best size is not too small and, filled whole, stays within the inventory limit |
| `Ladder.PricesStepOut` | internal/strategy/strategy.go:543-554 | no level is better than an earlier one |
| `Ladder.LevelZeroIsTheBestQuote` | internal/strategy/strategy.go:274-288 | level 0 is the single best quote, and beside a standing best quote the ladder is empty if and only if capacity is under the minimum size |
| `Ladder.BestQuoteWithoutALadder` | internal/strategy/strategy.go:274-288 | a best quote beside an empty ladder: concrete sizes |
| `Ladder.SideWithinLimits` | internal/strategy/strategy.go:269-296 | what a side commits, ladder or best quote alone, fits capacity and headroom |
| `Exposure.LongLimitIsTightest` | internal/strategy/strategy.go:577-582 | the long limit is the tightest of the net and long limits that are set, in base units, and one of them |
| `Exposure.ShortLimitIsTightest` | internal/strategy/strategy.go:584-592 | so is the short limit |
| `Exposure.LeverageIsTheLower` | internal/strategy/strategy.go:385-388 | the perp's leverage is the lower of the configured one and the market's |
| `Exposure.PerpCapacityIsExact` | internal/strategy/strategy.go:364-399 | a perp side may quote a size exactly when its fill keeps the position within what the cash carries and, unless quotes only rest on a closed market, opens no more than the open-interest room |
| `Exposure.FutureCapacityIsExact` | internal/strategy/future.go:30-38 | a future's side may quote a size exactly when what it opens beyond closing fits the margin headroom |
| `Exposure.FillsStayBetween` | internal/strategy/strategy.go:507-513 | however any parts of both ladders fill, in any order, the position stays between selling all asks and buying all bids |
| `Exposure.PositionStaysWithinLimits` | internal/strategy/strategy.go:248-296 | it stays in the hull of where it started and the long and short limits, up to the tolerance |
| `Exposure.PerpPositionStaysWithinLeverage` | internal/strategy/strategy.go:367-399 | on the perp it stays within the larger of the leverage bound and where it started, and new risk within the open-interest room |
| `Exposure.FuturePositionStaysWithinMargin` | internal/strategy/future.go:26-38 | on the engine future a side opens at most what the margin headroom carries |
| `Exposure.BidLadderIsFunded` | internal/strategy/strategy.go:224-242 | a bid ladder sized from cash reserves no more than that cash, up to the tolerance at its best price |
| `SpotPosition.SpotPositionStaysWithinLimits` | internal/strategy/strategy.go:417-426 | whatever parts of a spot cycle's quotes fill, in any order, the position passes neither the configured net nor long limit upwards, nor the net nor short limit downwards, unless it already was beyond, up to the tolerance |
| `SpotPosition.SpotNotionalIsCapped` | internal/strategy/strategy.go:263-273 | a side's whole ladder keeps to the configured notional, in base units or at its best price, up to the tolerance |
| `SpotPricing.BookBeforeExternalBeforeTrade` | internal/strategy/strategy.go:67-92 | others' two-sided book is quoted around from its middle, without one the external rate, then the last trade, else nothing |
| `SpotPricing.SkewLeansAgainstInventory` | internal/strategy/strategy.go:603-616 | the lean is down when long and up when short, in proportion to inventory and never beyond the maximum |
| `SpotPricing.MoreInventoryNeverRaisesQuotes` | internal/strategy/strategy.go:195-213 | of two cycles that differ in inventory, the one holding more has neither best quote higher |
| `SpotPricing.BestQuotesStandAt` | internal/strategy/strategy.go:205-213 | a cycle quotes exactly when its rounded prices are positive and do not meet; its best quotes are the raw prices, at the scaled spread, shift and lean, rounded outwards to a tick |
| `SpotPricing.BestQuotesAreSizedFrom` | internal/strategy/strategy.go:193-204 | a best quote is the order size for the cycle or what the side has capacity for, rounded down to a step |
| `FixedLadder.LevelsKeep` | internal/strategy/strategy.go:514-564 | sized again from a budget between its own and what it commits, the ladder comes out the same |
| `FixedLadder.TargetsKeep` | internal/strategy/strategy.go:269-296 | and so does a side's result, best quote alone included |
| `LadderSpacing.RoomyLadderIsSpaced` | internal/strategy/strategy.go:507-564 | one level, or a level step of at least the stale tolerance net of tick rounding, gives strict ladders spaced by the tolerance |
| `LadderSpacing.SpacedLadderIsStrict` | internal/strategy/strategy.go:543-554 | a spaced ladder of the strategy's is strictly best first |
| `FillBand.EdgesAreExact` | internal/exchange/margin.go:182-188 | the edges admit exactly the integer prices the chain's own test admits |
| `FillBand.AdmittedAsTheChainDoes` | internal/strategy/future.go:77-86 | with the chain's edges a price is admitted exactly when the chain admits it as signed |
| `FillBand.AdmittedBetween` | internal/strategy/future.go:77-80 | every price between two admitted ones is admitted as signed |
| `FillBand.LowMovesFewestTicks` | internal/strategy/future.go:81-83 | the low edge moves inward by the fewest ticks that reach an admitted price |
| `FillBand.HighMovesFewestTicks` | internal/strategy/future.go:84-86 | and the high edge likewise |
| `FillBand.BufferIsInward` | internal/strategy/future.go:71-74 | the buffer is the configured basis points of each edge, inwards |
| `FillBand.BandKeepsTheBuffer` | internal/strategy/future.go:71-91 | the band keeps the configured buffer to both of the chain's edges, up to the rounding tolerance |
| `FillBand.BandIsFoundWhereReachable` | internal/strategy/future.go:71-91 | whenever an admitted tick within the allowed steps of each start leaves the two in order, there is a band, and it is no narrower than those |
| `FillBand.StepEdges` | internal/strategy/future.go:81-86 | the two loops compute those edges |
| `FillBand.ClampLevels` | internal/strategy/future.go:102-130 | the loop with its set of taken prices computes the clamped ladder |
| `FillBand.ClampIsGood` | internal/strategy/future.go:102-130 | bids move only down and asks only up, into the band, and the result is strictly best first |
| `FillBand.NoLevelIsLost` | internal/strategy/future.go:102-130 | every level on the fillable side of the band keeps its place, at its own price or at the edge |
| `FillBand.FillableLevelsAreQuoted` | internal/strategy/future.go:55-130 | while the series may be quoted, every bid not below the band and every ask not above it is still quoted, at its own price or the edge |
| `FillBand.ApplyMarginEngineFuture` | internal/strategy/future.go:55-100 | the whole step on a cycle's quotes |
| `FillBand.QuotesAreFillable` | internal/strategy/future.go:48-100 | nothing at or after the cutoff, on a settled series or without an admitted band; otherwise every level is admitted as signed, moved only away from the market, strictly best first and uncrossed |
| `Decimals.DigitsRoundTrip` | internal/exchange/client.go:2302-2309 | the digits of a number read back as the number |
| `Decimals.NormalizeKeepsValue` | internal/exchange/client.go:2311-2325 | trimming never changes the value, for every decimal string |
| `Decimals.NormalizedIsShortest` | internal/exchange/client.go:2311-2325 | what is left ends in neither a point nor, behind one, a zero; without a point only blanks go |
| `Decimals.PrintRoundTrip` | internal/exchange/client.go:2139-2153 | printing an 18-decimal raw value and parsing it returns the same raw value |
| `WireAmounts.FutureRoundTrip` | internal/exchange/client.go:2198-2231 | a future's size in body units and back is exactly the rounded size, and the signed amount exactly that count times the scale |
| `WireAmounts.FutureRoundingIsStable` | internal/exchange/client.go:2198-2231 | rounding is idempotent and overshoots by at most a billionth of a step |
| `WireAmounts.StrategySizeIsExact` | internal/exchange/client.go:2207-2210 | a size the strategy rounded goes out as it is |
| `WireAmounts.FutureRefusals` | internal/exchange/client.go:2211-2224 | an order is refused if and only if it rounds below one step or is not whole listed units |
| `WireAmounts.OptionRefusals` | internal/exchange/client.go:2179-2196 | an option order is refused exactly when the listing has no unit or scale, or its size rounds below one unit |
| `WireAmounts.OptionRoundTrip` | internal/exchange/client.go:2179-2196 | an option's size in whole units and back, its signed amount and its rounding |
| `SelfFeedback.OthersBestPrices` | internal/marketdata/service.go:239-259 | the loops return the best prices among everyone else's levels |
| `SelfFeedback.BestPricesIgnoreOwnOrders` | internal/marketdata/service.go:233-259 | they depend only on what others quote, wherever the bot's own orders sit |
| `SelfFeedback.ListingIsFound` | internal/exchange/client.go:835-932 | a reservation is charged by the order's own listing whenever there is one |
| `SelfFeedback.GetBalances` | internal/exchange/client.go:835-925 | the accumulation loop reports total, reserved, available and reusable as sums over the active orders |
| `SelfFeedback.ReservationsAddUp` | internal/exchange/client.go:844-884 | reserved is what this ladder frees plus what it cannot |
| `SelfFeedback.BudgetIsTotalLessForeign` | internal/strategy/strategy.go:205-225 | available plus reusable is the total less foreign reservations if and only if all reservations fit in the total |
| `SelfFeedback.ForeignFittingIsNotEnough` | internal/strategy/strategy.go:205-225 | foreign reservations fitting in the total is not enough: concrete amounts |
| `SelfFeedback.LadderFitsItsBudget` | internal/strategy/strategy.go:228-296 | what a ladder will itself reserve fits the budget it was sized from, up to the tolerance |
| `SelfFeedback.OwnQuotesDoNotMoveTheTarget` | internal/strategy/strategy.go:147-296 | for any two sets of the bot's own replaceable orders, everything else equal and covered, the view and the ladder are the same |
| `NextBudget.BudgetIsTheLarger` | internal/strategy/strategy.go:205-225 | available plus reusable is the larger of what others leave of the total and what the bot itself holds |
| `NextBudget.NextBudgets` | internal/exchange/client.go:844-925 | the next cycle's budget is the larger of this one's and what the bot's own orders then hold |
| `NextBudget.QuotesKeep` | internal/strategy/strategy.go:147-296 | a view whose budgets grew to no more than the ladder itself commits gives the same quotes |
| `Holdings.SyncKeepsShielded` | internal/execution/sync.go:609-613 | whatever the venue answers a Sync neither adds nor removes a protected order |
| `Holdings.SideHolds` | internal/execution/sync.go:295-380 | the unprotected orders a completed side leaves hold no more than its ladder commits, if no kept one holds more than its level |
| `EndToEnd.StrategyLaddersAreClean` | internal/strategy/strategy.go:158-296 | spaced ladders of the strategy's are strict, one-sided and uncrossed: all that leaving them alone takes |
| `EndToEnd.RoomyIsSpaced` | internal/strategy/strategy.go:158-296 | a configuration with one level, or a wide enough step, spaces both ladders |
| `EndToEnd.TheBotSettles` | internal/execution/bot.go:337-470 | a spaced ladder placed in full on a spot market where nothing else moves is followed, on every later cycle over the book that was left, by the same ladder and nothing sent, the budget being read off that very book |
| `FillAccounting.ObserveOrderStateFills` | internal/execution/bot.go:1028-1059 | the counters are the number of distinct orders that disappeared unexplained or shrank, a side at a time |
| `FillAccounting.FilledExactlyWhenGoneOrLess` | internal/execution/bot.go:1028-1059 | an order of the previous book is a fill on its own side exactly when it is gone and nothing excludes it, or less of it is left |
| `FillAccounting.PartialExactlyWhenLessIsLeft` | internal/execution/bot.go:1052-1056 | an order listed both times is a partial fill exactly when less of it is left |
| `FillAccounting.NoteVenueCancels` | internal/execution/venue_cancels.go:24-66 | the exclusions are the bot's own cancels and every disappearance the venue gives a reason for |
| `FillRuns.EachOrderIsCountedOnce` | internal/execution/bot.go:365-373 | over every run in which loads and cycles may fail anywhere each order is counted as gone by a fill at most once |
| `FillRuns.UnexplainedIsCountedOnce` | internal/execution/bot.go:365-373 | an order one load shows and the next does not, not tried for cancel between the two and without a venue reason, is counted as a fill exactly once in the whole run, however often it was tried before |
| `FillRuns.CountedExactlyWhenUnexplained` | internal/execution/venue_cancels.go:24-66 | what one load counts: there before, gone now, not tried since, and no reason from the venue where it can be asked |
| `FillRuns.TriedIsNotCounted` | internal/execution/sync.go:680-706 | never when the bot tried to cancel it between the two loads compared |
| `FillRuns.Observer.Observe` | internal/execution/bot.go:365-373 | the loop's own step: compare with the last observation, count, remember |
| `Startup.CancelStartupOrders` | internal/execution/reconcile.go:275-288 | protected orders are skipped, the first refused cancel ends startup, dry-run sends nothing |
| `Startup.Classify` | internal/execution/reconcile.go:61-72 | orders without a reason to reject, by side |
| `Startup.AdoptSide` | internal/execution/reconcile.go:74-98 | the only candidate of a side when it matches the target, otherwise all are rejected |
| `Startup.ReconcileStartup` | internal/execution/reconcile.go:26-138 | adopted and cancelled orders end exactly where the rules say; a failure has cancelled only orders it was to cancel |
| `Ownership.AcceptableExactlyWhenOurs` | internal/execution/reconcile.go:140-174 | an order is acceptable if and only if the venue lists it as managed, its id is mm, one of the market's names, its own side and one more part, and its terms are this process's |
| `Ownership.AdoptedIsOurs` | internal/execution/reconcile.go:74-98 | an adopted order is managed, this market's, of its own side, under sound terms and at the target; no unmanaged order ever is |
| `Ownership.OwnOrderIsAdopted` | internal/execution/reconcile.go:74-98 | the only managed order of a side, with an id this bot builds, under its terms and at the target, is adopted |
| `Startup.EveryOrderIsSettled` | internal/execution/reconcile.go:26-138 | on success every order is exactly one of adopted, cancelled or left because protected |
| `Startup.AdoptedIsTheOnlyOne` | internal/execution/reconcile.go:74-98 | at most one order a side is adopted: the side's only acceptable one, at the target |
| `Startup.AdoptedIsLeftAlone` | internal/execution/reconcile.go:255-266 | an adopted order that is not expiring and faces uncrossed targets is kept by the steady-state rule against the same target |
| `AnchorCache.Anchor.Fetch` | internal/marketdata/anchor.go:280-333 | one fetch against the cache, with its four clock readings |
| `AnchorCache.TakenExactlyWhenNear` | internal/marketdata/anchor.go:305-333 | a usable price is taken exactly when none is held or guarded, the held one has aged out, or it is within the deviation of it; otherwise the held one is served |
| `AnchorCache.FreshPriceOutlivesUpstream` | internal/marketdata/anchor.go:542-552 | when upstream has no usable price the held one is served, as a failure, exactly while it is dated and within the maximum age |
| `AnchorCache.UpstreamIsLeftAlone` | internal/marketdata/anchor.go:280-333 | between two requests upstream is left alone for a whole interval, after a refused price as after a taken one |
| `AnchorCache.ServedPriceIsFresh` | internal/marketdata/anchor.go:280-344 | a served price of known date is never older than the maximum age plus the refresh interval plus the time between an age check and its stamp |
| `AnchorCache.BoundHoldsIffPrompt` | internal/marketdata/anchor.go:280-344 | the maximum age plus the refresh interval bounds every served price in every sequence of calls no slower than a lag if and only if that lag is at most one tick of the clock, or none where nothing is throttled |
| `AnchorCache.UndatedPriceIsRecent` | internal/marketdata/anchor.go:280-344 | a price without a date is served by the fetch that brought it or less than one refresh interval after its stamp |
| `AnchorCache.LagShows` | internal/marketdata/anchor.go:305-331 | without that last term the bound fails: a concrete sequence |
| `AnchorCache.AcceptedPriceIsGuarded` | internal/marketdata/anchor.go:315-328 | an accepted price is within the deviation allowed of the previous one while that is within the maximum age, and an expired one never blocks |
| `AnchorCache.HeldIsLastAccepted` | internal/marketdata/anchor.go:315-333 | what is held is the last price accepted, and positive |

## Left out

- Rounding of 64-bit floats: prices and sizes are exact; the code's own 1e-9 tolerances are kept.
- One clock reading per slot stands for the readings of one slot; the anchor's four readings are separate.
- The stable sort of a side is a function, and a placed order rests at the end of the listing, as the venue
  lists by creation time; an order rests at its target's price and size.
- Orders reserved by the matcher mid-fill, which are missing from one listing and back on the next, appear
  only as orders that leave.
- The rate-limit error Sync can still be given by its caller, logging, metrics and the activity feed's
  contents beyond the ring that keeps it.
- ControlProtocol: one quoting loop; the options process runs several, each with its own state file, which
  share the controller's flags. `ManyLoops` follows them without their saves, which no book or gate sees. The
  kill switch file, the risk halt and the operator mode are the loop's own
  choice to halt. A request's own cancel-all is part of what may leave the book at any step. Reading the
  flags, the gate and taking the dirty mark are single steps that need the controller lock to be free.
- ControlProtocol: a change reaches the loop's next cycle; that the cycle it woke already quotes an adjust
  is not claimed, and is not so, as the overrides are read before the dirty mark is taken.
- ControlProtocol: writing the file is atomic; a torn write is not part of this model.
- ControlSafety.NonceIsNeverReused: stated for allocations below 2^64, the guard of the allocation step.
- Nonces.RestartOnALaterClockIsDisjoint: one way; `Nonces.RestartIsDisjointIff` is the condition.
- Nonces.NonceAllocator.Base: the floor and the clock are promised short of a wrap only, as the code does.
- FeeBound.EveryFillIsAdmitted: asks that the signed price was not rounded up; `FeeBound.PriceIsCoveredIff`
  has the exact condition.
- Quiescence.SecondSyncIsQuiet: needs a clean plan and nothing held back by lifetime, move or budget. That
  every protected order a level claims is kept is sufficient; a claimed one off its level's own price may
  happen to be left alone as well.
- RestfulLadders.LeftAloneIffRestful: a stale tolerance under 10000 bps, where a bid's tolerance ends.
- EndToEnd.TheBotSettles: asks for a listing with a positive minimum size, and the account's rows on this market
  in the order of the open orders.
- FeeSchedule.FeeWatch.SyncFeeSchedule: the market cache behind the listing, and its fallback to the last
  listing read, are not part of it.
- SelfFeedback.OwnQuotesDoNotMoveTheTarget: the cNGN and anchored spot path; perp, future and option
  references are not part of it, nor is the average behind the rate picker.
- WireAmounts.FutureRoundTrip: the listing's step and unit are exact 18-decimal values; an option's count is
  not limited to 63 bits.
- PlacementGate.SyncPlacesOnlyWithLeave: the controls are given at each slot's moment; when they change between
  the gate and the venue's answer is the business of `ControlProtocol`.
- Ownership.AcceptableExactlyWhenOurs: which ids the venue lists as managed, and the market's names and aliases,
  are inputs.
- SpotPosition.SpotPositionStaysWithinLimits: the limits are converted at the reference of the cycle that quoted.
- FillRuns.EachOrderIsCountedOnce: assumes an id that left never comes back; fills read off the trade tape
  when the two books are identical are not modelled.
- AnchorCache.ServedPriceIsFresh: with the lag as a term; a price whose date upstream does not give has no age
  and is bounded by its stamp instead (`AnchorCache.UndatedPriceIsRecent`).
- FillBand.ApplyMarginEngineFuture: the reasons reported for a missing side are not modelled.
- Controller: resolving the displayed state, and the HTTP layer around the handlers.
- Spot and future prices of options, carry, volatility and every transcendental; market aliases and
  listings; risk thresholds; health checks; configuration parsing.
- Hashing, signing, key management, the database, RPC and the chain contracts themselves.
