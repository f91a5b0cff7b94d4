/** Reconciling the resting orders with the target ladders (Sync, reconcileSide, cancel, place and
    cancelAll in sync.go), over a venue that answers every request as it likes.

    `RunSide` is the reconciliation as a function of the venue's answers; the Syncer class does the
    same work step by step and is proved to compute it. */
module Reconcile {
  import opened Market
  import opened Pairing
  import opened Decision
  import opened FeeBound
  import Budget = CancelBudget

  // ----- the venue -----

  datatype CancelReply = Cancelled | NotFound | CancelFailed(gone: bool)
  datatype PlaceReply = Accepted | WouldCross | PlaceFailed(rests: bool)

  datatype Request =
    | CancelSent(id: string, creply: CancelReply)
    | PlaceSent(identity: Identity, quote: Quote, preply: PlaceReply)

  function Without(book: seq<Order>, ids: set<string>): seq<Order> {
    if book == [] then []
    else Without(book[..|book| - 1], ids) + if book[|book| - 1].id in ids then [] else [book[|book| - 1]]
  }

  /** A cancel takes the order off the book when the venue confirms it or no longer has it. */
  predicate TakesOff(r: CancelReply) {
    r.Cancelled? || r.NotFound? || r.gone
  }

  predicate Rests(r: PlaceReply) {
    r.Accepted? || (r.PlaceFailed? && r.rests)
  }

  /** Everything that happens around one slot: the clock, orders that fill, expire or are cancelled
      by someone else before the slot is reached, and the answers it gets. */
  datatype Moment = Moment(now: int, departed: set<string>, cancelReply: CancelReply, allowed: bool, placeReply: PlaceReply)

  // ----- signing -----

  /** The latest an order on this market may be signed to expire: no cap, a cap not yet read, or one. */
  datatype Cap = Uncapped | Unread | CapAt(at: int)

  function CappedExpiry(cap: Cap, expiry: int, now: int): (e: Option<int>)
    ensures e.Some? ==> e.value <= expiry && (cap.CapAt? ==> now < e.value <= cap.at)
    ensures e.Some? && e.value != expiry ==> cap == CapAt(e.value)
    ensures e.None? <==> cap.Unread? || (cap.CapAt? && (expiry <= now || cap.at <= now))
  {
    match cap
    case Uncapped => Some(expiry)
    case Unread => None
    case CapAt(at) =>
      var capped := if expiry > at then at else expiry;
      if capped <= now then None else Some(capped)
  }

  /** What a side is reconciled under: the syncer's fee schedule judges resting orders, the client's
      signs new ones. */
  datatype Desk = Desk(cfg: Config, fee: FeeSpec, signer: FeeSpec, quantum: real, cap: Cap)

  function Required(desk: Desk, price: real): Option<int> {
    SignedWorstFee(desk.fee, price)
  }

  function SignedExpiry(desk: Desk, now: int): Option<int> {
    CappedExpiry(desk.cap, now + desk.cfg.orderExpiry, now)
  }

  predicate CanSign(desk: Desk, q: Quote, now: int) {
    SignedWorstFee(desk.signer, q.price).Some? && SignedExpiry(desk, now).Some?
  }

  function SignedOrder(desk: Desk, q: Quote, id: Identity, now: int): Order
    requires CanSign(desk, q, now)
  {
    Order(id.orderID, q.side, q.price, q.size, desk.cfg.postOnly, SignedWorstFee(desk.signer, q.price),
          SignedExpiry(desk, now).value, Some(now))
  }

  // ----- the reconciliation as a function -----

  datatype State = State(
    book: seq<Order>,
    sent: seq<Request>,
    budget: Budget.Budget,
    cancelled: set<string>,
    changed: bool,
    placed: map<Side, string>,
    failed: bool)

  function Recorded(b: Budget.Budget, now: int): Budget.Budget {
    Budget.Budget(Budget.Prune(b.stamps, now) + [now], b.spent + [now])
  }

  function Looked(desk: Desk, b: Budget.Budget, now: int): Budget.Budget {
    if desk.cfg.maxCancelsPerMinute <= 0 then b else b.(stamps := Budget.Prune(b.stamps, now))
  }

  /** One cancel request and its consequences; whether the slot is free afterwards. */
  function CancelOne(desk: Desk, st: State, o: Order, rationed: bool, m: Moment): (State, bool) {
    if Protected(desk.cfg, o.id) then (st.(changed := true), true)
    else
      var noted := st.(cancelled := st.cancelled + {o.id});
      var counted := noted.(budget := if rationed then Recorded(st.budget, m.now) else st.budget, changed := true);
      if desk.cfg.dryRun then (counted, true)
      else
        var sent := st.sent + [CancelSent(o.id, m.cancelReply)];
        var book := if TakesOff(m.cancelReply) then Without(st.book, {o.id}) else st.book;
        match m.cancelReply
        case Cancelled => (counted.(book := book, sent := sent), true)
        case NotFound => (noted.(book := book, sent := sent, changed := true), true)
        case CancelFailed(_) => (noted.(book := book, sent := sent, failed := true), false)
  }

  function VerdictOn(desk: Desk, o: Order, target: Option<Quote>, opposite: Option<Quote>, fallback: Option<int>, now: int): Verdict {
    EvaluateCancel(o, target, opposite, desk.cfg, fallback, now, desk.quantum, Required(desk, o.price))
  }

  function CancelPhase(desk: Desk, st: State, o: Order, target: Option<Quote>, opposite: Option<Quote>, fallback: Option<int>, m: Moment): (State, bool) {
    match VerdictOn(desk, o, target, opposite, fallback, m.now)
    case Keep => (st, false)
    case Suppress(_) => (st, false)
    case Cancel(_, rationed) =>
      if !rationed then CancelOne(desk, st, o, false, m)
      else
        var looked := st.(budget := Looked(desk, st.budget, m.now));
        if !Budget.HasSlot(looked.budget.stamps, desk.cfg.maxCancelsPerMinute) then (looked, false)
        else CancelOne(desk, looked, o, true, m)
  }

  function PlacePhase(desk: Desk, st: State, q: Quote, level: int, ids: seq<Identity>, m: Moment): State {
    if !(0 <= level < |ids|) || !m.allowed then st
    else
      var id := ids[level];
      var done := st.(changed := true, placed := if q.side in st.placed then st.placed else st.placed[q.side := id.orderID]);
      if desk.cfg.dryRun then done
      else if !CanSign(desk, q, m.now) then st.(failed := true)
      else
        var sent := st.sent + [PlaceSent(id, q, m.placeReply)];
        var book := if Rests(m.placeReply) then st.book + [SignedOrder(desk, q, id, m.now)] else st.book;
        match m.placeReply
        case Accepted => done.(book := book, sent := sent)
        case WouldCross => done.(sent := sent)
        case PlaceFailed(_) => st.(book := book, sent := sent, failed := true)
  }

  /** A side's ladders and the context its slots are decided in. */
  datatype Task = Task(
    existing: seq<Order>,
    targets: seq<Quote>,
    opposite: Option<Quote>,
    fallback: Option<int>,
    ids: seq<Identity>)

  predicate SlotFits(task: Task, s: Slot) {
    && (s.order.Some? ==> s.order.value < |task.existing|)
    && (s.target.Some? ==> s.target.value < |task.targets|)
  }

  function TargetOf(task: Task, s: Slot): Option<Quote>
    requires SlotFits(task, s)
  {
    if s.target.Some? then Some(task.targets[s.target.value]) else None
  }

  function Depart(st: State, m: Moment): State {
    st.(book := Without(st.book, m.departed))
  }

  /** The slot up to and including its cancel: the state, and whether the slot is free. */
  function SlotCancel(desk: Desk, task: Task, st: State, s: Slot, m: Moment): (State, bool)
    requires SlotFits(task, s)
  {
    if s.order.None? then (Depart(st, m), true)
    else CancelPhase(desk, Depart(st, m), task.existing[s.order.value], TargetOf(task, s), task.opposite, task.fallback, m)
  }

  function SlotStep(desk: Desk, task: Task, st: State, s: Slot, m: Moment): State
    requires SlotFits(task, s)
  {
    if st.failed then st
    else
      var (after, free) := SlotCancel(desk, task, st, s, m);
      if after.failed || !free || s.target.None? then after
      else PlacePhase(desk, after, task.targets[s.target.value], s.level, task.ids, m)
  }

  predicate SlotsFit(task: Task, slots: seq<Slot>) {
    forall i :: 0 <= i < |slots| ==> SlotFits(task, slots[i])
  }

  function RunSlots(desk: Desk, task: Task, st: State, slots: seq<Slot>, moments: nat -> Moment, k: nat): State
    requires k <= |slots| && SlotsFit(task, slots)
  {
    if k == 0 then st
    else SlotStep(desk, task, RunSlots(desk, task, st, slots, moments, k - 1), slots[k - 1], moments(k - 1))
  }

  lemma SlotsAlwaysFit(task: Task, tolerance: real)
    ensures SlotsFit(task, Slots(task.existing, task.targets, tolerance))
  {
    if tolerance > 0.0 {
      UnclaimedFit(task, Claims(task.existing, task.targets, tolerance), |task.existing|);
    }
  }

  lemma {:induction false} UnclaimedFit(task: Task, claims: seq<int>, n: nat)
    requires n <= |task.existing|
    ensures SlotsFit(task, Unclaimed(claims, n))
  {
    if n > 0 {
      UnclaimedFit(task, claims, n - 1);
    }
  }

  function SideSlots(desk: Desk, task: Task): (slots: seq<Slot>)
    ensures SlotsFit(task, slots)
  {
    SlotsAlwaysFit(task, desk.cfg.staleBPS);
    Slots(task.existing, task.targets, desk.cfg.staleBPS)
  }

  function RunSide(desk: Desk, task: Task, st: State, moments: nat -> Moment): State {
    var slots := SideSlots(desk, task);
    RunSlots(desk, task, st, slots, moments, |slots|)
  }

  // ----- both sides -----

  /** Insertion at the end of its price: the stable sort groupOrdersBySide asks for. */
  function Insert(side: Side, sorted: seq<Order>, o: Order): seq<Order> {
    if sorted == [] || !Better(side, o.price, sorted[|sorted| - 1].price) then sorted + [o]
    else Insert(side, sorted[..|sorted| - 1], o) + [sorted[|sorted| - 1]]
  }

  /** One side of the book, best price first, listing order between equal prices. */
  function SideBook(side: Side, orders: seq<Order>): seq<Order> {
    if orders == [] then []
    else
      var rest := SideBook(side, orders[..|orders| - 1]);
      var last := orders[|orders| - 1];
      if last.side == side then Insert(side, rest, last) else rest
  }

  function First(quotes: seq<Quote>): Option<Quote> {
    if quotes == [] then None else Some(quotes[0])
  }

  /** One cycle's input to Sync: the listed orders, the two target ladders, identities, quote time. */
  datatype Plan = Plan(
    listed: seq<Order>,
    bids: seq<Quote>,
    asks: seq<Quote>,
    bidIDs: seq<Identity>,
    askIDs: seq<Identity>,
    fallback: Option<int>)

  function BidTask(p: Plan): Task {
    Task(SideBook(Buy, p.listed), p.bids, First(p.asks), p.fallback, p.bidIDs)
  }

  function AskTask(p: Plan): Task {
    Task(SideBook(Sell, p.listed), p.asks, First(p.bids), p.fallback, p.askIDs)
  }

  /** A fresh result on the given book, budget and cancelled set. */
  function Opening(book: seq<Order>, budget: Budget.Budget, cancelled: set<string>): State {
    State(book, [], budget, cancelled, false, map[], false)
  }

  function RunSync(desk: Desk, p: Plan, st: State, bidMoments: nat -> Moment, askMoments: nat -> Moment): State {
    var bids := RunSide(desk, BidTask(p), st, bidMoments);
    if bids.failed then bids else RunSide(desk, AskTask(p), bids, askMoments)
  }
}
