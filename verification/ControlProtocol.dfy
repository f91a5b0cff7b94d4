/** The quoting loop and the control API's handlers as one transition system: a controller lock, a store
    lock, a wake channel of capacity one, a persisted file, and the bot's own book at the venue. Threads
    interleave freely at lock operations and venue calls; the process may crash and restart at any step.

    Thread 0 is the quoting loop, every other thread one control request. Own orders are named by nonce. */
module ControlProtocol {
  import opened Market
  import opened ControlFlags

  const LIMIT: nat := 0x1_0000_0000_0000_0000
  const LOOP: nat := 0

  /** MM_STATE_FILE, as far as the protocol goes. */
  datatype Persist = Persist(base: nat, saved: Flags)

  /** A write of the file: waiting for the store lock; holding it with the value to write; holding the
      controller lock as well, in the overlay; overlaid and about to write. */
  datatype SavePC = WantStore | Loaded(value: Persist) | Overlaying(value: Persist) | Ready(value: Persist)

  datatype After = ThenPlace(avail: set<nat>) | ThenSelect | ThenDone

  datatype PC =
    | Initializing
    | Select
    | CycleTop
    | Working
    | Placing(avail: set<nat>)
    | Sending(nonce: nat, rest: set<nat>)
    | HaltList
    | HaltCancel(todo: set<nat>, ok: bool)
    | Change(op: Op)
    | Changing(op: Op)
    | Signalling(persists: bool)
    | Saving(at: SavePC, after: After)

  /** `behind`: the last attempt to write the file failed. */
  datatype State = State(
    threads: map<nat, PC>,
    ctrlLock: Option<nat>,
    storeLock: Option<nat>,
    flags: Flags,
    wake: bool,
    memBase: nat,
    file: Persist,
    behind: bool,
    book: set<nat>,
    sent: seq<nat>)

  /** Around the process: it crashes, boots, loads its state; orders leave the book by fill, expiry or
      someone else's cancel; a control request arrives. */
  datatype Event = Crash | Boot | InitLoad | Leave(departed: set<nat>) | Arrive(t: nat, op: Op)

  /** A thread taking the controller lock, and a request changing the flags and waking the loop. */
  datatype Stride = LockCtrl | Commit | Signal

  /** A thread writing the file. */
  datatype FileStep = LockStore(readable: bool) | Copy | Write(ok: bool)

  datatype LoopStep =
    | Poll
    | Woken
    | Top(halts: bool)
    | Abandon
    | Halt
    | Finish
    | Allocate(clock: nat, levels: nat)
    | Admit(n: nat)
    | Send(rests: bool, accepted: bool)
    | List(listed: bool)
    | CancelNext(n: nat, confirmed: bool, gone: bool)
    | HaltDone

  datatype Action = Around(event: Event) | By(t: nat, stride: Stride) | Files(t: nat, step: FileStep) | Quotes(move: LoopStep)

  function Idle(file: Persist, book: set<nat>, sent: seq<nat>): State {
    State(map[], None, None, CLEAR, false, 0, file, false, book, sent)
  }

  predicate Up(s: State) {
    LOOP in s.threads
  }

  predicate IsAt(s: State, pc: PC) {
    LOOP in s.threads && s.threads[LOOP] == pc
  }

  predicate SavingAt(s: State, t: nat) {
    t in s.threads && s.threads[t].Saving?
  }

  /** The nonces of one allocation: width of them from base up. */
  function Span(base: nat, width: nat): (r: set<nat>)
    ensures forall n :: n in r <==> base <= n < base + width
  {
    if width == 0 then {} else Span(base, width - 1) + {base + width - 1}
  }

  /** The single bot's base: its own or twice the clock, rounded up to even. */
  function NextBase(floor: nat, clock: nat): (base: nat)
    ensures base >= floor && base % 2 == 0
  {
    var base := if 2 * clock > floor then 2 * clock else floor;
    if base % 2 != 0 then base + 1 else base
  }

  function At(s: State, t: nat, pc: PC): State {
    s.(threads := s.threads[t := pc])
  }

  function Gone(s: State, t: nat): State {
    s.(threads := s.threads - {t})
  }

  // ----- around the process -----

  predicate CanHappen(s: State, e: Event) {
    match e
    case Crash => Up(s)
    case Boot => !Up(s)
    case InitLoad => IsAt(s, Initializing) && s.storeLock.None?
    case Leave(_) => true
    case Arrive(t, _) => Up(s) && t !in s.threads
  }

  /** All memory goes in a crash, the file and the venue stay; a new controller restores the flags. */
  function Happen(s: State, e: Event): State {
    match e
    case Crash => Idle(s.file, s.book, s.sent)
    case Boot => Idle(s.file, s.book, s.sent).(threads := map[LOOP := Initializing], flags := s.file.saved)
    case InitLoad => At(s.(memBase := s.file.base), LOOP, CycleTop)
    case Leave(departed) => s.(book := s.book - departed)
    case Arrive(t, op) => At(s, t, Change(op))
  }

  // ----- the controller lock -----

  predicate CanStride(s: State, t: nat, d: Stride) {
    t in s.threads &&
    match d
    case LockCtrl => s.ctrlLock.None? && (s.threads[t].Change? || (s.threads[t].Saving? && s.threads[t].at.Loaded?))
    case Commit => s.threads[t].Changing?
    case Signal => s.threads[t].Signalling?
  }

  /** A request changes the flags under the controller lock, wakes the loop, then persists. */
  function Strode(s: State, t: nat, d: Stride): State
    requires CanStride(s, t, d)
  {
    var pc := s.threads[t];
    match d
    case LockCtrl => At(s, t, if pc.Change? then Changing(pc.op) else Saving(Overlaying(pc.at.value), pc.after)).(ctrlLock := Some(t))
    case Commit =>
      (match Changed(s.flags, pc.op)
       case None => Gone(s, t)
       case Some(f) => At(s, t, Signalling(!pc.op.LeanOp?)).(flags := f)).(ctrlLock := None)
    case Signal => (if pc.persists then At(s, t, Saving(WantStore, ThenDone)) else Gone(s, t)).(wake := true)
  }

  // ----- writing the file -----

  predicate CanFile(s: State, t: nat, f: FileStep) {
    SavingAt(s, t) &&
    match f
    case LockStore(_) => s.threads[t].at.WantStore? && s.storeLock.None?
    case Copy => s.threads[t].at.Overlaying?
    case Write(_) => s.threads[t].at.Ready?
  }

  /** What follows a write: a request is done, a failed save ends the loop's cycle. */
  function AfterWrite(s: State, t: nat, after: After, ok: bool): State {
    match after
    case ThenDone => Gone(s, t)
    case ThenSelect => At(s, t, Select)
    case ThenPlace(avail) => At(s, t, if ok then Placing(avail) else Select)
  }

  /** The loop saves its own state, a request rewrites what the file holds; either way the flags are the
      controller's as of the overlay. */
  function Filed(s: State, t: nat, f: FileStep): State
    requires CanFile(s, t, f)
  {
    var pc := s.threads[t];
    match f
    case LockStore(readable) =>
      if pc.after.ThenDone? && !readable then Gone(s, t).(behind := true)
      else At(s, t, Saving(Loaded(if pc.after.ThenDone? then s.file else Persist(s.memBase, CLEAR)), pc.after)).(storeLock := Some(t))
    case Copy => At(s, t, Saving(Ready(pc.at.value.(saved := s.flags)), pc.after)).(ctrlLock := None)
    case Write(ok) =>
      AfterWrite(s, t, pc.after, ok).(file := if ok then pc.at.value else s.file, behind := !ok, storeLock := None)
  }

  // ----- the quoting loop -----

  predicate CanMove(s: State, m: LoopStep) {
    Up(s) &&
    var pc := s.threads[LOOP];
    match m
    case Poll => pc.Select?
    case Woken => pc.Select? && s.wake
    case Top(halts) => pc.CycleTop? && s.ctrlLock.None? && (s.flags.killed ==> halts)
    case Abandon => pc.Working? || pc.Placing?
    case Halt => pc.Working? && s.ctrlLock.None?
    case Finish => (pc.Working? || pc.Placing?) && s.ctrlLock.None?
    case Allocate(clock, levels) =>
      pc.Working? && levels >= 1 && s.ctrlLock.None?
      && 2 * clock < LIMIT && NextBase(s.memBase, clock) + 2 * levels < LIMIT
    case Admit(n) => pc.Placing? && n in pc.avail && s.ctrlLock.None? && !s.flags.killed && !s.flags.paused
    case Send(_, _) => pc.Sending?
    case List(_) => pc.HaltList?
    case CancelNext(n, confirmed, gone) => pc.HaltCancel? && n in pc.todo && (confirmed ==> gone)
    case HaltDone => pc.HaltCancel? && pc.todo == {}
  }

  /** Wait, start a cycle, then halt or work; place under identities saved beforehand, each placement
      admitted by the controller just before it is sent; in a halt list, cancel everything listed, and
      save when all went well. */
  function Moved(s: State, m: LoopStep): State
    requires CanMove(s, m)
  {
    var pc := s.threads[LOOP];
    match m
    case Poll => At(s, LOOP, CycleTop)
    case Woken => At(s.(wake := false), LOOP, CycleTop)
    case Top(halts) => At(s, LOOP, if halts then HaltList else Working)
    case Abandon => At(s, LOOP, Select)
    case Halt => At(s, LOOP, HaltList)
    case Finish => At(s, LOOP, Saving(WantStore, ThenSelect))
    case Allocate(clock, levels) =>
      var base := NextBase(s.memBase, clock);
      At(s.(memBase := base + 2 * levels), LOOP, Saving(WantStore, ThenPlace(Span(base, 2 * levels))))
    case Admit(n) => At(s, LOOP, Sending(n, pc.avail - {n}))
    case Send(rests, accepted) =>
      At(s.(sent := s.sent + [pc.nonce], book := if rests then s.book + {pc.nonce} else s.book), LOOP,
         if accepted then Placing(pc.rest) else Select)
    case List(listed) => At(s, LOOP, if listed then HaltCancel(s.book, true) else Select)
    case CancelNext(n, confirmed, gone) =>
      At(s.(book := if gone then s.book - {n} else s.book), LOOP, HaltCancel(pc.todo - {n}, pc.ok && confirmed))
    case HaltDone => At(s, LOOP, if pc.ok then Saving(WantStore, ThenSelect) else Select)
  }

  // ----- steps and runs -----

  predicate Enabled(s: State, a: Action) {
    match a
    case Around(e) => CanHappen(s, e)
    case By(t, d) => CanStride(s, t, d)
    case Files(t, f) => CanFile(s, t, f)
    case Quotes(m) => CanMove(s, m)
  }

  function Apply(s: State, a: Action): State
    requires Enabled(s, a)
  {
    match a
    case Around(e) => Happen(s, e)
    case By(t, d) => Strode(s, t, d)
    case Files(t, f) => Filed(s, t, f)
    case Quotes(m) => Moved(s, m)
  }

  ghost predicate Valid(s: State, run: seq<Action>)
    decreases |run|, 0
  {
    run == [] || (Valid(s, run[..|run| - 1]) && Enabled(Reached(s, run[..|run| - 1]), run[|run| - 1]))
  }

  ghost function Reached(s: State, run: seq<Action>): State
    requires Valid(s, run)
    decreases |run|, 1
  {
    if run == [] then s else Apply(Reached(s, run[..|run| - 1]), run[|run| - 1])
  }

  /** Before the first boot: any file, any book, nothing sent. */
  ghost predicate Cold(s: State) {
    s == Idle(s.file, s.book, [])
  }
}
