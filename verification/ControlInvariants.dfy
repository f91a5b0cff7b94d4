/** What every interleaving keeps: who holds which lock, which nonces may still be used, when the file
    and the controller may differ, and what a halt still has to cancel. */
module ControlInvariants {
  import opened Market
  import opened ControlFlags
  import opened ControlProtocol

  // ----- the shape of a step -----

  predicate HoldsCtrl(pc: PC) {
    pc.Changing? || (pc.Saving? && pc.at.Overlaying?)
  }

  predicate HoldsStore(pc: PC) {
    pc.Saving? && !pc.at.WantStore?
  }

  predicate IsLoopPC(pc: PC) {
    !pc.Change? && !pc.Changing? && !pc.Signalling? && (pc.Saving? ==> !pc.after.ThenDone?)
  }

  /** The thread that takes the step. */
  function Actor(a: Action): nat {
    match a
    case Around(e) => if e.Arrive? then e.t else LOOP
    case By(t, _) => t
    case Files(t, _) => t
    case Quotes(_) => LOOP
  }

  predicate Restarts(a: Action) {
    a.Around? && (a.event.Crash? || a.event.Boot?)
  }

  ghost predicate OnlyAt(s: State, s': State, t: nat) {
    forall u :: u != t ==> (u in s'.threads <==> u in s.threads) && (u in s.threads ==> s'.threads[u] == s.threads[u])
  }

  predicate HasCtrl(s: State, t: nat) {
    t in s.threads && HoldsCtrl(s.threads[t])
  }

  predicate HasStore(s: State, t: nat) {
    t in s.threads && HoldsStore(s.threads[t])
  }

  predicate InRole(s: State, t: nat) {
    t in s.threads ==> (IsLoopPC(s.threads[t]) <==> t == LOOP)
  }

  /** A lock goes from free to its taker or from its holder to free, or stays. */
  predicate LockMoves(before: Option<nat>, after: Option<nat>, held: bool, holds: bool, t: nat) {
    if held == holds then after == before
    else if holds then before.None? && after == Some(t)
    else before == Some(t) && after.None?
  }

  predicate ThreadFits(s: State, t: nat) {
    InRole(s, t) && (t in s.threads ==> Up(s)) && (HasCtrl(s, t) <==> s.ctrlLock == Some(t)) && (HasStore(s, t) <==> s.storeLock == Some(t))
  }

  /** One thread moves, and the locks with it. */
  ghost predicate MovesOne(s: State, s': State, t: nat) {
    && OnlyAt(s, s', t) && InRole(s', t) && (Up(s') <==> Up(s)) && (t in s'.threads ==> Up(s'))
    && LockMoves(s.ctrlLock, s'.ctrlLock, HasCtrl(s, t), HasCtrl(s', t), t)
    && LockMoves(s.storeLock, s'.storeLock, HasStore(s, t), HasStore(s', t), t)
  }

  lemma EventMovesOne(s: State, e: Event)
    requires CanHappen(s, e) && !e.Crash? && !e.Boot? && ThreadFits(s, Actor(Around(e)))
    ensures MovesOne(s, Happen(s, e), Actor(Around(e)))
  {
  }

  lemma StrideMovesOne(s: State, t: nat, d: Stride)
    requires CanStride(s, t, d) && ThreadFits(s, t)
    ensures MovesOne(s, Strode(s, t, d), t)
  {
  }

  lemma FileStepMovesOne(s: State, t: nat, f: FileStep)
    requires CanFile(s, t, f) && ThreadFits(s, t)
    ensures MovesOne(s, Filed(s, t, f), t)
  {
  }

  lemma LoopMovesOne(s: State, m: LoopStep)
    requires CanMove(s, m) && ThreadFits(s, LOOP)
    ensures MovesOne(s, Moved(s, m), LOOP)
  {
  }

  // ----- locks -----

  /** A lock is held by exactly the thread whose place in the code says so, only the loop runs the loop's
      code, and no request runs without it. */
  ghost predicate Locks(s: State) {
    && (forall t :: t in s.threads ==> ThreadFits(s, t))
    && (s.ctrlLock.Some? ==> s.ctrlLock.value in s.threads)
    && (s.storeLock.Some? ==> s.storeLock.value in s.threads)
  }

  lemma LocksMove(s: State, s': State, t: nat)
    requires Locks(s) && MovesOne(s, s', t)
    ensures Locks(s')
  {
  }

  lemma RestartKeepsLocks(s: State, e: Event)
    requires CanHappen(s, e) && (e.Crash? || e.Boot?)
    ensures Locks(Happen(s, e))
  {
  }

  lemma StepKeepsLocks(s: State, a: Action)
    requires Locks(s) && Enabled(s, a)
    ensures Locks(Apply(s, a))
    ensures !Restarts(a) ==> MovesOne(s, Apply(s, a), Actor(a))
  {
    hide Happen, Strode, Filed, Moved, CanHappen, CanStride, CanFile, CanMove, Locks, MovesOne, ThreadFits;
    if Restarts(a) {
      RestartKeepsLocks(s, a.event);
    } else {
      ActorFits(s, a);
      match a {
        case Around(e) => EventMovesOne(s, e);
        case By(t, d) => StrideMovesOne(s, t, d);
        case Files(t, f) => FileStepMovesOne(s, t, f);
        case Quotes(m) => LoopMovesOne(s, m);
      }
      LocksMove(s, Apply(s, a), Actor(a));
    }
  }

  lemma ActorFits(s: State, a: Action)
    requires Locks(s)
    ensures ThreadFits(s, Actor(a))
  {
  }

  // ----- nonces -----

  ghost predicate NoRepeats(sent: seq<nat>) {
    forall i, j :: 0 <= i < j < |sent| ==> sent[i] != sent[j]
  }

  ghost predicate Unused(avail: set<nat>, sent: seq<nat>, below: nat) {
    forall n :: n in avail ==> n !in sent && n < below
  }

  ghost predicate LoopNonces(s: State, pc: PC) {
    && (!pc.Initializing? ==> s.file.base <= s.memBase)
    && (pc.Placing? ==> Unused(pc.avail, s.sent, s.file.base))
    && (pc.Sending? ==> pc.nonce !in pc.rest && Unused(pc.rest + {pc.nonce}, s.sent, s.file.base))
    && (pc.Saving? && pc.after.ThenPlace? ==> Unused(pc.after.avail, s.sent, s.memBase))
  }

  ghost predicate PendingBase(s: State, t: nat) {
    HasStore(s, t) ==> s.threads[t].at.value.base == if t == LOOP then s.memBase else s.file.base
  }

  /** No nonce was sent twice, all are below the base on file, and what is set aside is unused. */
  ghost predicate Nonces(s: State) {
    && NoRepeats(s.sent)
    && (forall n :: n in s.sent ==> n < s.file.base)
    && (Up(s) ==> LoopNonces(s, s.threads[LOOP]))
    && forall t :: t in s.threads ==> PendingBase(s, t)
  }

  lemma EventKeepsNonces(s: State, e: Event)
    requires Nonces(s) && CanHappen(s, e) && Locks(s)
    ensures Nonces(Happen(s, e)) && s.file.base <= Happen(s, e).file.base
  {
  }

  /** Only one thread's own part has to be looked at when nothing it shares changes. */
  lemma ThreadKeepsNonces(s: State, s': State, t: nat)
    requires Nonces(s) && OnlyAt(s, s', t) && PendingBase(s', t)
    requires s'.sent == s.sent && s'.file == s.file && s'.memBase == s.memBase && (Up(s') <==> Up(s))
    requires t == LOOP && Up(s') ==> LoopNonces(s', s'.threads[LOOP])
    ensures Nonces(s')
  {
    forall u | u in s'.threads && u != t ensures PendingBase(s', u) {
      assert PendingBase(s, u);
    }
  }

  lemma StrideKeepsNonces(s: State, t: nat, d: Stride)
    requires Nonces(s) && CanStride(s, t, d) && Locks(s) && MovesOne(s, Strode(s, t, d), t)
    ensures Nonces(Strode(s, t, d)) && s.file.base <= Strode(s, t, d).file.base
  {
    hide NoRepeats, Unused, Killed, Paused, Resumed;
    assert ThreadFits(s, t) && PendingBase(s, t);
    ThreadKeepsNonces(s, Strode(s, t, d), t);
  }

  /** A write moves the file's base up to what the loop set aside; no other thread has a value pending. */
  lemma WriteKeepsNonces(s: State, s': State, t: nat)
    requires Nonces(s) && OnlyAt(s, s', t) && !HasStore(s', t)
    requires forall u :: u in s.threads && u != t ==> !HasStore(s, u)
    requires s'.sent == s.sent && s'.memBase == s.memBase && (Up(s') <==> Up(s))
    requires s'.file.base == s.file.base || (t == LOOP && s'.file.base == s.memBase && s.file.base <= s.memBase)
    requires t == LOOP && Up(s') ==> LoopNonces(s', s'.threads[LOOP])
    ensures Nonces(s')
  {
    forall u | u in s'.threads ensures !HasStore(s', u) {
    }
  }

  lemma FileStepKeepsNonces(s: State, t: nat, f: FileStep)
    requires Nonces(s) && CanFile(s, t, f) && Locks(s) && MovesOne(s, Filed(s, t, f), t)
    ensures Nonces(Filed(s, t, f)) && s.file.base <= Filed(s, t, f).file.base
  {
    hide NoRepeats, Unused;
    assert ThreadFits(s, t) && PendingBase(s, t);
    if f.Write? {
      NobodyElseHasStore(s, t);
      WriteKeepsNonces(s, Filed(s, t, f), t);
    } else {
      ThreadKeepsNonces(s, Filed(s, t, f), t);
    }
  }

  lemma NobodyElseHasStore(s: State, t: nat)
    requires Locks(s) && (HasStore(s, t) || s.storeLock.None?)
    ensures forall u :: u in s.threads && u != t ==> !HasStore(s, u)
  {
    assert t in s.threads ==> ThreadFits(s, t);
    forall u | u in s.threads && u != t ensures !HasStore(s, u) {
      assert ThreadFits(s, u);
    }
  }

  lemma AllocateKeepsNonces(s: State, clock: nat, levels: nat)
    requires Nonces(s) && CanMove(s, Allocate(clock, levels)) && Locks(s)
    ensures Nonces(Moved(s, Allocate(clock, levels)))
  {
    hide NoRepeats, Span, NextBase;
    var s' := Moved(s, Allocate(clock, levels));
    assert ThreadFits(s, LOOP);
    forall t | t in s'.threads ensures PendingBase(s', t) {
      assert t != LOOP ==> PendingBase(s, t);
    }
  }

  lemma SendKeepsNonces(s: State, rests: bool, accepted: bool)
    requires Nonces(s) && CanMove(s, Send(rests, accepted)) && Locks(s)
    ensures Nonces(Moved(s, Send(rests, accepted)))
  {
    var s' := Moved(s, Send(rests, accepted));
    forall t | t in s'.threads ensures PendingBase(s', t) {
      assert PendingBase(s, t);
    }
  }

  /** A step that neither sends nor sets anything aside: what may be placed only shrinks. */
  lemma OtherMovesKeepLoopNonces(s: State, m: LoopStep)
    requires CanMove(s, m) && LoopNonces(s, s.threads[LOOP]) && !m.Allocate? && !m.Send?
    ensures var s' := Moved(s, m);
            && s'.sent == s.sent && s'.file == s.file && s'.memBase == s.memBase && OnlyAt(s, s', LOOP)
            && LoopNonces(s', s'.threads[LOOP]) && !HasStore(s', LOOP)
  {
    hide NextBase, Span;
  }

  lemma LoopKeepsNonces(s: State, m: LoopStep)
    requires Nonces(s) && CanMove(s, m) && Locks(s)
    ensures Nonces(Moved(s, m)) && s.file.base <= Moved(s, m).file.base
  {
    if m.Allocate? {
      AllocateKeepsNonces(s, m.clock, m.levels);
    } else if m.Send? {
      SendKeepsNonces(s, m.rests, m.accepted);
    } else {
      OtherMovesKeepLoopNonces(s, m);
      hide Moved, CanMove, LoopNonces, NoRepeats, Locks, OnlyAt;
      ThreadKeepsNonces(s, Moved(s, m), LOOP);
    }
  }

  lemma StepKeepsNonces(s: State, a: Action)
    requires Nonces(s) && Enabled(s, a) && Locks(s)
    ensures Nonces(Apply(s, a)) && s.file.base <= Apply(s, a).file.base
  {
    hide Happen, Strode, Filed, Moved, CanHappen, CanStride, CanFile, CanMove, Locks, Nonces, MovesOne;
    StepKeepsLocks(s, a);
    match a {
      case Around(e) => EventKeepsNonces(s, e);
      case By(t, d) => StrideKeepsNonces(s, t, d);
      case Files(t, f) => FileStepKeepsNonces(s, t, f);
      case Quotes(m) => LoopKeepsNonces(s, m);
    }
  }

  // ----- the file and the controller -----

  /** A request that changed the flags and has not yet taken the copy it will write. */
  predicate Owing(pc: PC) {
    (pc.Signalling? && pc.persists) || (pc.Saving? && pc.after.ThenDone? && !pc.at.Ready?)
  }

  /** Between its change and the end of its persist. */
  predicate Persisting(pc: PC) {
    Owing(pc) || (pc.Saving? && pc.after.ThenDone?)
  }

  ghost predicate AnyOwing(s: State) {
    exists t :: t in s.threads && Owing(s.threads[t])
  }

  ghost predicate AnyPersisting(s: State) {
    exists t :: t in s.threads && Persisting(s.threads[t])
  }

  /** An overlaid value is current unless some request is still to take its copy; and outside every
      request's change-to-persist window the file is current unless the last write failed. */
  ghost predicate FileFollows(s: State) {
    && (forall t :: t in s.threads && s.threads[t].Saving? && s.threads[t].at.Ready? ==>
         s.threads[t].at.value.saved == s.flags || AnyOwing(s))
    && (Up(s) && !s.behind && !AnyPersisting(s) ==> s.file.saved == s.flags)
  }

  /** Owing threads other than the one that moves stay owing. */
  lemma OthersStillOwe(s: State, s': State, t: nat)
    requires OnlyAt(s, s', t)
    ensures AnyOwing(s) && !(t in s.threads && Owing(s.threads[t])) ==> AnyOwing(s')
    ensures t in s'.threads && Owing(s'.threads[t]) ==> AnyOwing(s')
    ensures AnyPersisting(s) && !(t in s.threads && Persisting(s.threads[t])) ==> AnyPersisting(s')
    ensures t in s'.threads && Persisting(s'.threads[t]) ==> AnyPersisting(s')
  {
    if AnyOwing(s) {
      var u :| u in s.threads && Owing(s.threads[u]);
      assert u != t ==> u in s'.threads && Owing(s'.threads[u]);
    }
    if AnyPersisting(s) {
      var u :| u in s.threads && Persisting(s.threads[u]);
      assert u != t ==> u in s'.threads && Persisting(s'.threads[u]);
    }
  }

  lemma OwingIsPersisting(s: State)
    ensures AnyOwing(s) ==> AnyPersisting(s)
  {
  }

  lemma EventKeepsFileFollows(s: State, e: Event)
    requires FileFollows(s) && CanHappen(s, e) && Locks(s)
    requires !e.Crash? && !e.Boot? ==> MovesOne(s, Happen(s, e), Actor(Around(e)))
    ensures FileFollows(Happen(s, e))
  {
    if !e.Crash? && !e.Boot? {
      hide AnyOwing, AnyPersisting;
      OthersStillOwe(s, Happen(s, e), Actor(Around(e)));
    }
  }

  lemma StrideKeepsFileFollows(s: State, t: nat, d: Stride)
    requires FileFollows(s) && CanStride(s, t, d) && Locks(s)
    requires MovesOne(s, Strode(s, t, d), t)
    ensures FileFollows(Strode(s, t, d))
  {
    hide AnyOwing, AnyPersisting, Killed, Paused, Resumed, LockMoves, InRole, HasStore, HasCtrl;
    OthersStillOwe(s, Strode(s, t, d), t);
  }

  lemma FileStepKeepsFileFollows(s: State, t: nat, f: FileStep)
    requires FileFollows(s) && CanFile(s, t, f) && Locks(s)
    requires MovesOne(s, Filed(s, t, f), t)
    ensures FileFollows(Filed(s, t, f))
  {
    hide AnyOwing, AnyPersisting;
    assert ThreadFits(s, t);
    OthersStillOwe(s, Filed(s, t, f), t);
    NobodyElseHasStore(s, t);
    OwingIsPersisting(s);
    OwingIsPersisting(Filed(s, t, f));
  }

  lemma LoopKeepsFileFollows(s: State, m: LoopStep)
    requires FileFollows(s) && CanMove(s, m) && Locks(s)
    requires MovesOne(s, Moved(s, m), LOOP)
    ensures FileFollows(Moved(s, m))
  {
    hide AnyOwing, AnyPersisting;
    assert ThreadFits(s, LOOP);
    OthersStillOwe(s, Moved(s, m), LOOP);
  }

  lemma StepKeepsFileFollows(s: State, a: Action)
    requires FileFollows(s) && Enabled(s, a) && Locks(s)
    ensures FileFollows(Apply(s, a))
  {
    hide Happen, Strode, Filed, Moved, CanHappen, CanStride, CanFile, CanMove, Locks, FileFollows, MovesOne;
    StepKeepsLocks(s, a);
    match a {
      case Around(e) => EventKeepsFileFollows(s, e);
      case By(t, d) => StrideKeepsFileFollows(s, t, d);
      case Files(t, f) => FileStepKeepsFileFollows(s, t, f);
      case Quotes(m) => LoopKeepsFileFollows(s, m);
    }
  }

  // ----- a halt -----

  /** While every cancel so far was confirmed, whatever still rests is still to be cancelled. */
  ghost predicate HaltCovers(s: State) {
    Up(s) && s.threads[LOOP].HaltCancel? && s.threads[LOOP].ok ==> s.book <= s.threads[LOOP].todo
  }

  lemma LoopKeepsHaltCovers(s: State, m: LoopStep)
    requires HaltCovers(s) && CanMove(s, m)
    ensures HaltCovers(Moved(s, m))
  {
  }

  /** Nothing but the loop adds to the book, or moves the loop from one cancel to the next. */
  lemma OthersKeepHaltCovers(s: State, s': State, t: nat)
    requires HaltCovers(s) && OnlyAt(s, s', t) && s'.book <= s.book
    requires t == LOOP && Up(s') ==> s'.threads == s.threads || !s'.threads[LOOP].HaltCancel?
    ensures HaltCovers(s')
  {
  }

  lemma FilesAddNothing(s: State, t: nat, f: FileStep)
    requires CanFile(s, t, f)
    ensures Filed(s, t, f).book == s.book && Filed(s, t, f).sent == s.sent
    ensures t in Filed(s, t, f).threads ==> !Filed(s, t, f).threads[t].HaltCancel?
  {
  }

  lemma StridesAddNothing(s: State, t: nat, d: Stride)
    requires CanStride(s, t, d)
    ensures Strode(s, t, d).book == s.book && Strode(s, t, d).sent == s.sent
    ensures t in Strode(s, t, d).threads ==> !Strode(s, t, d).threads[t].HaltCancel?
  {
  }

  lemma EventKeepsHaltCovers(s: State, e: Event)
    requires HaltCovers(s) && CanHappen(s, e)
    ensures HaltCovers(Happen(s, e))
  {
  }

  lemma StepKeepsHaltCovers(s: State, a: Action)
    requires HaltCovers(s) && Enabled(s, a) && Locks(s)
    ensures HaltCovers(Apply(s, a))
  {
    hide Happen, Strode, Filed, Moved, CanHappen, CanStride, CanFile, CanMove, Locks, HaltCovers;
    StepKeepsLocks(s, a);
    match a {
      case Around(e) => EventKeepsHaltCovers(s, e);
      case By(t, d) =>
        StridesAddNothing(s, t, d);
        OthersKeepHaltCovers(s, Apply(s, a), t);
      case Files(t, f) =>
        FilesAddNothing(s, t, f);
        OthersKeepHaltCovers(s, Apply(s, a), t);
      case Quotes(m) => LoopKeepsHaltCovers(s, m);
    }
  }
}
