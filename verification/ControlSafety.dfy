/** The operator's guarantees over every run of the protocol: what a kill stops, what survives a restart,
    that no change is missed, and that nobody waits forever for a lock. */
module ControlSafety {
  import opened Market
  import opened ControlFlags
  import opened ControlProtocol
  import opened ControlInvariants

  ghost predicate Inv(s: State) {
    Locks(s) && Nonces(s) && FileFollows(s) && HaltCovers(s)
  }

  lemma StepKeepsInv(s: State, a: Action)
    requires Inv(s) && Enabled(s, a)
    ensures Inv(Apply(s, a))
  {
    hide Apply, Enabled, Locks, Nonces, FileFollows, HaltCovers;
    StepKeepsLocks(s, a);
    StepKeepsNonces(s, a);
    StepKeepsFileFollows(s, a);
    StepKeepsHaltCovers(s, a);
  }

  lemma {:induction false} RunKeepsInv(s: State, run: seq<Action>)
    requires Cold(s) && Valid(s, run)
    ensures Inv(Reached(s, run))
  {
    hide Apply, Enabled;
    if run != [] {
      RunKeepsInv(s, run[..|run| - 1]);
      StepKeepsInv(Reached(s, run[..|run| - 1]), run[|run| - 1]);
    }
  }

  // ----- identities -----

  /** Over every run, whatever the clock says and wherever it crashes, no nonce is sent twice, and every
      one sent is below the base on file. */
  lemma NonceIsNeverReused(s: State, run: seq<Action>)
    requires Cold(s) && Valid(s, run)
    ensures NoRepeats(Reached(s, run).sent)
    ensures forall n :: n in Reached(s, run).sent ==> n < Reached(s, run).file.base
  {
    hide Locks, FileFollows, HaltCovers;
    RunKeepsInv(s, run);
  }

  // ----- kill and pause -----

  /** Killed or paused now, or on file when no process is up. */
  predicate StopHolds(s: State) {
    Stopped(if Up(s) then s.flags else s.file.saved)
  }

  /** Killed now, or killed on file when no process is up. */
  predicate KillHolds(s: State) {
    if Up(s) then s.flags.killed else s.file.saved.killed
  }

  /** Past AllowPlace and not yet sent. */
  function InFlight(s: State): set<nat> {
    if Up(s) && s.threads[LOOP].Sending? then {s.threads[LOOP].nonce} else {}
  }

  lemma SendEndsTheFlight(s: State, rests: bool, accepted: bool)
    requires CanMove(s, Send(rests, accepted))
    ensures var s' := Moved(s, Send(rests, accepted));
            s'.book <= s.book + InFlight(s) && InFlight(s') == {} && |s'.sent| == |s.sent| + |InFlight(s)|
  {
  }

  lemma NothingElseIsSent(s: State, m: LoopStep)
    requires CanMove(s, m) && Stopped(s.flags) && !m.Send?
    ensures var s' := Moved(s, m); s'.book <= s.book && InFlight(s') == {} && s'.sent == s.sent
  {
    hide Span, NextBase;
  }

  lemma LoopWhileStopped(s: State, m: LoopStep)
    requires CanMove(s, m) && Stopped(s.flags)
    ensures var s' := Moved(s, m);
            && s'.book <= s.book + InFlight(s) && InFlight(s') <= InFlight(s)
            && |s'.sent| + |InFlight(s')| <= |s.sent| + |InFlight(s)|
  {
    hide Moved, CanMove, InFlight;
    if m.Send? {
      SendEndsTheFlight(s, m.rests, m.accepted);
    } else {
      NothingElseIsSent(s, m);
    }
  }

  lemma OthersSendNothing(s: State, s': State, t: nat)
    requires OnlyAt(s, s', t) && s'.book <= s.book && s'.sent == s.sent
    requires t in s'.threads && t == LOOP ==> !s'.threads[t].Sending? || s'.threads == s.threads
    ensures InFlight(s') <= InFlight(s) && |InFlight(s')| <= |InFlight(s)|
  {
  }

  lemma EventSendsNothing(s: State, e: Event)
    requires CanHappen(s, e)
    ensures var s' := Happen(s, e);
            s'.book <= s.book && s'.sent == s.sent && InFlight(s') <= InFlight(s) && |InFlight(s')| <= |InFlight(s)|
  {
  }

  lemma FilesAdmitNothing(s: State, t: nat, f: FileStep)
    requires CanFile(s, t, f)
    ensures t in Filed(s, t, f).threads ==> !Filed(s, t, f).threads[t].Sending?
  {
  }

  lemma StridesAdmitNothing(s: State, t: nat, d: Stride)
    requires CanStride(s, t, d)
    ensures t in Strode(s, t, d).threads ==> !Strode(s, t, d).threads[t].Sending?
  {
  }

  /** Under a kill or a pause a step adds nothing to the book but the placement already in flight, and admits no
      other. */
  lemma StepWhileStopped(s: State, a: Action)
    requires Locks(s) && Enabled(s, a) && StopHolds(s)
    ensures var s' := Apply(s, a);
            && s'.book <= s.book + InFlight(s) && InFlight(s') <= InFlight(s)
            && |s'.sent| + |InFlight(s')| <= |s.sent| + |InFlight(s)|
  {
    hide Happen, Strode, Filed, Moved, CanHappen, CanStride, CanFile, CanMove, Locks, InFlight;
    StepKeepsLocks(s, a);
    match a {
      case Around(e) => EventSendsNothing(s, e);
      case By(t, d) =>
        StridesAddNothing(s, t, d);
        StridesAdmitNothing(s, t, d);
        OthersSendNothing(s, Apply(s, a), t);
      case Files(t, f) =>
        FilesAddNothing(s, t, f);
        FilesAdmitNothing(s, t, f);
        OthersSendNothing(s, Apply(s, a), t);
      case Quotes(m) =>
        LoopMovesOnlyUp(s, m);
        LoopWhileStopped(s, m);
    }
  }

  lemma LoopMovesOnlyUp(s: State, m: LoopStep)
    requires CanMove(s, m)
    ensures Up(s)
  {
  }

  lemma {:induction false} ValidPrefix(s: State, run: seq<Action>, i: nat)
    requires Valid(s, run) && i <= |run|
    ensures Valid(s, run[..i])
  {
    if i < |run| {
      ValidPrefix(s, run[..|run| - 1], i);
      assert run[..|run| - 1][..i] == run[..i];
    } else {
      assert run[..i] == run;
    }
  }

  /** The state after the first i steps. */
  ghost function Nth(s: State, run: seq<Action>, i: nat): State
    requires Valid(s, run) && i <= |run|
  {
    ValidPrefix(s, run, i);
    Reached(s, run[..i])
  }

  lemma NthStep(s: State, run: seq<Action>, i: nat)
    requires Valid(s, run) && i < |run|
    ensures Enabled(Nth(s, run, i), run[i]) && Nth(s, run, i + 1) == Apply(Nth(s, run, i), run[i])
  {
    ValidPrefix(s, run, i + 1);
    assert run[..i + 1][..i] == run[..i];
  }

  lemma NthInv(s: State, run: seq<Action>, i: nat)
    requires Cold(s) && Valid(s, run) && i <= |run|
    ensures Inv(Nth(s, run, i))
  {
    ValidPrefix(s, run, i);
    RunKeepsInv(s, run[..i]);
  }

  /** A kill or a pause holds from the i-th state to the j-th, restarts included. */
  ghost predicate StoppedThroughout(s: State, run: seq<Action>, i: nat, j: nat)
    requires Valid(s, run) && i <= j <= |run|
  {
    forall k: nat :: i <= k <= j ==> StopHolds(Nth(s, run, k))
  }

  /** From the moment a kill or a pause is set and for as long as either holds, in every interleaving and across
      restarts, at most the one placement already past AllowPlace is sent; nothing else is ever added to
      the book. */
  lemma {:induction false} AfterAStopAtMostOneIsSent(s: State, run: seq<Action>, i: nat, j: nat)
    requires Cold(s) && Valid(s, run) && i <= j <= |run| && StoppedThroughout(s, run, i, j)
    ensures var was, now := Nth(s, run, i), Nth(s, run, j);
            && |now.sent| + |InFlight(now)| <= |was.sent| + |InFlight(was)| <= |was.sent| + 1
            && now.book <= was.book + InFlight(was) && InFlight(now) <= InFlight(was)
    decreases j
  {
    hide Enabled, Apply, Nth, StopHolds;
    if i < j {
      AfterAStopAtMostOneIsSent(s, run, i, j - 1);
      NthStep(s, run, j - 1);
      NthInv(s, run, j - 1);
      StepWhileStopped(Nth(s, run, j - 1), run[j - 1]);
    }
  }

  /** A halt pass that listed the book and had every cancel confirmed or not found. */
  predicate HaltCompleted(s: State) {
    Up(s) && s.threads[LOOP] == HaltCancel({}, true)
  }

  /** Once a killed or paused cycle has cancelled everything it listed, no order of the bot rests for as long as
      one of them holds. */
  lemma StoppedBookStaysEmpty(s: State, run: seq<Action>, i: nat, j: nat)
    requires Cold(s) && Valid(s, run) && i <= j <= |run| && StoppedThroughout(s, run, i, j)
    requires HaltCompleted(Nth(s, run, i))
    ensures Nth(s, run, j).book == {} && Nth(s, run, j).sent == Nth(s, run, i).sent
  {
    hide Enabled, Apply, Nth, StopHolds, Locks, Nonces, FileFollows;
    NthInv(s, run, i);
    AfterAStopAtMostOneIsSent(s, run, i, j);
    SentOnlyGrows(s, run, i, j);
  }

  /** A step in which an accepted resume takes effect. */
  predicate LiftsAt(s: State, a: Action) {
    a.By? && a.stride.Commit? && a.t in s.threads && s.threads[a.t].Changing? && Lifts(s.flags, s.threads[a.t].op)
  }

  lemma StrideKeepsStop(s: State, t: nat, d: Stride)
    requires CanStride(s, t, d) && Stopped(s.flags) && !LiftsAt(s, By(t, d))
    ensures Stopped(Strode(s, t, d).flags)
  {
  }

  lemma StopSurvivesStep(s: State, a: Action)
    requires Enabled(s, a) && !Restarts(a) && !LiftsAt(s, a) && Up(s) && Stopped(s.flags) && Locks(s)
    ensures Stopped(Apply(s, a).flags) && Up(Apply(s, a))
  {
    hide CanMove, CanFile, CanStride, CanHappen, Strode, Filed, Moved, Happen, Locks, LiftsAt, Stopped;
    StepKeepsLocks(s, a);
    match a {
      case Around(e) => EventKeepsFlags(s, e);
      case By(t, d) => StrideKeepsStop(s, t, d);
      case Files(t, f) => FilesKeepFlags(s, t, f);
      case Quotes(m) => LoopKeepsFlags(s, m);
    }
  }

  lemma CommitStops(s: State, t: nat)
    requires Enabled(s, By(t, Commit)) && (s.threads[t].op.KillOp? || s.threads[t].op.PauseOp?) && Locks(s)
    ensures Up(Apply(s, By(t, Commit))) && Stopped(Apply(s, By(t, Commit)).flags)
  {
    assert ThreadFits(s, t);
  }

  /** From the step in which a kill or a pause request takes effect, until a resume does or the process restarts,
      at most the one placement already past AllowPlace is sent and nothing else joins the book. */
  lemma RequestStopsAllButOne(s: State, run: seq<Action>, t: nat, i: nat, j: nat)
    requires Cold(s) && Valid(s, run) && i < j <= |run|
    requires run[i] == By(t, Commit) && t in Nth(s, run, i).threads && Nth(s, run, i).threads[t].Changing?
    requires Nth(s, run, i).threads[t].op.KillOp? || Nth(s, run, i).threads[t].op.PauseOp?
    requires forall k: nat :: i < k < j ==> !Restarts(run[k]) && !LiftsAt(Nth(s, run, k), run[k])
    ensures Up(Nth(s, run, j)) && Stopped(Nth(s, run, j).flags)
    ensures var was, now := Nth(s, run, i + 1), Nth(s, run, j);
            |now.sent| + |InFlight(now)| <= |was.sent| + |InFlight(was)| <= |was.sent| + 1 && now.book <= was.book + InFlight(was)
  {
    hide Enabled, Apply, Nth, Locks, Nonces, FileFollows, HaltCovers, Stopped, LiftsAt, InFlight;
    forall k: nat | i < k <= j ensures StopHolds(Nth(s, run, k)) && Up(Nth(s, run, k)) {
      StopStays(s, run, t, i, k);
    }
    AfterAStopAtMostOneIsSent(s, run, i + 1, j);
  }

  lemma {:induction false} StopStays(s: State, run: seq<Action>, t: nat, i: nat, j: nat)
    requires Cold(s) && Valid(s, run) && i < j <= |run|
    requires run[i] == By(t, Commit) && t in Nth(s, run, i).threads && Nth(s, run, i).threads[t].Changing?
    requires Nth(s, run, i).threads[t].op.KillOp? || Nth(s, run, i).threads[t].op.PauseOp?
    requires forall k: nat :: i < k < j ==> !Restarts(run[k]) && !LiftsAt(Nth(s, run, k), run[k])
    ensures Up(Nth(s, run, j)) && Stopped(Nth(s, run, j).flags)
    decreases j
  {
    hide Enabled, Apply, Nth, Locks, Nonces, FileFollows, HaltCovers, Stopped, LiftsAt;
    NthStep(s, run, j - 1);
    NthInv(s, run, j - 1);
    if j == i + 1 {
      CommitStops(Nth(s, run, i), t);
    } else {
      StopStays(s, run, t, i, j - 1);
      StopSurvivesStep(Nth(s, run, j - 1), run[j - 1]);
    }
  }

  lemma StepOnlyAppends(s: State, a: Action)
    requires Enabled(s, a)
    ensures s.sent <= Apply(s, a).sent
  {
    match a {
      case Around(e) =>
      case By(t, d) => StridesAddNothing(s, t, d);
      case Files(t, f) => FilesAddNothing(s, t, f);
      case Quotes(m) =>
    }
  }

  lemma {:induction false} SentOnlyGrows(s: State, run: seq<Action>, i: nat, j: nat)
    requires Valid(s, run) && i <= j <= |run|
    ensures Nth(s, run, i).sent <= Nth(s, run, j).sent
    decreases j
  {
    hide Enabled, Apply, Nth;
    if i < j {
      SentOnlyGrows(s, run, i, j - 1);
      NthStep(s, run, j - 1);
      StepOnlyAppends(Nth(s, run, j - 1), run[j - 1]);
    }
  }

  /** The base on file never goes back, from any point of a run to any later one. */
  lemma {:induction false} BaseNeverGoesBack(s: State, run: seq<Action>, i: nat, j: nat)
    requires Cold(s) && Valid(s, run) && i <= j <= |run|
    ensures Nth(s, run, i).file.base <= Nth(s, run, j).file.base
    decreases j
  {
    hide Enabled, Apply, Nth, Locks, Nonces, FileFollows, HaltCovers;
    if i < j {
      BaseNeverGoesBack(s, run, i, j - 1);
      NthStep(s, run, j - 1);
      NthInv(s, run, j - 1);
      StepKeepsNonces(Nth(s, run, j - 1), run[j - 1]);
    }
  }

  // ----- a kill that was persisted -----

  /** On file, in the controller, and in any value about to be written. */
  ghost predicate Durable(s: State) {
    && s.file.saved.killed && (Up(s) ==> s.flags.killed)
    && forall t :: t in s.threads && s.threads[t].Saving? && s.threads[t].at.Ready? ==> s.threads[t].at.value.saved.killed
  }

  /** The step in which a resume with clear_kill takes effect. */
  predicate Clears(s: State, a: Action) {
    a.By? && a.stride.Commit? && a.t in s.threads && s.threads[a.t].Changing? && ClearsKill(s.threads[a.t].op)
  }

  lemma StepKeepsDurable(s: State, a: Action)
    requires Locks(s) && Enabled(s, a) && Durable(s) && !Clears(s, a)
    ensures Durable(Apply(s, a))
  {
    hide CanMove, Moved, CanFile, Filed, CanStride, Strode, CanHappen, Happen, Durable;
    match a {
      case Around(e) => EventKeepsDurable(s, e);
      case By(t, d) => StrideKeepsDurable(s, t, d);
      case Files(t, f) => FileStepKeepsDurable(s, t, f);
      case Quotes(m) => LoopKeepsDurable(s, m);
    }
  }

  lemma EventKeepsDurable(s: State, e: Event)
    requires CanHappen(s, e) && Durable(s)
    ensures Durable(Happen(s, e))
  {
  }

  lemma StrideKeepsDurable(s: State, t: nat, d: Stride)
    requires CanStride(s, t, d) && Durable(s) && !Clears(s, By(t, d)) && Locks(s)
    ensures Durable(Strode(s, t, d))
  {
    assert ThreadFits(s, t);
  }

  lemma FileStepKeepsDurable(s: State, t: nat, f: FileStep)
    requires CanFile(s, t, f) && Durable(s) && Locks(s)
    ensures Durable(Filed(s, t, f))
  {
    assert ThreadFits(s, t);
  }

  lemma LoopKeepsDurable(s: State, m: LoopStep)
    requires CanMove(s, m) && Durable(s)
    ensures Durable(Moved(s, m))
  {
  }

  /** Between its change and the end of its persist. */
  predicate Carrying(s: State, t: nat) {
    t in s.threads && Persisting(s.threads[t])
  }

  /** The value request t is about to write, if it has taken its copy, says killed. */
  predicate CarriesKill(s: State, t: nat) {
    Up(s) && s.flags.killed && Carrying(s, t)
    && (s.threads[t].Saving? && s.threads[t].at.Ready? ==> s.threads[t].at.value.saved.killed)
  }

  predicate Persists(a: Action, t: nat) {
    a.Files? && a.t == t && a.step == Write(true)
  }

  predicate AboutToKill(s: State, t: nat) {
    t in s.threads && s.threads[t].Changing? && s.threads[t].op.KillOp?
  }

  lemma KillCommits(s: State, t: nat)
    requires AboutToKill(s, t) && Up(s)
    ensures CarriesKill(Strode(s, t, Commit), t) && KillHolds(Strode(s, t, Commit))
  {
  }

  lemma PersistMakesDurable(s: State, t: nat)
    requires Locks(s) && CarriesKill(s, t) && CanFile(s, t, Write(true))
    ensures Durable(Filed(s, t, Write(true)))
  {
    assert ThreadFits(s, t);
    NobodyElseHasStore(s, t);
  }

  lemma ThreadStepCarries(s: State, s': State, t: nat, u: nat)
    requires CarriesKill(s, t) && OnlyAt(s, s', u) && u != t && Up(s') && s'.flags.killed
    ensures CarriesKill(s', t)
  {
  }

  lemma OwnStepCarries(s: State, t: nat, a: Action)
    requires CarriesKill(s, t) && Enabled(s, a) && Actor(a) == t && t != LOOP && Carrying(Apply(s, a), t)
    requires !Restarts(a) && !Clears(s, a)
    ensures CarriesKill(Apply(s, a), t)
  {
  }

  lemma FlagsSurviveStep(s: State, a: Action)
    requires Enabled(s, a) && !Restarts(a) && !Clears(s, a) && Up(s) && s.flags.killed && Locks(s)
    ensures Apply(s, a).flags.killed && Up(Apply(s, a))
  {
    hide CanMove, CanFile, CanStride, CanHappen, Strode, Filed, Moved, Happen, Locks;
    StepKeepsLocks(s, a);
    match a {
      case Around(e) => EventKeepsFlags(s, e);
      case By(t, d) => StrideKeepsKill(s, t, d);
      case Files(t, f) => FilesKeepFlags(s, t, f);
      case Quotes(m) => LoopKeepsFlags(s, m);
    }
  }

  lemma EventKeepsFlags(s: State, e: Event)
    requires CanHappen(s, e) && !e.Crash? && !e.Boot?
    ensures Happen(s, e).flags == s.flags
  {
  }

  lemma StrideKeepsKill(s: State, t: nat, d: Stride)
    requires CanStride(s, t, d) && s.flags.killed && !Clears(s, By(t, d))
    ensures Strode(s, t, d).flags.killed
  {
  }

  lemma FilesKeepFlags(s: State, t: nat, f: FileStep)
    requires CanFile(s, t, f)
    ensures Filed(s, t, f).flags == s.flags
  {
  }

  lemma LoopKeepsFlags(s: State, m: LoopStep)
    requires CanMove(s, m)
    ensures Moved(s, m).flags == s.flags
  {
  }

  lemma StepCarriesKill(s: State, t: nat, a: Action)
    requires Locks(s) && CarriesKill(s, t) && t != LOOP && Enabled(s, a) && !Restarts(a) && !Clears(s, a)
    requires Carrying(Apply(s, a), t)
    ensures CarriesKill(Apply(s, a), t)
  {
    hide Apply, Enabled, Locks;
    FlagsSurviveStep(s, a);
    StepKeepsLocks(s, a);
    if Actor(a) == t {
      OwnStepCarries(s, t, a);
    } else {
      ThreadStepCarries(s, Apply(s, a), t, Actor(a));
    }
  }

  /** No resume clears the kill and, before the write returns, nothing restarts. */
  ghost predicate Uncleared(s: State, run: seq<Action>, i: nat, j: nat)
    requires Valid(s, run) && i <= j <= |run|
  {
    forall k: nat :: i <= k < j ==> !Clears(Nth(s, run, k), run[k])
  }

  ghost predicate CarriedThroughout(s: State, run: seq<Action>, t: nat, i: nat, j: nat)
    requires Valid(s, run) && i <= j <= |run|
  {
    forall k: nat :: i <= k <= j ==> Carrying(Nth(s, run, k), t) && (k < j ==> !Restarts(run[k]))
  }

  lemma {:induction false} KillIsCarried(s: State, run: seq<Action>, t: nat, i: nat, j: nat)
    requires Cold(s) && Valid(s, run) && i < j <= |run| && t != LOOP
    requires run[i] == By(t, Commit) && AboutToKill(Nth(s, run, i), t)
    requires Uncleared(s, run, i + 1, j) && CarriedThroughout(s, run, t, i + 1, j)
    ensures CarriesKill(Nth(s, run, j), t)
    decreases j
  {
    hide Apply, Enabled, Nth, CarriesKill, Locks, Clears, Carrying, Nonces, FileFollows, HaltCovers;
    NthStep(s, run, j - 1);
    NthInv(s, run, j - 1);
    if j == i + 1 {
      CommitIsStride(Nth(s, run, i), t);
    } else {
      KillIsCarried(s, run, t, i, j - 1);
      StepCarriesKill(Nth(s, run, j - 1), t, run[j - 1]);
    }
  }

  lemma CommitIsStride(s: State, t: nat)
    requires Locks(s) && AboutToKill(s, t)
    ensures CarriesKill(Apply(s, By(t, Commit)), t)
  {
    assert ThreadFits(s, t);
    KillCommits(s, t);
  }

  lemma {:induction false} DurableStays(s: State, run: seq<Action>, i: nat, j: nat)
    requires Cold(s) && Valid(s, run) && i <= j <= |run|
    requires Durable(Nth(s, run, i)) && Uncleared(s, run, i, j)
    ensures Durable(Nth(s, run, j))
    decreases j
  {
    hide Apply, Enabled, Nth, Durable, Locks, Clears, Nonces, FileFollows, HaltCovers;
    if i < j {
      DurableStays(s, run, i, j - 1);
      NthStep(s, run, j - 1);
      NthInv(s, run, j - 1);
      StepKeepsDurable(Nth(s, run, j - 1), run[j - 1]);
    }
  }

  /** A kill whose persist returned survives every later save by the loop, every other request and every
      crash and restart, until a resume with clear_kill takes effect. */
  lemma PersistedKillSurvives(s: State, run: seq<Action>, t: nat, i: nat, p: nat, j: nat)
    requires Cold(s) && Valid(s, run) && i < p < j <= |run| && t != LOOP
    requires run[i] == By(t, Commit) && AboutToKill(Nth(s, run, i), t)
    requires CarriedThroughout(s, run, t, i + 1, p) && Persists(run[p], t)
    requires Uncleared(s, run, i + 1, j)
    ensures KillHolds(Nth(s, run, j)) && Nth(s, run, j).file.saved.killed
  {
    hide Apply, Enabled, Nth, Locks, Nonces, FileFollows, HaltCovers, Clears, Carrying, CarriesKill;
    KillIsCarried(s, run, t, i, p);
    NthStep(s, run, p);
    NthInv(s, run, p);
    WriteIsFiled(Nth(s, run, p), t);
    DurableStays(s, run, p + 1, j);
  }

  lemma WriteIsFiled(s: State, t: nat)
    requires Locks(s) && CarriesKill(s, t) && Enabled(s, Files(t, Write(true)))
    ensures Durable(Apply(s, Files(t, Write(true))))
  {
    PersistMakesDurable(s, t);
  }

  // ----- the wake channel -----

  /** A change the loop has not started a cycle since: its wake is pending, about to be sent, or just
      taken. */
  predicate WillBeSeen(s: State, t: nat) {
    s.wake || (t in s.threads && s.threads[t].Signalling?) || (Up(s) && (s.threads[LOOP].CycleTop? || s.threads[LOOP].Initializing?))
  }

  predicate StartsCycle(a: Action) {
    a.Quotes? && a.move.Top?
  }

  lemma StepKeepsTheWake(s: State, t: nat, a: Action)
    requires Locks(s) && Enabled(s, a) && WillBeSeen(s, t) && t != LOOP && !Restarts(a) && !StartsCycle(a)
    ensures WillBeSeen(Apply(s, a), t)
  {
    hide CanMove, CanFile, CanStride, CanHappen, Strode, Filed, Moved, Happen, Locks, WillBeSeen;
    match a {
      case Around(e) => EventKeepsTheWake(s, t, e);
      case By(u, d) => StrideKeepsTheWake(s, t, u, d);
      case Files(u, f) => FilesKeepTheWake(s, t, u, f);
      case Quotes(m) => LoopKeepsTheWake(s, t, m);
    }
  }

  lemma EventKeepsTheWake(s: State, t: nat, e: Event)
    requires CanHappen(s, e) && !e.Crash? && !e.Boot? && WillBeSeen(s, t)
    ensures WillBeSeen(Happen(s, e), t)
  {
  }

  lemma StrideKeepsTheWake(s: State, t: nat, u: nat, d: Stride)
    requires CanStride(s, u, d) && WillBeSeen(s, t) && Locks(s)
    ensures WillBeSeen(Strode(s, u, d), t)
  {
    assert ThreadFits(s, u);
  }

  lemma FilesKeepTheWake(s: State, t: nat, u: nat, f: FileStep)
    requires CanFile(s, u, f) && WillBeSeen(s, t)
    ensures WillBeSeen(Filed(s, u, f), t)
  {
  }

  lemma LoopKeepsTheWake(s: State, t: nat, m: LoopStep)
    requires CanMove(s, m) && !m.Top? && t != LOOP && WillBeSeen(s, t)
    ensures WillBeSeen(Moved(s, m), t)
  {
  }

  /** No signalled change is lost: from the step in which a request changes something until the loop
      starts its next cycle, the wake is pending -- so a loop that goes back to waiting is woken at
      once. */
  lemma {:induction false} NoChangeIsMissed(s: State, run: seq<Action>, t: nat, i: nat, j: nat)
    requires Cold(s) && Valid(s, run) && i < j <= |run| && t != LOOP
    requires run[i] == By(t, Commit) && t in Nth(s, run, i + 1).threads
    requires forall k: nat :: i < k < j ==> !Restarts(run[k]) && !StartsCycle(run[k])
    ensures var now := Nth(s, run, j);
            && WillBeSeen(now, t)
            && (IsAt(now, Select) && !(t in now.threads && now.threads[t].Signalling?) ==> Enabled(now, Quotes(Woken)))
    decreases j
  {
    hide Apply, Nth, Locks, Nonces, FileFollows, HaltCovers;
    NthStep(s, run, j - 1);
    NthInv(s, run, j - 1);
    if j == i + 1 {
      CommitSignals(Nth(s, run, i), t);
    } else {
      NoChangeIsMissed(s, run, t, i, j - 1);
      StepKeepsTheWake(Nth(s, run, j - 1), t, run[j - 1]);
    }
  }

  lemma CommitSignals(s: State, t: nat)
    requires Enabled(s, By(t, Commit)) && t in Apply(s, By(t, Commit)).threads
    ensures WillBeSeen(Apply(s, By(t, Commit)), t)
  {
  }

  lemma WakeNeedsASignal(s: State, a: Action)
    requires Enabled(s, a) && Apply(s, a).wake && !(a.By? && a.stride.Signal?)
    ensures s.wake && a != Quotes(Woken) && !Restarts(a)
  {
  }

  /** A pending wake was signalled, and not taken since: one change wakes the loop once. */
  lemma {:induction false} WakeIsEarned(s: State, run: seq<Action>) returns (i: nat)
    requires Cold(s) && Valid(s, run) && Reached(s, run).wake
    ensures i < |run| && run[i].By? && run[i].stride.Signal?
    ensures forall j :: i < j < |run| ==> run[j] != Quotes(Woken) && !Restarts(run[j])
  {
    hide Enabled, Apply;
    var init, last := run[..|run| - 1], run[|run| - 1];
    if last.By? && last.stride.Signal? {
      i := |run| - 1;
    } else {
      WakeNeedsASignal(Reached(s, init), last);
      i := WakeIsEarned(s, init);
      assert forall j :: i < j < |init| ==> run[j] == init[j];
    }
  }

  // ----- a cycle under a kill -----

  /** Listing, cancelling, saving, or waiting for the next cycle. */
  predicate HaltingOrIdle(pc: PC) {
    pc.HaltList? || pc.HaltCancel? || pc.Select? || pc.CycleTop? || (pc.Saving? && pc.after.ThenSelect?)
  }

  lemma LoopStaysHalting(s: State, a: Action)
    requires Locks(s) && Enabled(s, a) && Up(s) && HaltingOrIdle(s.threads[LOOP]) && !Restarts(a) && !StartsCycle(a)
    ensures Up(Apply(s, a)) && HaltingOrIdle(Apply(s, a).threads[LOOP])
  {
    hide Locks;
    StepKeepsLocks(s, a);
    if Actor(a) != LOOP {
      hide Apply, Enabled;
      assert OnlyAt(s, Apply(s, a), Actor(a));
    }
  }

  /** A cycle that halts at its start, as every cycle does under a kill, or one that comes to a halt. */
  predicate StartsHalt(s: State, a: Action) {
    a == Quotes(Halt) || (StartsCycle(a) && (a.move.halts || s.flags.killed))
  }

  lemma HaltLists(s: State, a: Action)
    requires Enabled(s, a) && StartsHalt(s, a)
    ensures Up(Apply(s, a)) && Apply(s, a).threads[LOOP].HaltList?
  {
  }

  /** A halt lists the book first and then only cancels and saves until the next cycle starts: it never comes to place
      anything, even if a kill that called for it is cleared before it ends. */
  lemma {:induction false} HaltOnlyTakesOff(s: State, run: seq<Action>, i: nat, j: nat)
    requires Cold(s) && Valid(s, run) && i < j <= |run| && StartsHalt(Nth(s, run, i), run[i])
    requires forall k: nat :: i < k < j ==> !Restarts(run[k]) && !StartsCycle(run[k])
    ensures Up(Nth(s, run, j)) && HaltingOrIdle(Nth(s, run, j).threads[LOOP])
    ensures Nth(s, run, i + 1).threads[LOOP].HaltList?
    decreases j
  {
    hide Apply, Enabled, Nth, Locks, Nonces, FileFollows, HaltCovers, StartsHalt;
    NthStep(s, run, i);
    HaltLists(Nth(s, run, i), run[i]);
    if i + 1 < j {
      HaltOnlyTakesOff(s, run, i, j - 1);
      NthStep(s, run, j - 1);
      NthInv(s, run, j - 1);
      LoopStaysHalting(Nth(s, run, j - 1), run[j - 1]);
    }
  }

  // ----- the locks -----

  /** What thread t does next, with whichever lock that takes. */
  ghost function Next(s: State, t: nat): Action
    requires t in s.threads
  {
    match s.threads[t]
    case Initializing => Around(InitLoad)
    case Select => Quotes(Poll)
    case CycleTop => Quotes(Top(true))
    case Working => Quotes(Abandon)
    case Placing(_) => Quotes(Abandon)
    case Sending(_, _) => Quotes(Send(false, false))
    case HaltList => Quotes(List(false))
    case HaltCancel(todo, _) => if todo == {} then Quotes(HaltDone) else var n :| n in todo; Quotes(CancelNext(n, false, false))
    case Change(_) => By(t, LockCtrl)
    case Changing(_) => By(t, Commit)
    case Signalling(_) => By(t, Signal)
    case Saving(WantStore, _) => Files(t, LockStore(true))
    case Saving(Loaded(_), _) => By(t, LockCtrl)
    case Saving(Overlaying(_), _) => Files(t, Copy)
    case Saving(Ready(_), _) => Files(t, Write(true))
  }

  ghost predicate CanGo(s: State, t: nat) {
    t in s.threads && Enabled(s, Next(s, t))
  }

  lemma CtrlHolderGoes(s: State, t: nat)
    requires HasCtrl(s, t)
    ensures CanGo(s, t)
  {
  }

  lemma StoreHolderWaitsForCtrlOnly(s: State, t: nat)
    requires HasStore(s, t)
    ensures CanGo(s, t) || s.ctrlLock.Some?
  {
  }

  lemma WaiterWaitsForALock(s: State, t: nat)
    requires ThreadFits(s, t) && t in s.threads
    ensures CanGo(s, t) || s.ctrlLock.Some? || s.storeLock.Some?
  {
  }

  /** Store lock before controller lock: a thread that cannot go waits for one that can, or for one
      waiting only for the holder of the controller lock, who can. */
  lemma NobodyWaitsForever(s: State, run: seq<Action>, t: nat)
    requires Cold(s) && Valid(s, run) && t in Reached(s, run).threads
    ensures var now := Reached(s, run);
            || CanGo(now, t)
            || (now.ctrlLock.Some? && CanGo(now, now.ctrlLock.value))
            || (now.storeLock.Some? && CanGo(now, now.storeLock.value))
  {
    hide CanGo, Nonces, FileFollows, HaltCovers, Apply, Enabled;
    RunKeepsInv(s, run);
    var now := Reached(s, run);
    assert ThreadFits(now, t);
    WaiterWaitsForALock(now, t);
    if now.ctrlLock.Some? {
      assert ThreadFits(now, now.ctrlLock.value);
      CtrlHolderGoes(now, now.ctrlLock.value);
    } else if now.storeLock.Some? {
      assert ThreadFits(now, now.storeLock.value);
      StoreHolderWaitsForCtrlOnly(now, now.storeLock.value);
    }
  }

  // ----- the file -----

  /** The write or the read before it failed. */
  predicate FailsToWrite(a: Action) {
    a.Files? && ((a.step.Write? && !a.step.ok) || (a.step.LockStore? && !a.step.readable))
  }

  lemma {:induction false} BehindOnlyAfterAFailure(s: State, run: seq<Action>)
    requires Cold(s) && Valid(s, run) && forall i :: 0 <= i < |run| ==> !FailsToWrite(run[i])
    ensures !Reached(s, run).behind
  {
    hide Enabled, CanHappen, CanMove, CanStride, CanFile;
    if run != [] {
      BehindOnlyAfterAFailure(s, run[..|run| - 1]);
    }
  }

  /** Whenever no request is between its change and the end of its persist, the file says what the
      controller says -- unless a write failed and none has succeeded since. */
  lemma FileSaysWhatTheControllerSays(s: State, run: seq<Action>)
    requires Cold(s) && Valid(s, run) && Up(Reached(s, run))
    requires forall t :: t in Reached(s, run).threads ==> !Persisting(Reached(s, run).threads[t])
    ensures Reached(s, run).behind || Reached(s, run).file.saved == Reached(s, run).flags
    ensures (forall i :: 0 <= i < |run| ==> !FailsToWrite(run[i])) ==> Reached(s, run).file.saved == Reached(s, run).flags
  {
    hide Enabled, Apply, Locks, Nonces, HaltCovers;
    RunKeepsInv(s, run);
    if forall i :: 0 <= i < |run| ==> !FailsToWrite(run[i]) {
      BehindOnlyAfterAFailure(s, run);
    }
  }
}
