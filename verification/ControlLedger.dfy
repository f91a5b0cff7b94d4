/** How far the file is behind the controller: by exactly the requests committed since the copy that was last
    written. */
module ControlLedger {
  import opened Market
  import opened ControlFlags
  import opened ControlProtocol
  import opened ControlInvariants
  import opened ControlSafety

  /** The request a step commits. */
  function Committed(now: State, a: Action): seq<Op>
    requires Enabled(now, a)
  {
    if a.By? && a.stride.Commit? then [now.threads[a.t].op] else []
  }

  predicate Copies(a: Action) {
    a.Files? && a.step.Copy?
  }

  predicate Writes(a: Action) {
    a.Files? && a.step.Write? && a.step.ok
  }

  predicate Boots(a: Action) {
    a.Around? && a.event.Boot?
  }

  /** The requests committed since the flags were last copied for a write. */
  ghost function SinceCopied(s: State, run: seq<Action>): seq<Op>
    requires Valid(s, run)
  {
    if run == [] then []
    else
      var init, last := run[..|run| - 1], run[|run| - 1];
      if Boots(last) || Copies(last) then [] else SinceCopied(s, init) + Committed(Reached(s, init), last)
  }

  /** The requests committed since the flags on file were copied, or since they were restored from it. */
  ghost function SinceWritten(s: State, run: seq<Action>): seq<Op>
    requires Valid(s, run)
  {
    if run == [] then []
    else
      var init, last := run[..|run| - 1], run[|run| - 1];
      if Boots(last) then [] else if Writes(last) then SinceCopied(s, init)
      else SinceWritten(s, init) + Committed(Reached(s, init), last)
  }

  predicate ReadyAt(s: State, t: nat) {
    t in s.threads && s.threads[t].Saving? && s.threads[t].at.Ready?
  }

  /** The controller's flags are those on file, and those about to be written, with these requests on top. */
  ghost predicate Tracks(now: State, written: seq<Op>, copied: seq<Op>) {
    && (Up(now) ==> now.flags == Fold(now.file.saved, written))
    && forall t :: ReadyAt(now, t) ==> now.flags == Fold(now.threads[t].at.value.saved, copied)
  }

  lemma FoldMore(f: Flags, ops: seq<Op>, op: Op)
    ensures Fold(f, ops + [op]) == match Changed(Fold(f, ops), op) case Some(g) => g case None => Fold(f, ops)
  {
    assert (ops + [op])[..|ops|] == ops;
  }

  lemma EventKeepsTracks(s: State, e: Event, written: seq<Op>, copied: seq<Op>)
    requires Tracks(s, written, copied) && CanHappen(s, e) && Locks(s)
    ensures if e.Boot? then Tracks(Happen(s, e), [], []) else Tracks(Happen(s, e), written, copied)
  {
    hide Fold;
    assert Fold(s.file.saved, []) == s.file.saved by {
      FoldNone(s.file.saved);
    }
    forall t | ReadyAt(Happen(s, e), t) ensures ReadyAt(s, t) && Happen(s, e).threads[t] == s.threads[t] {
    }
  }

  lemma FoldNone(f: Flags)
    ensures Fold(f, []) == f
  {
  }

  lemma StrideKeepsTracks(s: State, t: nat, d: Stride, written: seq<Op>, copied: seq<Op>)
    requires Tracks(s, written, copied) && CanStride(s, t, d) && Locks(s)
    ensures var more := Committed(s, By(t, d)); Tracks(Strode(s, t, d), written + more, copied + more)
  {
    hide Fold, Changed;
    var after := Strode(s, t, d);
    assert written + [] == written && copied + [] == copied;
    assert ThreadFits(s, t);
    if d.Commit? {
      FoldMore(s.file.saved, written, s.threads[t].op);
      forall u | ReadyAt(after, u) ensures after.flags == Fold(after.threads[u].at.value.saved, copied + [s.threads[t].op]) {
        assert ReadyAt(s, u);
        FoldMore(s.threads[u].at.value.saved, copied, s.threads[t].op);
      }
    } else {
      forall u | ReadyAt(after, u) ensures ReadyAt(s, u) && after.threads[u] == s.threads[u] {
      }
    }
  }

  /** A thread that keeps its value ready keeps it on a step of another thread. */
  lemma OthersStayReady(s: State, s': State, t: nat, copied: seq<Op>)
    requires OnlyAt(s, s', t) && s'.flags == s.flags
    requires forall u :: ReadyAt(s, u) ==> s.flags == Fold(s.threads[u].at.value.saved, copied)
    ensures forall u :: ReadyAt(s', u) && u != t ==> s'.flags == Fold(s'.threads[u].at.value.saved, copied)
  {
    hide Fold;
    forall u | ReadyAt(s', u) && u != t ensures ReadyAt(s, u) {
    }
  }

  lemma FileStepTouchesOne(s: State, t: nat, f: FileStep)
    requires CanFile(s, t, f)
    ensures var after := Filed(s, t, f);
            && OnlyAt(s, after, t) && after.flags == s.flags && (Up(after) ==> Up(s) || t == LOOP)
            && after.file == (if f.Write? && f.ok then s.threads[t].at.value else s.file)
            && (ReadyAt(after, t) ==> f.Copy? && after.threads[t].at.value.saved == s.flags)
  {
  }

  /** Only the thread holding the store lock has a value to write. */
  lemma FileStepKeepsTracks(s: State, t: nat, f: FileStep, written: seq<Op>, copied: seq<Op>)
    requires Tracks(s, written, copied) && CanFile(s, t, f) && Locks(s)
    ensures Tracks(Filed(s, t, f), if f.Write? && f.ok then copied else written, if f.Copy? then [] else copied)
  {
    FileStepTouchesOne(s, t, f);
    OthersStayReady(s, Filed(s, t, f), t, copied);
    HolderAlone(s, t, f);
    hide Fold, Filed, Locks, OnlyAt;
    FoldNone(s.flags);
    assert f.Write? ==> ReadyAt(s, t);
  }

  lemma HolderAlone(s: State, t: nat, f: FileStep)
    requires CanFile(s, t, f) && Locks(s)
    ensures Up(s)
    ensures !f.LockStore? ==> forall u :: u != t ==> !ReadyAt(Filed(s, t, f), u)
  {
    assert ThreadFits(s, t);
    if !f.LockStore? {
      NobodyElseHasStore(s, t);
    }
  }

  lemma LoopKeepsTracks(s: State, m: LoopStep, written: seq<Op>, copied: seq<Op>)
    requires Tracks(s, written, copied) && CanMove(s, m) && Locks(s)
    ensures Tracks(Moved(s, m), written, copied)
  {
    hide Fold;
    forall u | ReadyAt(Moved(s, m), u) ensures ReadyAt(s, u) && Moved(s, m).threads[u] == s.threads[u] {
    }
  }

  lemma StepKeepsTracks(s: State, a: Action, written: seq<Op>, copied: seq<Op>)
    requires Tracks(s, written, copied) && Enabled(s, a) && Locks(s)
    ensures var more := Committed(s, a);
            Tracks(Apply(s, a), if Boots(a) then [] else if Writes(a) then copied else written + more,
                   if Boots(a) || Copies(a) then [] else copied + more)
  {
    hide Happen, Strode, Filed, Moved, CanHappen, CanStride, CanFile, CanMove, Locks, Tracks, Fold;
    assert written + [] == written && copied + [] == copied;
    match a {
      case Around(e) => EventKeepsTracks(s, e, written, copied);
      case By(t, d) => StrideKeepsTracks(s, t, d, written, copied);
      case Files(t, f) => FileStepKeepsTracks(s, t, f, written, copied);
      case Quotes(m) => LoopKeepsTracks(s, m, written, copied);
    }
  }

  lemma {:induction false} RunTracks(s: State, run: seq<Action>)
    requires Cold(s) && Valid(s, run)
    ensures Tracks(Reached(s, run), SinceWritten(s, run), SinceCopied(s, run))
  {
    hide Enabled, Apply, Fold, Inv, Committed, Tracks;
    if run == [] {
      ColdTracks(s);
    } else {
      var init, last := run[..|run| - 1], run[|run| - 1];
      RunTracks(s, init);
      RunKeepsInv(s, init);
      InvHasLocks(Reached(s, init));
      StepKeepsTracks(Reached(s, init), last, SinceWritten(s, init), SinceCopied(s, init));
    }
  }

  lemma ColdTracks(s: State)
    requires Cold(s)
    ensures Tracks(s, [], [])
  {
  }

  lemma InvHasLocks(s: State)
    requires Inv(s)
    ensures Locks(s)
  {
  }

  /** In every run, at every moment a process is up, the controller's flags are those on file with the
      requests committed since that copy on top; so the two agree exactly when those requests leave the
      flags as they are. */
  lemma FileLagsByCommits(s: State, run: seq<Action>)
    requires Cold(s) && Valid(s, run) && Up(Reached(s, run))
    ensures var now := Reached(s, run);
            && now.flags == Fold(now.file.saved, SinceWritten(s, run))
            && (now.file.saved == now.flags <==> Fold(now.file.saved, SinceWritten(s, run)) == now.file.saved)
  {
    RunTracks(s, run);
  }

  /** A kill among those requests, not cleared after, is missing from a file that does not say killed. */
  lemma {:induction false} KillSinceIsMissing(f: Flags, ops: seq<Op>, i: nat)
    requires i < |ops| && ops[i].KillOp? && !f.killed && forall j :: i < j < |ops| ==> !ClearsKill(ops[j])
    ensures Fold(f, ops).killed && Fold(f, ops) != f
  {
    if i < |ops| - 1 {
      KillSinceIsMissing(f, ops[..|ops| - 1], i);
    }
  }
}
