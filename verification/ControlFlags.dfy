/** The operator's kill and pause as values: what Kill, Pause and Resume do to them, shared by the
    controller, the persisted file and the protocol between the threads. */
module ControlFlags {
  import opened Market

  /** A zero time is None. */
  datatype Flags = Flags(
    killed: bool,
    killReason: string,
    killedAt: Option<int>,
    paused: bool,
    pauseReason: string,
    pausedAt: Option<int>)

  const CLEAR: Flags := Flags(false, "", None, false, "", None)

  /** Idempotent: a second kill keeps the original time and an empty reason keeps the old one. */
  function Killed(f: Flags, reason: string, now: int): Flags {
    f.(killed := true,
       killedAt := if f.killed then f.killedAt else Some(now),
       killReason := if reason != "" || f.killReason == "" then reason else f.killReason)
  }

  function Paused(f: Flags, reason: string, now: int): Flags {
    f.(paused := true,
       pausedAt := if f.paused then f.pausedAt else Some(now),
       pauseReason := if reason != "" || f.pauseReason == "" then reason else f.pauseReason)
  }

  /** None is the refusal to undo a kill silently. */
  function Resumed(f: Flags, clearKill: bool): Option<Flags> {
    if f.killed && !clearKill then None
    else if clearKill then Some(CLEAR)
    else Some(f.(paused := false, pauseReason := "", pausedAt := None))
  }

  /** Nothing may be placed. */
  predicate Stopped(f: Flags) {
    f.killed || f.paused
  }

  /** Everything the gate before a placement looks at. */
  datatype Controls = Controls(flags: Flags, bidEnabled: bool, askEnabled: bool)

  predicate Passes(c: Controls, side: Side) {
    !c.flags.killed && !c.flags.paused &&
    match side
    case Buy => c.bidEnabled
    case Sell => c.askEnabled
  }

  /** An operator request. A lean -- a side pulled or restored, an adjust -- changes neither flag and
      is not persisted. */
  datatype Op = KillOp(reason: string, now: int) | PauseOp(reason: string, now: int) | ResumeOp(clearKill: bool) | LeanOp

  function Changed(f: Flags, op: Op): Option<Flags> {
    match op
    case KillOp(reason, now) => Some(Killed(f, reason, now))
    case PauseOp(reason, now) => Some(Paused(f, reason, now))
    case ResumeOp(clearKill) => Resumed(f, clearKill)
    case LeanOp => Some(f)
  }

  function Fold(f: Flags, ops: seq<Op>): Flags {
    if ops == [] then f
    else
      var before := Fold(f, ops[..|ops| - 1]);
      match Changed(before, ops[|ops| - 1]) case Some(g) => g case None => before
  }

  predicate ClearsKill(op: Op) {
    op.ResumeOp? && op.clearKill
  }

  /** Only a resume that says clear_kill takes a kill off, and until one does the time of the first
      kill stands. */
  lemma {:induction false} KillOutlastsEverythingElse(f: Flags, ops: seq<Op>)
    requires f.killed && forall i :: 0 <= i < |ops| ==> !ClearsKill(ops[i])
    ensures Fold(f, ops).killed && Fold(f, ops).killedAt == f.killedAt
  {
    if ops != [] {
      KillOutlastsEverythingElse(f, ops[..|ops| - 1]);
    }
  }

  /** A resume that is accepted. */
  predicate Lifts(f: Flags, op: Op) {
    op.ResumeOp? && (f.killed ==> op.clearKill)
  }

  ghost predicate NoneLifts(f: Flags, ops: seq<Op>) {
    forall i :: 0 <= i < |ops| ==> !Lifts(Fold(f, ops[..i]), ops[i])
  }

  lemma {:induction false} PauseOutlasts(f: Flags, ops: seq<Op>)
    requires f.paused && NoneLifts(f, ops)
    ensures Fold(f, ops).paused && Fold(f, ops).pausedAt == f.pausedAt
  {
    if ops != [] {
      var before := ops[..|ops| - 1];
      forall i | 0 <= i < |before| ensures !Lifts(Fold(f, before[..i]), before[i]) {
        assert before[..i] == ops[..i];
      }
      PauseOutlasts(f, before);
    }
  }

  lemma {:induction false} FoldSplits(f: Flags, a: seq<Op>, b: seq<Op>)
    ensures Fold(f, a + b) == Fold(Fold(f, a), b)
  {
    if b == [] {
      assert a + b == a;
    } else {
      assert (a + b)[..|a + b| - 1] == a + b[..|b| - 1];
      FoldSplits(f, a, b[..|b| - 1]);
    }
  }

  lemma FoldOne(f: Flags, op: Op)
    ensures Fold(f, [op]) == match Changed(f, op) case Some(g) => g case None => f
  {
    assert [op][..0] == [];
    assert Fold(f, []) == f;
  }

  /** From a pause on, through any requests but an accepted resume: nothing passes the gate on either side, the
      time of the first pause stands, and a kill there was stands too. */
  lemma PauseStands(f: Flags, reason: string, now: int, ops: seq<Op>, bidEnabled: bool, askEnabled: bool, side: Side)
    requires NoneLifts(Fold(f, [PauseOp(reason, now)]), ops)
    ensures var g := Fold(f, [PauseOp(reason, now)] + ops);
            && g.paused && g.pausedAt == (if f.paused then f.pausedAt else Some(now)) && (f.killed ==> g.killed)
            && !Passes(Controls(g, bidEnabled, askEnabled), side)
  {
    var g := Fold(f, [PauseOp(reason, now)]);
    FoldOne(f, PauseOp(reason, now));
    FoldSplits(f, [PauseOp(reason, now)], ops);
    PauseOutlasts(g, ops);
    if f.killed {
      KillStaysWhileNoneLifts(g, ops);
    }
  }

  lemma {:induction false} KillStaysWhileNoneLifts(f: Flags, ops: seq<Op>)
    requires f.killed && NoneLifts(f, ops)
    ensures Fold(f, ops).killed
  {
    forall i | 0 <= i < |ops| ensures !ClearsKill(ops[i]) {
      assert !Lifts(Fold(f, ops[..i]), ops[i]);
    }
    KillOutlastsEverythingElse(f, ops);
  }

  /** Whatever came before, a resume leaves nothing in the way but a kill it was not told to clear: that one and
      any pause under it stay as they were; otherwise every enabled side passes. */
  lemma ResumeOpensTheGate(f: Flags, ops: seq<Op>, clearKill: bool, bidEnabled: bool, askEnabled: bool)
    ensures var was, g := Fold(f, ops), Fold(f, ops + [ResumeOp(clearKill)]);
            if was.killed && !clearKill then g == was
            else
              && !g.killed && !g.paused
              && (Passes(Controls(g, bidEnabled, askEnabled), Buy) <==> bidEnabled)
              && (Passes(Controls(g, bidEnabled, askEnabled), Sell) <==> askEnabled)
  {
    assert (ops + [ResumeOp(clearKill)])[..|ops|] == ops;
  }

  /** What an operator reads of a flag that is not set: no reason and no time; of one that is set: a time. */
  predicate Tidy(f: Flags) {
    && (f.killed <==> f.killedAt.Some?) && (!f.killed ==> f.killReason == "")
    && (f.paused <==> f.pausedAt.Some?) && (!f.paused ==> f.pauseReason == "")
  }

  lemma {:induction false} FlagsStayTidy(f: Flags, ops: seq<Op>)
    requires Tidy(f)
    ensures Tidy(Fold(f, ops))
  {
    if ops != [] {
      FlagsStayTidy(f, ops[..|ops| - 1]);
    }
  }

  /** The reason of a kill is the last one given: an empty one does not overwrite it. */
  lemma {:induction false} KillReasonIsTheLastGiven(f: Flags, ops: seq<Op>, i: nat)
    requires i < |ops| && ops[i].KillOp? && ops[i].reason != ""
    requires forall j :: i < j < |ops| ==> !ClearsKill(ops[j]) && (ops[j].KillOp? ==> ops[j].reason == "")
    ensures Fold(f, ops).killReason == ops[i].reason
  {
    if i < |ops| - 1 {
      KillReasonIsTheLastGiven(f, ops[..|ops| - 1], i);
    }
  }

  /** And so is the reason of a pause. */
  lemma {:induction false} PauseReasonIsTheLastGiven(f: Flags, ops: seq<Op>, i: nat)
    requires i < |ops| && ops[i].PauseOp? && ops[i].reason != ""
    requires forall j :: i < j < |ops| ==> !Lifts(Fold(f, ops[..j]), ops[j]) && (ops[j].PauseOp? ==> ops[j].reason == "")
    ensures Fold(f, ops).pauseReason == ops[i].reason
  {
    var before, last := ops[..|ops| - 1], |ops| - 1;
    if i < last {
      forall j | i < j < |before| ensures !Lifts(Fold(f, before[..j]), before[j]) && (before[j].PauseOp? ==> before[j].reason == "") {
        assert before[..j] == ops[..j] && before[j] == ops[j];
        assert !Lifts(Fold(f, ops[..j]), ops[j]);
      }
      PauseReasonIsTheLastGiven(f, before, i);
      assert !Lifts(Fold(f, ops[..last]), ops[last]);
    }
  }
}
