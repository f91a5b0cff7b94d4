/** Several quoting loops under one controller (the options process: a bot per strike, each with its own
    book and state file): what a kill means for each of them. A step here is one that a book or a gate can
    see; the protocol of one loop, with its locks, saves and wakes, is proved to be a run of this one. */
module ManyLoops {
  import opened Market
  import opened ControlFlags
  import Protocol = ControlProtocol
  import Invariants = ControlInvariants
  import Safety = ControlSafety

  /** A loop between cycles or working, with placements still to make, with one past the gate, or halting
      with what it still has to cancel. */
  datatype Where = Between | Placing(avail: set<nat>) | Sending(nonce: nat, rest: set<nat>) | Halting(todo: set<nat>, ok: bool)

  datatype Loop = Loop(at: Where, book: set<nat>, sent: seq<nat>)

  datatype State = State(flags: Flags, loops: seq<Loop>)

  /** A crash takes every loop of the process down; what comes up again has the flags that were on file. */
  datatype Step =
    | Request(op: Op)
    | Crash(restored: Flags)
    | Leave(l: nat, departed: set<nat>)
    | Begin(l: nat, avail: set<nat>)
    | Admit(l: nat, n: nat)
    | Send(l: nat, rests: bool, accepted: bool)
    | Stop(l: nat)
    | List(l: nat)
    | CancelNext(l: nat, n: nat, confirmed: bool, gone: bool)

  /** A cycle may have begun before the kill; each placement passes the gate on its own. */
  predicate Enabled(s: State, a: Step) {
    match a
    case Request(_) => true
    case Crash(_) => true
    case Leave(l, _) => l < |s.loops|
    case Begin(l, _) => l < |s.loops| && s.loops[l].at.Between?
    case Admit(l, n) => l < |s.loops| && s.loops[l].at.Placing? && n in s.loops[l].at.avail && !s.flags.killed && !s.flags.paused
    case Send(l, _, _) => l < |s.loops| && s.loops[l].at.Sending?
    case Stop(l) => l < |s.loops| && !s.loops[l].at.Sending?
    case List(l) => l < |s.loops| && s.loops[l].at.Between?
    case CancelNext(l, n, confirmed, gone) =>
      l < |s.loops| && s.loops[l].at.Halting? && n in s.loops[l].at.todo && (confirmed ==> gone)
  }

  function Put(s: State, l: nat, loop: Loop): State
    requires l < |s.loops|
  {
    s.(loops := s.loops[l := loop])
  }

  function Apply(s: State, a: Step): State
    requires Enabled(s, a)
  {
    match a
    case Request(op) => (match Changed(s.flags, op) case None => s case Some(f) => s.(flags := f))
    case Crash(restored) =>
      State(restored, seq(|s.loops|, l requires 0 <= l < |s.loops| => s.loops[l].(at := Between)))
    case Leave(l, departed) => Put(s, l, s.loops[l].(book := s.loops[l].book - departed))
    case Begin(l, avail) => Put(s, l, s.loops[l].(at := Placing(avail)))
    case Admit(l, n) => Put(s, l, s.loops[l].(at := Sending(n, s.loops[l].at.avail - {n})))
    case Send(l, rests, accepted) =>
      var x := s.loops[l];
      Put(s, l, Loop(if accepted then Placing(x.at.rest) else Between,
                     if rests then x.book + {x.at.nonce} else x.book, x.sent + [x.at.nonce]))
    case Stop(l) => Put(s, l, s.loops[l].(at := Between))
    case List(l) => Put(s, l, s.loops[l].(at := Halting(s.loops[l].book, true)))
    case CancelNext(l, n, confirmed, gone) =>
      var x := s.loops[l];
      Put(s, l, Loop(Halting(x.at.todo - {n}, x.at.ok && confirmed), if gone then x.book - {n} else x.book, x.sent))
  }

  function Through(s: State, run: seq<Step>): Option<State> {
    if run == [] then Some(s)
    else
      var before := Through(s, run[..|run| - 1]);
      if before.Some? && Enabled(before.value, run[|run| - 1]) then Some(Apply(before.value, run[|run| - 1])) else None
  }

  function InFlight(x: Loop): nat {
    if x.at.Sending? then 1 else 0
  }

  function Coming(x: Loop): set<nat> {
    if x.at.Sending? then {x.at.nonce} else {}
  }

  /** Killed or paused before every step of the run and after it. */
  ghost predicate StoppedThroughout(s: State, run: seq<Step>) {
    forall i :: 0 <= i <= |run| ==> Through(s, run[..i]).Some? && Stopped(Through(s, run[..i]).value.flags)
  }

  /** While stopped a loop's sends and what it has in flight never grow, nor does its book beyond what was
      in flight. */
  ghost predicate Quenched(x: Loop, y: Loop) {
    && |y.sent| + InFlight(y) <= |x.sent| + InFlight(x)
    && Coming(y) <= Coming(x) && y.book <= x.book + Coming(x)
  }

  lemma StepQuenches(s: State, a: Step, l: nat)
    requires Enabled(s, a) && Stopped(s.flags) && l < |s.loops|
    ensures |Apply(s, a).loops| == |s.loops| && Quenched(s.loops[l], Apply(s, a).loops[l])
  {
  }

  lemma ThroughPrefix(s: State, run: seq<Step>)
    requires StoppedThroughout(s, run) && run != []
    ensures StoppedThroughout(s, run[..|run| - 1])
  {
    var before := run[..|run| - 1];
    forall i | 0 <= i <= |before| ensures Through(s, before[..i]).Some? && Stopped(Through(s, before[..i]).value.flags) {
      assert before[..i] == run[..i];
    }
  }

  /** After a kill or a pause each quoting loop, however many there are and however they interleave, sends at most
      the one placement it already had past the gate. */
  lemma {:induction false} EachLoopSendsAtMostOne(s: State, run: seq<Step>, l: nat)
    requires StoppedThroughout(s, run) && l < |s.loops|
    ensures Through(s, run).Some? && |Through(s, run).value.loops| == |s.loops|
    ensures Quenched(s.loops[l], Through(s, run).value.loops[l])
    ensures |Through(s, run).value.loops[l].sent| <= |s.loops[l].sent| + 1
  {
    hide Apply, Enabled;
    assert run[..|run|] == run;
    if run != [] {
      var before := run[..|run| - 1];
      ThroughPrefix(s, run);
      EachLoopSendsAtMostOne(s, before, l);
      StepQuenches(Through(s, before).value, run[|run| - 1], l);
    }
  }

  ghost predicate HaltsCover(s: State) {
    forall l :: 0 <= l < |s.loops| && s.loops[l].at.Halting? && s.loops[l].at.ok ==> s.loops[l].book <= s.loops[l].at.todo
  }

  lemma StepKeepsHaltsCover(s: State, a: Step)
    requires HaltsCover(s) && Enabled(s, a)
    ensures HaltsCover(Apply(s, a))
  {
  }

  lemma {:induction false} RunKeepsHaltsCover(s: State, run: seq<Step>)
    requires HaltsCover(s) && Through(s, run).Some?
    ensures HaltsCover(Through(s, run).value)
  {
    hide Apply, Enabled, HaltsCover;
    if run != [] {
      RunKeepsHaltsCover(s, run[..|run| - 1]);
      StepKeepsHaltsCover(Through(s, run[..|run| - 1]).value, run[|run| - 1]);
    }
  }

  /** A loop has cancelled everything it listed. */
  predicate HaltCompleted(x: Loop) {
    x.at == Halting({}, true)
  }

  /** Once every loop has completed a halt while stopped, nothing of any of them rests for as long as
      that lasts -- even though each completed it at its own time. */
  lemma EveryBookStaysEmpty(s: State, run: seq<Step>, done: seq<nat>)
    requires HaltsCover(s) && StoppedThroughout(s, run) && |done| == |s.loops|
    requires forall l :: 0 <= l < |done| ==> done[l] <= |run| && |Through(s, run[..done[l]]).value.loops| == |s.loops|
    requires forall l :: 0 <= l < |done| ==> HaltCompleted(Through(s, run[..done[l]]).value.loops[l])
    ensures Through(s, run).Some? && |Through(s, run).value.loops| == |s.loops|
    ensures forall l :: 0 <= l < |s.loops| ==> Through(s, run).value.loops[l].book == {}
  {
    hide Apply, Enabled, Quenched;
    assert run[..|run|] == run;
    if |s.loops| > 0 {
      EachLoopSendsAtMostOne(s, run, 0);
    } else {
      LoopsStay(s, run);
    }
    forall l | 0 <= l < |s.loops| ensures Through(s, run).value.loops[l].book == {} {
      OneBookStaysEmpty(s, run, done[l], l);
    }
  }

  lemma {:induction false} LoopsStay(s: State, run: seq<Step>)
    requires Through(s, run).Some?
    ensures |Through(s, run).value.loops| == |s.loops|
  {
    if run != [] {
      LoopsStay(s, run[..|run| - 1]);
    }
  }

  lemma OneBookStaysEmpty(s: State, run: seq<Step>, i: nat, l: nat)
    requires HaltsCover(s) && StoppedThroughout(s, run) && i <= |run| && l < |s.loops|
    requires |Through(s, run[..i]).value.loops| == |s.loops| && HaltCompleted(Through(s, run[..i]).value.loops[l])
    ensures Through(s, run).Some? && |Through(s, run).value.loops| == |s.loops| && Through(s, run).value.loops[l].book == {}
  {
    hide Apply, Enabled;
    var mid, rest := Through(s, run[..i]).value, run[i..];
    RunKeepsHaltsCover(s, run[..i]);
    forall k | 0 <= k <= |rest| ensures Through(mid, rest[..k]) == Through(s, run[..i + k]) && Through(s, run[..i + k]).Some? {
      ThroughSplits(s, run[..i], rest[..k]);
      assert run[..i] + rest[..k] == run[..i + k];
    }
    assert rest[..|rest|] == rest && run[..i + |rest|] == run;
    EachLoopSendsAtMostOne(mid, rest, l);
  }

  lemma {:induction false} ThroughSplits(s: State, a: seq<Step>, b: seq<Step>)
    requires Through(s, a).Some?
    ensures Through(s, a + b) == Through(Through(s, a).value, b)
  {
    if b == [] {
      assert a + b == a;
    } else {
      assert (a + b)[..|a + b| - 1] == a + b[..|b| - 1];
      ThroughSplits(s, a, b[..|b| - 1]);
    }
  }

  // ----- the protocol of one loop is a run of this -----

  /** Where the protocol's loop is, as far as its book and the gate go. */
  function WhereOf(pc: Protocol.PC): Where {
    match pc
    case Placing(avail) => Placing(avail)
    case Sending(nonce, rest) => Sending(nonce, rest)
    case HaltCancel(todo, ok) => Halting(todo, ok)
    case _ => Between
  }

  /** The process's flags, or those it will restore while it is down. */
  function Abstract(s: Protocol.State): State {
    State(if Protocol.Up(s) then s.flags else s.file.saved,
          [Loop(if Protocol.Up(s) then WhereOf(s.threads[Protocol.LOOP]) else Between, s.book, s.sent)])
  }

  /** A protocol step changes nothing here, or is a step here. */
  ghost predicate Follows(s: State, after: State, step: Option<Step>) {
    match step
    case None => after == s
    case Some(a) => Enabled(s, a) && after == Apply(s, a)
  }

  lemma EventFollows(s: Protocol.State, e: Protocol.Event) returns (step: Option<Step>)
    requires Protocol.CanHappen(s, e) && Invariants.Locks(s)
    ensures Follows(Abstract(s), Abstract(Protocol.Happen(s, e)), step)
  {
    step := match e
      case Crash => Some(Crash(s.file.saved))
      case Leave(departed) => Some(Leave(0, departed))
      case _ => None;
    if e.Arrive? {
      assert e.t != Protocol.LOOP;
    }
  }

  lemma StrideFollows(s: Protocol.State, t: nat, d: Protocol.Stride) returns (step: Option<Step>)
    requires Protocol.CanStride(s, t, d) && Invariants.Locks(s)
    ensures Follows(Abstract(s), Abstract(Protocol.Strode(s, t, d)), step)
  {
    hide Killed, Paused, Resumed;
    assert Invariants.ThreadFits(s, t);
    step := if d.Commit? then Some(Request(s.threads[t].op)) else None;
  }

  lemma RequestFileStepFollows(s: Protocol.State, t: nat, f: Protocol.FileStep)
    requires Protocol.CanFile(s, t, f) && t != Protocol.LOOP && Protocol.Up(s) && s.threads[t].after.ThenDone?
    ensures Abstract(Protocol.Filed(s, t, f)) == Abstract(s)
  {
    hide WhereOf;
    var after := Protocol.Filed(s, t, f);
    assert Protocol.Up(after) && after.threads[Protocol.LOOP] == s.threads[Protocol.LOOP];
    assert after.flags == s.flags && after.book == s.book && after.sent == s.sent;
    hide Protocol.Filed;
  }

  lemma LoopFileStepFollows(s: Protocol.State, f: Protocol.FileStep) returns (step: Option<Step>)
    requires Protocol.CanFile(s, Protocol.LOOP, f) && !s.threads[Protocol.LOOP].after.ThenDone?
    ensures Follows(Abstract(s), Abstract(Protocol.Filed(s, Protocol.LOOP, f)), step)
  {
    var after := s.threads[Protocol.LOOP].after;
    step := if f.Write? && f.ok && after.ThenPlace? then Some(Begin(0, after.avail)) else None;
  }

  lemma FileStepFollows(s: Protocol.State, t: nat, f: Protocol.FileStep) returns (step: Option<Step>)
    requires Protocol.CanFile(s, t, f) && Invariants.Locks(s)
    ensures Follows(Abstract(s), Abstract(Protocol.Filed(s, t, f)), step)
  {
    assert Invariants.ThreadFits(s, t);
    hide Abstract, Protocol.Filed, Invariants.Locks;
    if t == Protocol.LOOP {
      step := LoopFileStepFollows(s, f);
    } else {
      RequestFileStepFollows(s, t, f);
      step := None;
    }
  }

  /** Starting, ending or giving up a cycle. */
  lemma CycleFollows(s: Protocol.State, m: Protocol.LoopStep) returns (step: Option<Step>)
    requires Protocol.CanMove(s, m) && !m.Admit? && !m.Send? && !m.List? && !m.CancelNext? && !m.HaltDone?
    ensures Follows(Abstract(s), Abstract(Protocol.Moved(s, m)), step)
  {
    hide Protocol.NextBase, Protocol.Span;
    step := if (m.Abandon? || m.Finish?) && s.threads[Protocol.LOOP].Placing? then Some(Stop(0)) else None;
  }

  lemma GateFollows(s: Protocol.State, m: Protocol.LoopStep) returns (step: Option<Step>)
    requires Protocol.CanMove(s, m) && (m.Admit? || m.Send?)
    ensures Follows(Abstract(s), Abstract(Protocol.Moved(s, m)), step)
  {
    step := if m.Admit? then Some(Admit(0, m.n)) else Some(Send(0, m.rests, m.accepted));
  }

  lemma HaltFollows(s: Protocol.State, m: Protocol.LoopStep) returns (step: Option<Step>)
    requires Protocol.CanMove(s, m) && (m.List? || m.CancelNext? || m.HaltDone?)
    ensures Follows(Abstract(s), Abstract(Protocol.Moved(s, m)), step)
  {
    match m {
      case List(listed) => step := if listed then Some(List(0)) else None;
      case CancelNext(n, confirmed, gone) => step := Some(CancelNext(0, n, confirmed, gone));
      case HaltDone => step := Some(Stop(0));
    }
  }

  lemma LoopFollows(s: Protocol.State, m: Protocol.LoopStep) returns (step: Option<Step>)
    requires Protocol.CanMove(s, m)
    ensures Follows(Abstract(s), Abstract(Protocol.Moved(s, m)), step)
  {
    hide Follows, Abstract, Protocol.CanMove, Protocol.Moved;
    if m.Admit? || m.Send? {
      step := GateFollows(s, m);
    } else if m.List? || m.CancelNext? || m.HaltDone? {
      step := HaltFollows(s, m);
    } else {
      step := CycleFollows(s, m);
    }
  }

  lemma StepFollows(s: Protocol.State, a: Protocol.Action) returns (step: Option<Step>)
    requires Protocol.Enabled(s, a) && Invariants.Locks(s)
    ensures Follows(Abstract(s), Abstract(Protocol.Apply(s, a)), step)
  {
    hide Follows, Abstract, Invariants.Locks, Protocol.Happen, Protocol.Strode, Protocol.Filed, Protocol.Moved;
    match a {
      case Around(e) => step := EventFollows(s, e);
      case By(t, d) => step := StrideFollows(s, t, d);
      case Files(t, f) => step := FileStepFollows(s, t, f);
      case Quotes(m) => step := LoopFollows(s, m);
    }
  }

  lemma ThroughOne(s: State, run: seq<Step>, a: Step)
    requires Through(s, run).Some? && Enabled(Through(s, run).value, a)
    ensures Through(s, run + [a]) == Some(Apply(Through(s, run).value, a))
  {
    assert (run + [a])[..|run|] == run;
  }

  /** Every run of the protocol, crashes and restarts included, is a run of the loops' machine with one loop. */
  lemma {:induction false} ProtocolRunsHere(s: Protocol.State, run: seq<Protocol.Action>) returns (steps: seq<Step>)
    requires Protocol.Cold(s) && Protocol.Valid(s, run)
    ensures Through(Abstract(s), steps) == Some(Abstract(Protocol.Reached(s, run)))
  {
    hide Abstract, Apply, Enabled, Protocol.Apply, Protocol.Enabled, Safety.Inv;
    if run == [] {
      steps := [];
    } else {
      var init, last := run[..|run| - 1], run[|run| - 1];
      var before := ProtocolRunsHere(s, init);
      Safety.RunKeepsInv(s, init);
      LocksHold(Protocol.Reached(s, init));
      var step := StepFollows(Protocol.Reached(s, init), last);
      match step {
        case None => steps := before;
        case Some(a) =>
          ThroughOne(Abstract(s), before, a);
          steps := before + [a];
      }
    }
  }

  lemma LocksHold(s: Protocol.State)
    requires Safety.Inv(s)
    ensures Invariants.Locks(s)
  {
  }
}
