/** Three runs of the protocol, step by step: the bound on what a kill lets through is reached, a persisted
    kill comes back after a crash, and one whose write failed does not. */
module ControlScenarios {
  import opened Market
  import opened ControlFlags
  import opened ControlProtocol
  import opened ControlInvariants
  import opened ControlSafety

  lemma Extend(s: State, run: seq<Action>, a: Action, now: State)
    requires Valid(s, run) && Reached(s, run) == now && Enabled(now, a)
    ensures Valid(s, run + [a]) && Reached(s, run + [a]) == Apply(now, a)
  {
    assert (run + [a])[..|run|] == run;
  }

  lemma Start(s: State)
    ensures Valid(s, []) && Reached(s, []) == s
  {
  }

  const FILE: Persist := Persist(10, CLEAR)
  const KILLED_FLAGS: Flags := Flags(true, "stop", Some(5), false, "", None)
  const STOP: Op := KillOp("stop", 5)

  function Fresh(): State {
    Idle(FILE, {}, [])
  }

  /** A process that has just loaded its state and whose loop is at the given place. */
  function Running(pc: PC): State {
    Fresh().(threads := map[LOOP := pc], memBase := 10)
  }

  /** From boot to the first placement past the gate. */
  function ToTheGate(): seq<Action> {
    [Around(Boot), Around(InitLoad), Quotes(Top(false)), Quotes(Allocate(0, 1)), Files(LOOP, LockStore(true)), By(LOOP, LockCtrl),
     Files(LOOP, Copy), Files(LOOP, Write(true)), Quotes(Admit(10))]
  }

  function AtTheGate(): State {
    Idle(Persist(12, CLEAR), {}, []).(threads := map[LOOP := Sending(10, {11})], memBase := 12)
  }

  lemma BootAndAllocate()
    ensures Valid(Fresh(), ToTheGate()[..4])
    ensures Reached(Fresh(), ToTheGate()[..4]) ==
            Running(Saving(WantStore, ThenPlace({10, 11}))).(memBase := 12)
  {
    hide Valid, Reached;
    Start(Fresh());
    var r1 := [Around(Boot)];
    Extend(Fresh(), [], Around(Boot), Fresh());
    assert [] + r1 == r1;
    var r2 := r1 + [Around(InitLoad)];
    Extend(Fresh(), r1, Around(InitLoad), Running(Initializing).(memBase := 0));
    var r3 := r2 + [Quotes(Top(false))];
    Extend(Fresh(), r2, Quotes(Top(false)), Running(CycleTop));
    Extend(Fresh(), r3, Quotes(Allocate(0, 1)), Running(Working));
    assert Span(10, 2) == {10, 11};
    assert ToTheGate()[..4] == r3 + [Quotes(Allocate(0, 1))];
  }

  lemma SaveAndAdmit()
    ensures Valid(Fresh(), ToTheGate()) && Reached(Fresh(), ToTheGate()) == AtTheGate()
  {
    hide Valid, Reached;
    BootAndAllocate();
    var after, v := ThenPlace({10, 11}), Persist(12, CLEAR);
    var r4 := ToTheGate()[..4];
    var s4 := Running(Saving(WantStore, after)).(memBase := 12);
    Extend(Fresh(), r4, Files(LOOP, LockStore(true)), s4);
    var r5 := r4 + [Files(LOOP, LockStore(true))];
    var s5 := Running(Saving(Loaded(v), after)).(memBase := 12, storeLock := Some(LOOP));
    Extend(Fresh(), r5, By(LOOP, LockCtrl), s5);
    var r6 := r5 + [By(LOOP, LockCtrl)];
    var s6 := Running(Saving(Overlaying(v), after)).(memBase := 12, storeLock := Some(LOOP), ctrlLock := Some(LOOP));
    Extend(Fresh(), r6, Files(LOOP, Copy), s6);
    var r7 := r6 + [Files(LOOP, Copy)];
    var s7 := Running(Saving(Ready(v), after)).(memBase := 12, storeLock := Some(LOOP));
    Extend(Fresh(), r7, Files(LOOP, Write(true)), s7);
    var r8 := r7 + [Files(LOOP, Write(true))];
    var s8 := Running(Placing({10, 11})).(memBase := 12, file := v);
    Extend(Fresh(), r8, Quotes(Admit(10)), s8);
    assert {10, 11} - {10} == {11};
    assert ToTheGate() == r8 + [Quotes(Admit(10))];
  }

  function KillArrives(): seq<Action> {
    [Around(Arrive(1, STOP)), By(1, LockCtrl), By(1, Commit)]
  }

  /** A kill that lands while one placement is past the gate does not stop that one: it is sent after the
      kill, and rests. */
  lemma OneCanSlipPast()
    ensures var run := ToTheGate() + KillArrives() + [Quotes(Send(true, true))];
            var n := |ToTheGate() + KillArrives()|;
            && Valid(Fresh(), run) && Nth(Fresh(), run, n).flags.killed && Nth(Fresh(), run, n).sent == []
            && Reached(Fresh(), run).sent == [10] && Reached(Fresh(), run).book == {10}
  {
    hide Valid, Reached;
    SaveAndAdmit();
    var r9, s9 := ToTheGate(), AtTheGate();
    Extend(Fresh(), r9, Around(Arrive(1, STOP)), s9);
    var r10, s10 := r9 + [Around(Arrive(1, STOP))], s9.(threads := s9.threads[1 := Change(STOP)]);
    Extend(Fresh(), r10, By(1, LockCtrl), s10);
    var r11, s11 := r10 + [By(1, LockCtrl)], s9.(threads := s9.threads[1 := Changing(STOP)], ctrlLock := Some(1));
    assert s10.threads[1 := Changing(STOP)] == s11.threads;
    Extend(Fresh(), r11, By(1, Commit), s11);
    var r12, s12 := r11 + [By(1, Commit)], s9.(threads := s9.threads[1 := Signalling(true)], flags := KILLED_FLAGS);
    assert s11.threads[1 := Signalling(true)] == s12.threads;
    Extend(Fresh(), r12, Quotes(Send(true, true)), s12);
    assert r12 == ToTheGate() + KillArrives();
    var run := r12 + [Quotes(Send(true, true))];
    assert run[..|r12|] == r12;
    assert {} + {10} == {10};
  }

  /** Kill, persist, crash, boot. */
  function KillAndCrash(): seq<Action> {
    [Around(Boot)] + KillArrives() + [By(1, Signal), Files(1, LockStore(true)), By(1, LockCtrl), Files(1, Copy), Files(1, Write(true)),
                                      Around(Crash), Around(Boot)]
  }

  lemma KillIsCommitted()
    ensures Valid(Fresh(), KillAndCrash()[..4])
    ensures Reached(Fresh(), KillAndCrash()[..4]) ==
            Fresh().(threads := map[LOOP := Initializing, 1 := Signalling(true)], flags := KILLED_FLAGS)
  {
    hide Valid, Reached;
    Start(Fresh());
    Extend(Fresh(), [], Around(Boot), Fresh());
    var r1, s1 := [] + [Around(Boot)], Fresh().(threads := map[LOOP := Initializing]);
    Extend(Fresh(), r1, Around(Arrive(1, STOP)), s1);
    var r2, s2 := r1 + [Around(Arrive(1, STOP))], s1.(threads := s1.threads[1 := Change(STOP)]);
    Extend(Fresh(), r2, By(1, LockCtrl), s2);
    var r3, s3 := r2 + [By(1, LockCtrl)], s1.(threads := s1.threads[1 := Changing(STOP)], ctrlLock := Some(1));
    assert s2.threads[1 := Changing(STOP)] == s3.threads;
    Extend(Fresh(), r3, By(1, Commit), s3);
    assert KillAndCrash()[..4] == r3 + [By(1, Commit)];
    assert s3.threads[1 := Signalling(true)] == map[LOOP := Initializing, 1 := Signalling(true)];
  }

  function Booting(): State {
    Fresh().(threads := map[LOOP := Initializing], flags := KILLED_FLAGS)
  }

  /** The request at the given place in its persist. */
  function PersistingAt(at: SavePC): State {
    Booting().(threads := map[LOOP := Initializing, 1 := Saving(at, ThenDone)], wake := true)
  }

  lemma KillIsCopied()
    ensures Valid(Fresh(), KillAndCrash()[..8])
    ensures Reached(Fresh(), KillAndCrash()[..8]) == PersistingAt(Ready(Persist(10, KILLED_FLAGS))).(storeLock := Some(1))
  {
    hide Valid, Reached;
    KillIsCommitted();
    var r4, s4 := KillAndCrash()[..4], Booting().(threads := map[LOOP := Initializing, 1 := Signalling(true)]);
    Extend(Fresh(), r4, By(1, Signal), s4);
    var r5, s5 := r4 + [By(1, Signal)], PersistingAt(WantStore);
    assert s4.threads[1 := Saving(WantStore, ThenDone)] == s5.threads;
    Extend(Fresh(), r5, Files(1, LockStore(true)), s5);
    var r6, s6 := r5 + [Files(1, LockStore(true))], PersistingAt(Loaded(FILE)).(storeLock := Some(1));
    assert s5.threads[1 := Saving(Loaded(FILE), ThenDone)] == s6.threads;
    Extend(Fresh(), r6, By(1, LockCtrl), s6);
    var r7, s7 := r6 + [By(1, LockCtrl)], PersistingAt(Overlaying(FILE)).(storeLock := Some(1), ctrlLock := Some(1));
    assert s6.threads[1 := Saving(Overlaying(FILE), ThenDone)] == s7.threads;
    Extend(Fresh(), r7, Files(1, Copy), s7);
    assert s7.threads[1 := Saving(Ready(Persist(10, KILLED_FLAGS)), ThenDone)] == PersistingAt(Ready(Persist(10, KILLED_FLAGS))).threads;
    assert KillAndCrash()[..8] == r7 + [Files(1, Copy)];
  }

  /** After all that the new process comes up killed, with the reason and the time of the kill. */
  lemma PersistedKillComesBack()
    ensures Valid(Fresh(), KillAndCrash())
    ensures var end := Reached(Fresh(), KillAndCrash()); Up(end) && end.flags == KILLED_FLAGS
  {
    hide Valid, Reached;
    KillIsCopied();
    var v := Persist(10, KILLED_FLAGS);
    var r8, s8 := KillAndCrash()[..8], PersistingAt(Ready(v)).(storeLock := Some(1));
    Extend(Fresh(), r8, Files(1, Write(true)), s8);
    var r9, s9 := r8 + [Files(1, Write(true))], Booting().(wake := true, file := v);
    assert s8.threads - {1} == s9.threads;
    Extend(Fresh(), r9, Around(Crash), s9);
    var r10 := r9 + [Around(Crash)];
    Extend(Fresh(), r10, Around(Boot), Idle(v, {}, []));
    assert KillAndCrash() == r10 + [Around(Boot)];
  }

  /** Kill, a write that fails, crash, boot. */
  function KillAndLose(): seq<Action> {
    KillAndCrash()[..8] + [Files(1, Write(false)), Around(Crash), Around(Boot)]
  }

  /** Once the write has failed nobody is persisting and the file still does not say killed; the process
      that comes up after a crash is not killed. */
  lemma UnwrittenKillIsLost()
    ensures Valid(Fresh(), KillAndLose()[..9])
    ensures var now := Reached(Fresh(), KillAndLose()[..9]);
            && Up(now) && now.flags == KILLED_FLAGS && now.file.saved == CLEAR
            && forall t :: t in now.threads ==> !Persisting(now.threads[t])
    ensures Valid(Fresh(), KillAndLose())
    ensures var end := Reached(Fresh(), KillAndLose()); Up(end) && end.flags == CLEAR
  {
    hide Valid, Reached;
    KillIsCopied();
    var r8, s8 := KillAndCrash()[..8], PersistingAt(Ready(Persist(10, KILLED_FLAGS))).(storeLock := Some(1));
    Extend(Fresh(), r8, Files(1, Write(false)), s8);
    var r9, s9 := r8 + [Files(1, Write(false))], Booting().(wake := true, behind := true);
    assert s8.threads - {1} == s9.threads;
    assert r9 == KillAndLose()[..9];
    Extend(Fresh(), r9, Around(Crash), s9);
    var r10 := r9 + [Around(Crash)];
    Extend(Fresh(), r10, Around(Boot), Fresh());
    assert KillAndLose() == r10 + [Around(Boot)];
  }
}
