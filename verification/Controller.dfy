/** The operator's controller and the state store as objects (controller.go, state.go). Each call runs
    under its lock, so here it is one step; how calls interleave is the protocol's business. */
module ControllerMachine {
  import opened Market
  import opened ControlFlags

  datatype Persistent = Persistent(nextNonceBase: nat, lastHaltReason: string, control: Option<Flags>)

  const EMPTY: Persistent := Persistent(0, "", None)

  function Overlaid(value: Persistent, flags: Option<Flags>): Persistent {
    if flags.Some? then value.(control := flags) else value
  }

  /** Kill and pause as a new controller takes them from a file. */
  function Restored(saved: Persistent): Flags {
    if saved.control.Some? then saved.control.value else CLEAR
  }

  class Store {
    /** None until first written. */
    var file: Option<Persistent>
    var overlay: Controller?

    constructor (file: Option<Persistent>)
      ensures this.file == file && overlay == null
    {
      this.file, overlay := file, null;
    }

    function Flags(): Option<Flags>
      reads this, overlay
    {
      if overlay == null then None else Some(overlay.flags)
    }

    /** What the file says; one not written yet says nothing. */
    function Contents(): Persistent
      reads this
    {
      if file.Some? then file.value else EMPTY
    }

    method Load(readable: bool) returns (value: Option<Persistent>)
      ensures value.Some? <==> readable
      ensures readable ==> value == Some(Contents())
    {
      if !readable {
        return None;
      }
      value := Some(if file.Some? then file.value else EMPTY);
    }

    method Save(value: Persistent, writable: bool) returns (ok: bool)
      modifies this`file
      ensures ok == writable
      ensures file == if ok then Some(Overlaid(value, Flags())) else old(file)
      ensures ok && overlay == null ==> file == Some(value)
      ensures ok && overlay != null ==>
                && file.value.control == Some(overlay.flags)
                && file.value.nextNonceBase == value.nextNonceBase && file.value.lastHaltReason == value.lastHaltReason
    {
      var out := value;
      if overlay != null {
        out := out.(control := Some(overlay.flags));
      }
      if writable {
        file := Some(out);
      }
      ok := writable;
    }

    /** Rewrites the file from its own contents: everything but the flags stays what it was. */
    method Update(readable: bool, writable: bool) returns (ok: bool)
      modifies this`file
      ensures ok == (readable && writable)
      ensures file == if ok then Some(Overlaid(old(Contents()), Flags())) else old(file)
    {
      var value := Load(readable);
      if value.None? {
        return false;
      }
      ok := Save(value.value, writable);
    }
  }

  datatype Adjust = Adjust(midShiftBPS: real, spreadAddBPS: real, sizeMult: real)
  datatype AdjustPatch = AdjustPatch(midShiftBPS: Option<real>, spreadAddBPS: Option<real>, sizeMult: Option<real>)

  const MAX_MID_SHIFT_BPS := 200.0
  const MAX_SPREAD_ADD_BPS := 500.0
  const MAX_SIZE_MULT := 5.0
  const MAX_ACTIONS := 50

  predicate AdjustAllowed(a: Adjust, halfSpreadBPS: real) {
    && Abs(a.midShiftBPS) <= MAX_MID_SHIFT_BPS
    && -(halfSpreadBPS - 1.0) <= a.spreadAddBPS <= MAX_SPREAD_ADD_BPS
    && 0.0 <= a.sizeMult <= MAX_SIZE_MULT
  }

  datatype Attempt = Attempt(what: string, orderID: string, at: int)

  datatype Blocked = ByKill | ByPause | BySide

  /** The last MAX_ACTIONS of everything recorded, oldest first. */
  function Latest(history: seq<Attempt>): seq<Attempt> {
    if |history| <= MAX_ACTIONS then history else history[|history| - MAX_ACTIONS..]
  }

  /** Where the i-th oldest of `len` entries is when the next one goes to `next`. */
  function RingIndex(next: nat, len: nat, i: nat): (k: nat)
    requires next < MAX_ACTIONS && i < len <= MAX_ACTIONS
    ensures k < MAX_ACTIONS
  {
    if next + i < len then next + i + MAX_ACTIONS - len else next + i - len
  }

  lemma RingIndexIsModular(next: nat, len: nat, i: nat)
    requires next < MAX_ACTIONS && i < len <= MAX_ACTIONS
    ensures ((next + MAX_ACTIONS - len) % MAX_ACTIONS + i) % MAX_ACTIONS == RingIndex(next, len, i)
  {
  }

  /** The ring's entries, read from the oldest, are `entries`. */
  ghost predicate Holds(ring: seq<Attempt>, next: nat, entries: seq<Attempt>)
    requires |ring| == MAX_ACTIONS && next < MAX_ACTIONS && |entries| <= MAX_ACTIONS
  {
    forall i :: 0 <= i < |entries| ==> ring[RingIndex(next, |entries|, i)] == entries[i]
  }

  /** Overwriting the entry at `next` drops the oldest once the ring is full. */
  lemma RingPush(ring: seq<Attempt>, next: nat, history: seq<Attempt>, a: Attempt)
    requires |ring| == MAX_ACTIONS && next < MAX_ACTIONS && Holds(ring, next, Latest(history))
    ensures Holds(ring[next := a], (next + 1) % MAX_ACTIONS, Latest(history + [a]))
    ensures |Latest(history + [a])| == if |Latest(history)| < MAX_ACTIONS then |Latest(history)| + 1 else MAX_ACTIONS
  {
    var before, after := Latest(history), Latest(history + [a]);
    var shift := |before| + 1 - |after|;
    forall i | 0 <= i < |after| ensures ring[next := a][RingIndex((next + 1) % MAX_ACTIONS, |after|, i)] == after[i] {
      if i < |after| - 1 {
        assert after[i] == before[i + shift];
        assert RingIndex((next + 1) % MAX_ACTIONS, |after|, i) == RingIndex(next, |before|, i + shift) != next;
      } else {
        assert RingIndex((next + 1) % MAX_ACTIONS, |after|, i) == next;
      }
    }
  }

  class Controller {
    var flags: Flags
    var bidEnabled: bool
    var askEnabled: bool
    var adjust: Adjust
    var dirty: bool
    /** The wake channel, of capacity one. */
    var wake: bool
    const halfSpreadBPS: real
    const store: Store?

    const actions: array<Attempt>
    var actionsNext: nat
    var actionsLen: nat
    ghost var history: seq<Attempt>

    /** The ring holds the latest attempts. */
    ghost predicate Valid()
      reads this, actions
    {
      && actions.Length == MAX_ACTIONS && actionsNext < MAX_ACTIONS && actionsLen == |Latest(history)|
      && Holds(actions[..], actionsNext, Latest(history))
    }

    function Controls(): Controls
      reads this
    {
      ControlFlags.Controls(flags, bidEnabled, askEnabled)
    }

    /** This controller is the one whose flags every write of its store carries. */
    ghost predicate Installed()
      reads this, store
    {
      store != null ==> store.overlay == this
    }

    /** A controller with the flags a load found, installed as its store's overlay. */
    constructor (store: Store?, saved: Persistent, halfSpreadBPS: real)
      modifies if store == null then {} else {store}
      ensures this.store == store && this.halfSpreadBPS == halfSpreadBPS && Installed()
      ensures store != null ==> store.file == old(store.file)
      ensures flags == Restored(saved)
      ensures bidEnabled && askEnabled && adjust == Adjust(0.0, 0.0, 1.0) && !dirty && !wake
      ensures Valid() && history == [] && fresh(actions)
    {
      flags := Restored(saved);
      bidEnabled, askEnabled, adjust, dirty, wake := true, true, Adjust(0.0, 0.0, 1.0), false, false;
      this.store, this.halfSpreadBPS := store, halfSpreadBPS;
      actions := new Attempt[MAX_ACTIONS](_ => Attempt("", "", 0));
      actionsNext, actionsLen, history := 0, 0, [];
      new;
      if store != null {
        store.overlay := this;
      }
    }

    /** Restores kill and pause from the file; no controller comes of a file that cannot be read, and the
        store is then left as it was. */
    static method FromStore(store: Store?, readable: bool, halfSpreadBPS: real) returns (c: Controller?)
      modifies if store == null then {} else {store}
      ensures c == null <==> store != null && !readable
      ensures store != null ==> store.file == old(store.file) && (c == null ==> store.overlay == old(store.overlay))
      ensures c != null ==> fresh(c) && fresh(c.actions) && c.store == store && c.Installed() && c.Valid()
      ensures c != null ==> c.flags == if store == null then CLEAR else Restored(old(store.Contents()))
    {
      if store == null {
        c := new Controller(store, EMPTY, halfSpreadBPS);
        return;
      }
      var saved := store.Load(readable);
      if saved.None? {
        return null;
      }
      c := new Controller(store, saved.value, halfSpreadBPS);
    }

    method Persist(readable: bool, writable: bool) returns (ok: bool)
      modifies if store == null then {} else {store}
      ensures old(Installed()) ==> Installed()
      ensures store == null ==> ok
      ensures store != null ==>
                && ok == (readable && writable) && store.overlay == old(store.overlay)
                && store.file == if ok then Some(Overlaid(old(store.Contents()), store.Flags())) else old(store.file)
    {
      if store == null {
        return true;
      }
      ok := store.Update(readable, writable);
    }

    /** What a request leaves on file: its own flags over the rest as it was, when the write succeeds, and
        everything as it was when it does not. */
    twostate predicate Recorded(ok: bool, readable: bool, writable: bool)
      reads this, store
    {
      store != null ==>
        && ok == (readable && writable)
        && store.file == if ok then Some(old(store.Contents()).(control := Some(flags))) else old(store.file)
    }

    /** Sets the flag, wakes the loop, then writes the file. */
    method Kill(reason: string, now: int, readable: bool, writable: bool) returns (ok: bool)
      modifies this`flags, this`dirty, this`wake, if store == null then {} else {store}
      ensures flags == Killed(old(flags), reason, now) && dirty && wake
      ensures flags.killed && flags.paused == old(flags.paused)
      ensures old(Installed()) ==> Installed() && Recorded(ok, readable, writable)
    {
      if !flags.killed {
        flags := flags.(killed := true, killedAt := Some(now));
      }
      if reason != "" || flags.killReason == "" {
        flags := flags.(killReason := reason);
      }
      dirty := true;
      Signal();
      ok := Persist(readable, writable);
    }

    method Pause(reason: string, now: int, readable: bool, writable: bool) returns (ok: bool)
      modifies this`flags, this`dirty, this`wake, if store == null then {} else {store}
      ensures flags == Paused(old(flags), reason, now) && dirty && wake
      ensures flags.paused && flags.killed == old(flags.killed)
      ensures old(Installed()) ==> Installed() && Recorded(ok, readable, writable)
    {
      if !flags.paused {
        flags := flags.(paused := true, pausedAt := Some(now));
      }
      if reason != "" || flags.pauseReason == "" {
        flags := flags.(pauseReason := reason);
      }
      dirty := true;
      Signal();
      ok := Persist(readable, writable);
    }

    /** A refusal changes nothing at all. */
    method Resume(clearKill: bool, readable: bool, writable: bool) returns (refused: bool, ok: bool)
      modifies this`flags, this`dirty, this`wake, if store == null then {} else {store}
      ensures refused <==> old(flags.killed) && !clearKill
      ensures refused ==> flags == old(flags) && dirty == old(dirty) && wake == old(wake) && (store != null ==> store.file == old(store.file))
      ensures !refused ==> Some(flags) == Resumed(old(flags), clearKill) && dirty && wake
      ensures !refused ==> !flags.killed && !flags.paused
      ensures old(Installed()) ==> Installed() && (!refused ==> Recorded(ok, readable, writable))
    {
      if flags.killed && !clearKill {
        return true, false;
      }
      if clearKill {
        flags := flags.(killed := false, killReason := "", killedAt := None);
      }
      flags := flags.(paused := false, pauseReason := "", pausedAt := None);
      dirty := true;
      Signal();
      ok := Persist(readable, writable);
      refused := false;
    }

    method Signal()
      modifies this`wake
      ensures wake
    {
      if !wake {
        wake := true;
      }
    }

    method SetSide(side: Side, enabled: bool)
      modifies this`bidEnabled, this`askEnabled, this`dirty, this`wake
      ensures dirty && wake
      ensures bidEnabled == (if side == Buy then enabled else old(bidEnabled))
      ensures askEnabled == (if side == Sell then enabled else old(askEnabled))
    {
      match side {
        case Buy => bidEnabled := enabled;
        case Sell => askEnabled := enabled;
      }
      dirty := true;
      Signal();
    }

    /** Every provided field is validated before any is applied; one that is not provided stays. */
    method SetAdjust(patch: AdjustPatch) returns (ok: bool)
      modifies this`adjust, this`dirty, this`wake
      ensures !ok ==> adjust == old(adjust) && dirty == old(dirty) && wake == old(wake)
      ensures ok <==>
                && (patch.midShiftBPS.Some? ==> -MAX_MID_SHIFT_BPS <= patch.midShiftBPS.value <= MAX_MID_SHIFT_BPS)
                && (patch.spreadAddBPS.Some? ==> -(halfSpreadBPS - 1.0) <= patch.spreadAddBPS.value <= MAX_SPREAD_ADD_BPS)
                && (patch.sizeMult.Some? ==> 0.0 <= patch.sizeMult.value <= MAX_SIZE_MULT)
      ensures ok ==> dirty && wake
      ensures ok ==> adjust.midShiftBPS == if patch.midShiftBPS.Some? then patch.midShiftBPS.value else old(adjust).midShiftBPS
      ensures ok ==> adjust.spreadAddBPS == if patch.spreadAddBPS.Some? then patch.spreadAddBPS.value else old(adjust).spreadAddBPS
      ensures ok ==> adjust.sizeMult == if patch.sizeMult.Some? then patch.sizeMult.value else old(adjust).sizeMult
      ensures AdjustAllowed(old(adjust), halfSpreadBPS) ==> AdjustAllowed(adjust, halfSpreadBPS)
    {
      if patch.midShiftBPS.Some? && !(Abs(patch.midShiftBPS.value) <= MAX_MID_SHIFT_BPS) {
        return false;
      }
      if patch.spreadAddBPS.Some? && !(-(halfSpreadBPS - 1.0) <= patch.spreadAddBPS.value <= MAX_SPREAD_ADD_BPS) {
        return false;
      }
      if patch.sizeMult.Some? && !(0.0 <= patch.sizeMult.value <= MAX_SIZE_MULT) {
        return false;
      }
      if patch.midShiftBPS.Some? {
        adjust := adjust.(midShiftBPS := patch.midShiftBPS.value);
      }
      if patch.spreadAddBPS.Some? {
        adjust := adjust.(spreadAddBPS := patch.spreadAddBPS.value);
      }
      if patch.sizeMult.Some? {
        adjust := adjust.(sizeMult := patch.sizeMult.value);
      }
      dirty := true;
      Signal();
      ok := true;
    }

    /** A placement passes exactly when neither flag is set and its side is enabled. */
    method AllowPlace(side: Side) returns (why: Option<Blocked>)
      ensures why.None? <==> Passes(Controls(), side)
      ensures why.None? <==> !flags.killed && !flags.paused && (side == Buy ==> bidEnabled) && (side == Sell ==> askEnabled)
      ensures flags.killed ==> why == Some(ByKill)
      ensures flags.paused && !flags.killed ==> why == Some(ByPause)
    {
      if flags.killed {
        return Some(ByKill);
      } else if flags.paused {
        return Some(ByPause);
      } else if side == Buy && !bidEnabled {
        return Some(BySide);
      } else if side == Sell && !askEnabled {
        return Some(BySide);
      }
      why := None;
    }

    method TakeDirty() returns (was: bool)
      modifies this`dirty
      ensures was == old(dirty) && !dirty
    {
      was := dirty;
      dirty := false;
    }

    method RecordAction(a: Attempt)
      requires Valid()
      modifies this`actionsNext, this`actionsLen, this`history, actions
      ensures Valid() && history == old(history) + [a]
    {
      hide Holds, RingIndex;
      ghost var ring := actions[..];
      RingPush(ring, actionsNext, history, a);
      actions[actionsNext] := a;
      assert actions[..] == ring[actionsNext := a];
      actionsNext := (actionsNext + 1) % MAX_ACTIONS;
      if actionsLen < MAX_ACTIONS {
        actionsLen := actionsLen + 1;
      }
      history := history + [a];
    }

    /** The recorded attempts, oldest first. */
    method Actions() returns (out: seq<Attempt>)
      requires Valid()
      ensures out == Latest(history)
    {
      out := [];
      var start := (actionsNext + MAX_ACTIONS - actionsLen) % MAX_ACTIONS;
      for i := 0 to actionsLen
        invariant out == Latest(history)[..i]
      {
        RingIndexIsModular(actionsNext, actionsLen, i);
        out := out + [actions[(start + i) % MAX_ACTIONS]];
      }
    }
  }

  /** A kill, whatever the loop saves after it, and the controller of the process that comes next: the kill is
      back unless its own write failed and the loop saved nothing either. */
  method KillThenRestart(store: Store, saves: seq<Persistent>, reason: string, now: int, writable: bool, halfSpreadBPS: real)
    returns (again: Controller?)
    modifies store
    ensures var was := Restored(old(store.Contents()));
            again != null && again.flags == if writable || saves != [] then Killed(was, reason, now) else was
  {
    var c := Controller.FromStore(store, true, halfSpreadBPS);
    var ok := c.Kill(reason, now, true, writable);
    ghost var killed := c.flags;
    for i := 0 to |saves|
      invariant store.overlay == c && c.flags == killed
      invariant if writable || i > 0 then Restored(store.Contents()) == killed else store.file == old(store.file)
    {
      var saved := store.Save(saves[i], true);
    }
    again := Controller.FromStore(store, true, halfSpreadBPS);
  }

  /** While paused neither side may place; after a resume that clears no kill each enabled side may, unless there
      is a kill. */
  method PauseThenResume(c: Controller, reason: string, now: int, writable: bool)
    returns (buyHeld: Option<Blocked>, sellHeld: Option<Blocked>, buy: Option<Blocked>, sell: Option<Blocked>)
    modifies c`flags, c`dirty, c`wake, if c.store == null then {} else {c.store}
    ensures buyHeld.Some? && sellHeld.Some?
    ensures buy.None? <==> !old(c.flags.killed) && c.bidEnabled
    ensures sell.None? <==> !old(c.flags.killed) && c.askEnabled
  {
    var written := c.Pause(reason, now, true, writable);
    buyHeld := c.AllowPlace(Buy);
    sellHeld := c.AllowPlace(Sell);
    var refused, ok := c.Resume(false, true, writable);
    buy := c.AllowPlace(Buy);
    sell := c.AllowPlace(Sell);
  }
}
