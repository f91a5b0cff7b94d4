/** The sliding one-minute window that rations replace-driven cancels (canUseCancelSlot, recordCancel
    and pruneCancelTimestamps in sync.go). */
module CancelBudget {

  const MINUTE: int := 60

  function Prune(stamps: seq<int>, now: int): (kept: seq<int>) {
    if stamps != [] && stamps[0] < now - MINUTE then Prune(stamps[1..], now) else stamps
  }

  predicate HasSlot(stamps: seq<int>, limit: int) {
    limit <= 0 || |stamps| < limit
  }

  class Window {
    var stamps: seq<int>
    /** Every cancel ever recorded, oldest first. */
    ghost var spent: seq<int>

    constructor ()
      ensures stamps == [] && spent == []
    {
      stamps, spent := [], [];
    }

    method PruneStamps(now: int)
      modifies this`stamps
      ensures stamps == Prune(old(stamps), now)
    {
      var idx := 0;
      while idx < |stamps| && stamps[idx] < now - MINUTE
        invariant idx <= |stamps|
        invariant Prune(stamps, now) == Prune(stamps[idx..], now)
      {
        assert stamps[idx..][1..] == stamps[idx + 1..];
        idx := idx + 1;
      }
      if idx > 0 {
        stamps := stamps[idx..];
      }
    }

    method CanUse(limit: int, now: int) returns (ok: bool)
      modifies this`stamps
      ensures stamps == if limit <= 0 then old(stamps) else Prune(old(stamps), now)
      ensures ok == HasSlot(stamps, limit)
    {
      if limit <= 0 {
        return true;
      }
      PruneStamps(now);
      ok := |stamps| < limit;
    }

    method Record(now: int)
      modifies this
      ensures stamps == Prune(old(stamps), now) + [now]
      ensures spent == old(spent) + [now]
    {
      PruneStamps(now);
      stamps := stamps + [now];
      spent := spent + [now];
    }
  }

  // ----- runs -----

  /** One use of the window: a look that only prunes, or a look that found a slot followed, once the
      venue answered, by the recorded cancel. */
  datatype Use = Look(at: int) | Spend(checkedAt: int, recordedAt: int)

  datatype Budget = Budget(stamps: seq<int>, spent: seq<int>)

  function Apply(b: Budget, u: Use): Budget {
    match u
    case Look(at) => b.(stamps := Prune(b.stamps, at))
    case Spend(checked, recorded) =>
      Budget(Prune(Prune(b.stamps, checked), recorded) + [recorded], b.spent + [recorded])
  }

  predicate Allowed(b: Budget, u: Use, limit: int) {
    u.Spend? ==> HasSlot(Prune(b.stamps, u.checkedAt), limit)
  }

  function Began(u: Use): int {
    match u case Look(at) => at case Spend(checked, _) => checked
  }

  function Ended(u: Use): int {
    match u case Look(at) => at case Spend(_, recorded) => recorded
  }

  ghost predicate Sorted(s: seq<int>) {
    forall i, j :: 0 <= i < j < |s| ==> s[i] <= s[j]
  }

  /** Any `limit + 1` recorded cancels span more than a minute. */
  ghost predicate Rationed(spent: seq<int>, limit: int) {
    forall i, j :: 0 <= i < j < |spent| && j - i >= limit ==> spent[j] - spent[i] > MINUTE
  }

  /** The retained stamps are exactly those within a minute of the last prune. */
  ghost predicate Retained(b: Budget, pruned: int) {
    && |b.stamps| <= |b.spent|
    && b.stamps == b.spent[|b.spent| - |b.stamps|..]
    && (forall i :: 0 <= i < |b.spent| ==> (b.spent[i] >= pruned - MINUTE <==> |b.spent| - |b.stamps| <= i))
  }

  ghost predicate WithinBudget(b: Budget, limit: int, pruned: int, now: int) {
    && pruned <= now
    && Sorted(b.spent)
    && (forall i :: 0 <= i < |b.spent| ==> b.spent[i] <= now)
    && Retained(b, pruned)
    && (limit > 0 ==> Rationed(b.spent, limit))
  }

  lemma {:induction false} PruneIsSuffix(spent: seq<int>, from: nat, now: int)
    requires from <= |spent| && Sorted(spent)
    requires forall i :: 0 <= i < from ==> spent[i] < now - MINUTE
    ensures var kept := Prune(spent[from..], now);
            && |kept| <= |spent| && kept == spent[|spent| - |kept|..]
            && forall i :: 0 <= i < |spent| ==> (spent[i] >= now - MINUTE <==> |spent| - |kept| <= i)
    decreases |spent| - from
  {
    if from < |spent| && spent[from] < now - MINUTE {
      assert spent[from..][1..] == spent[from + 1..];
      PruneIsSuffix(spent, from + 1, now);
    }
  }

  lemma PruneKeepsBudget(b: Budget, limit: int, pruned: int, now: int, at: int)
    requires WithinBudget(b, limit, pruned, now) && now <= at
    ensures WithinBudget(b.(stamps := Prune(b.stamps, at)), limit, at, at)
  {
    var from := |b.spent| - |b.stamps|;
    forall i | 0 <= i < from ensures b.spent[i] < at - MINUTE {
    }
    PruneIsSuffix(b.spent, from, at);
  }

  lemma AppendKeepsBudget(b: Budget, limit: int, at: int)
    requires WithinBudget(b, limit, at, at)
    requires limit > 0 && |b.spent| >= limit ==> b.spent[|b.spent| - limit] < at - MINUTE
    ensures WithinBudget(Budget(b.stamps + [at], b.spent + [at]), limit, at, at)
  {
    var after := Budget(b.stamps + [at], b.spent + [at]);
    assert after.stamps == after.spent[|after.spent| - |after.stamps|..];
    if limit > 0 {
      forall i, j | 0 <= i < j < |after.spent| && j - i >= limit ensures after.spent[j] - after.spent[i] > MINUTE {
        if j == |b.spent| {
          assert after.spent[i] == b.spent[i] <= b.spent[|b.spent| - limit];
        }
      }
    }
  }

  lemma UseKeepsBudget(b: Budget, u: Use, limit: int, pruned: int, now: int)
    requires WithinBudget(b, limit, pruned, now) && Allowed(b, u, limit)
    requires now <= Began(u) <= Ended(u)
    ensures WithinBudget(Apply(b, u), limit, Ended(u), Ended(u))
  {
    PruneKeepsBudget(b, limit, pruned, now, Began(u));
    if u.Spend? {
      var looked := b.(stamps := Prune(b.stamps, u.checkedAt));
      PruneKeepsBudget(looked, limit, u.checkedAt, u.checkedAt, u.recordedAt);
      // The stamp `limit` places back had already left the window when the slot was granted.
      AppendKeepsBudget(looked.(stamps := Prune(looked.stamps, u.recordedAt)), limit, u.recordedAt);
    }
  }

  function Run(b: Budget, uses: seq<Use>): Budget {
    if uses == [] then b else Apply(Run(b, uses[..|uses| - 1]), uses[|uses| - 1])
  }

  ghost predicate RunAllowed(uses: seq<Use>, limit: int) {
    (forall i {:trigger uses[i]} :: 0 <= i < |uses| ==>
      Began(uses[i]) <= Ended(uses[i]) && Allowed(Run(Budget([], []), uses[..i]), uses[i], limit)) &&
    forall i, j :: 0 <= i < j < |uses| ==> Ended(uses[i]) <= Began(uses[j])
  }

  lemma {:induction false} RunKeepsBudget(uses: seq<Use>, limit: int)
    requires uses != [] && RunAllowed(uses, limit)
    ensures var end := Ended(uses[|uses| - 1]); WithinBudget(Run(Budget([], []), uses), limit, end, end)
  {
    var before, last := uses[..|uses| - 1], uses[|uses| - 1];
    if before == [] {
      UseKeepsBudget(Budget([], []), last, limit, Began(last), Began(last));
    } else {
      forall i | 0 <= i < |before| ensures before[..i] == uses[..i] {
      }
      RunKeepsBudget(before, limit);
      var end := Ended(before[|before| - 1]);
      UseKeepsBudget(Run(Budget([], []), before), last, limit, end, end);
    }
  }

  /** When cancels were recorded. */
  function Times(uses: seq<Use>): seq<int> {
    if uses == [] then []
    else
      Times(uses[..|uses| - 1]) +
      match uses[|uses| - 1]
      case Look(_) => []
      case Spend(_, recorded) => [recorded]
  }

  lemma {:induction false} RunRecordsEverySpend(uses: seq<Use>)
    ensures Run(Budget([], []), uses).spent == Times(uses)
  {
    hide Prune;
    if uses != [] {
      RunRecordsEverySpend(uses[..|uses| - 1]);
    }
  }

  /** How many recorded cancels fall in the closed window [from, from + MINUTE]. */
  function CountIn(spent: seq<int>, from: int): nat {
    if spent == [] then 0
    else CountIn(spent[..|spent| - 1], from) + if from <= spent[|spent| - 1] <= from + MINUTE then 1 else 0
  }

  lemma {:induction false} CountInSorted(spent: seq<int>, from: int) returns (lo: nat, hi: nat)
    requires Sorted(spent)
    ensures lo <= hi <= |spent| && CountIn(spent, from) == hi - lo
    ensures forall i :: lo <= i < hi ==> from <= spent[i] <= from + MINUTE
    ensures hi < |spent| ==> spent[|spent| - 1] > from + MINUTE
    ensures hi == lo && hi == |spent| ==> forall i :: 0 <= i < |spent| ==> spent[i] < from
  {
    if spent == [] {
      lo, hi := 0, 0;
    } else {
      var init, last := spent[..|spent| - 1], spent[|spent| - 1];
      var l, h := CountInSorted(init, from);
      lo, hi := l, h;
      if from <= last <= from + MINUTE {
        hi := h + 1;
      } else if last < from {
        lo, hi := |spent|, |spent|;
      }
    }
  }

  lemma RationedCount(spent: seq<int>, limit: int, from: int)
    requires limit > 0 && Sorted(spent) && Rationed(spent, limit)
    ensures CountIn(spent, from) <= limit
  {
    var lo, hi := CountInSorted(spent, from);
    if lo < hi {
      var first, last := spent[lo], spent[hi - 1];
    }
  }

  lemma {:induction false} CountTail(spent: seq<int>, from: nat, at: int)
    requires from <= |spent| && forall i :: 0 <= i < |spent| ==> spent[i] <= at && (spent[i] >= at - MINUTE <==> from <= i)
    ensures CountIn(spent, at - MINUTE) == |spent| - from
  {
    if spent != [] {
      CountTail(spent[..|spent| - 1], if from == |spent| then from - 1 else from, at);
    }
  }

  /** There is room exactly when fewer than the limit were recorded in the minute up to now. */
  lemma RoomIsCounted(b: Budget, limit: int, pruned: int, now: int, at: int)
    requires WithinBudget(b, limit, pruned, now) && now <= at
    ensures HasSlot(Prune(b.stamps, at), limit) <==> limit <= 0 || CountIn(b.spent, at - MINUTE) < limit
  {
    PruneKeepsBudget(b, limit, pruned, now, at);
    CountTail(b.spent, |b.spent| - |Prune(b.stamps, at)|, at);
  }

  /** Over every run on a monotone clock, any closed one-minute window holds at most `limit` recorded
      cancels, and what is retained is exactly the last minute as of the last prune. */
  lemma AtMostLimitPerMinute(uses: seq<Use>, limit: int, from: int)
    requires limit > 0 && uses != [] && RunAllowed(uses, limit)
    ensures CountIn(Times(uses), from) <= limit
    ensures var end := Ended(uses[|uses| - 1]); Retained(Run(Budget([], []), uses), end)
  {
    RunKeepsBudget(uses, limit);
    RunRecordsEverySpend(uses);
    RationedCount(Run(Budget([], []), uses).spent, limit, from);
  }
}
