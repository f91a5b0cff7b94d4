/** Fill accounting over whole runs: loads that fail, cycles that stop anywhere after a load, cancels tried at
    any time, halts that relist the book before anything was observed. */
module FillRuns {
  import opened Market
  import opened FillAccounting

  /** What the bot compares the next load with, the cancels it has noted since the last one, and -- for
      the argument -- how often each id was counted as gone by a fill and which ids have left. */
  datatype Watch = Watch(snapshot: seq<Order>, observed: Option<seq<Order>>, noted: set<string>, counted: multiset<string>, gone: set<string>)

  /** A load that succeeds, and what the venue says about what is missing; a cancel tried; a halt that
      replaces the snapshot by what its sweep left. A failed load and everything after an observation
      change nothing here. */
  datatype Event = Load(book: seq<Order>, reasons: Reasons) | Try(id: string) | HaltListed(remaining: seq<Order>) | Nothing

  function Base(w: Watch): seq<Order> {
    if w.observed.Some? then w.observed.value else w.snapshot
  }

  function Starting(adopted: seq<Order>, noted: set<string>): Watch {
    Watch(adopted, None, noted, multiset{}, {})
  }

  /** The ids one load counts as gone by a fill. */
  function NewlyCounted(w: Watch, book: seq<Order>, reasons: Reasons): set<string> {
    Disappeared(Base(w), book, Excluded(Base(w), book, w.noted, reasons))
  }

  function Step(w: Watch, e: Event): Watch {
    match e
    case Load(book, reasons) =>
      w.(observed := Some(book), noted := {}, counted := w.counted + multiset(NewlyCounted(w, book, reasons)),
         gone := w.gone + (IDs(Base(w)) - IDs(book)))
    case Try(id) => w.(noted := w.noted + {id})
    case HaltListed(remaining) =>
      w.(snapshot := remaining, gone := if w.observed.Some? then w.gone else w.gone + (IDs(w.snapshot) - IDs(remaining)))
    case Nothing => w
  }

  /** Ids that have left never come back. */
  predicate Allowed(w: Watch, e: Event) {
    match e
    case Load(book, _) => IDs(book) !! w.gone
    case HaltListed(remaining) => w.observed.None? ==> IDs(remaining) !! w.gone
    case _ => true
  }

  function After(w: Watch, run: seq<Event>): Watch {
    if run == [] then w else Step(After(w, run[..|run| - 1]), run[|run| - 1])
  }

  ghost predicate RunAllowed(w: Watch, run: seq<Event>) {
    forall i :: 0 <= i < |run| ==> Allowed(After(w, run[..i]), run[i])
  }

  /** Nothing counted is still expected on the book, and nothing is counted twice. */
  ghost predicate CountedOnce(w: Watch) {
    && IDs(Base(w)) !! w.gone
    && (forall id :: w.counted[id] <= 1)
    && forall id :: w.counted[id] > 0 ==> id in w.gone
  }

  lemma StepCountsOnce(w: Watch, e: Event)
    requires CountedOnce(w) && Allowed(w, e)
    ensures CountedOnce(Step(w, e))
  {
    hide IDs, Excluded;
    if e.Load? {
      var added := NewlyCounted(w, e.book, e.reasons);
      forall id ensures multiset(added)[id] == if id in added then 1 else 0 {
      }
    }
  }

  /** Over every run in which loads and cycles may fail anywhere, each order is counted as gone by a fill
      at most once. */
  lemma {:induction false} EachOrderIsCountedOnce(adopted: seq<Order>, noted: set<string>, run: seq<Event>, id: string)
    requires RunAllowed(Starting(adopted, noted), run)
    ensures After(Starting(adopted, noted), run).counted[id] <= 1
    ensures CountedOnce(After(Starting(adopted, noted), run))
  {
    hide Step, IDs;
    if run != [] {
      var before := run[..|run| - 1];
      forall i | 0 <= i < |before| ensures Allowed(After(Starting(adopted, noted), before[..i]), before[i]) {
        assert before[..i] == run[..i];
      }
      EachOrderIsCountedOnce(adopted, noted, before, id);
      assert run[..|run| - 1] == before;
      StepCountsOnce(After(Starting(adopted, noted), before), run[|run| - 1]);
    }
  }

  lemma {:induction false} TriedStaysNoted(w: Watch, run: seq<Event>, id: string)
    requires id in w.noted && forall i :: 0 <= i < |run| ==> !run[i].Load?
    ensures id in After(w, run).noted
  {
    if run != [] {
      TriedStaysNoted(w, run[..|run| - 1], id);
    }
  }

  lemma {:induction false} AfterSplits(w: Watch, a: seq<Event>, b: seq<Event>)
    ensures After(w, a + b) == After(After(w, a), b)
  {
    if b == [] {
      assert a + b == a;
    } else {
      assert (a + b)[..|a + b| - 1] == a + b[..|b| - 1];
      AfterSplits(w, a, b[..|b| - 1]);
    }
  }

  /** An order the bot tried to cancel between two loads is not counted as a fill by the second, whether
      the cancel went through or not and whatever failed in between. */
  lemma TriedIsNotCounted(w: Watch, before: seq<Event>, between: seq<Event>, id: string, book: seq<Order>, reasons: Reasons)
    requires forall i :: 0 <= i < |between| ==> !between[i].Load?
    ensures var now := After(w, before + [Try(id)] + between);
            id !in NewlyCounted(now, book, reasons) && After(w, before + [Try(id)] + between + [Load(book, reasons)]).counted[id] == now.counted[id]
  {
    hide IDs, Disappeared;
    var tried := before + [Try(id)];
    AfterSplits(w, tried, between);
    assert tried[..|tried| - 1] == before;
    TriedStaysNoted(After(w, tried), between, id);
    var all := tried + between + [Load(book, reasons)];
    assert all[..|all| - 1] == tried + between;
    NotedIsExcluded(After(w, tried + between), book, reasons, id);
  }

  lemma NotedIsExcluded(w: Watch, book: seq<Order>, reasons: Reasons, id: string)
    requires id in w.noted
    ensures id !in NewlyCounted(w, book, reasons)
  {
  }

  /** What one load counts, in full: an order that was there, is not now, was not tried, and about whose
      disappearance the venue -- if it can be asked -- gives no reason. */
  lemma CountedExactlyWhenUnexplained(w: Watch, book: seq<Order>, reasons: Reasons, id: string)
    ensures id in NewlyCounted(w, book, reasons) <==>
              id in IDs(Base(w)) && id !in IDs(book) && id !in w.noted && (reasons.Some? && id in reasons.value ==> reasons.value[id] == "")
  {
  }

  lemma {:induction false} StaysObserved(w: Watch, run: seq<Event>, id: string)
    requires w.observed.Some? && id !in w.noted && forall i :: 0 <= i < |run| ==> !run[i].Load? && run[i] != Try(id)
    ensures After(w, run).observed == w.observed && id !in After(w, run).noted
  {
    if run != [] {
      StaysObserved(w, run[..|run| - 1], id);
    }
  }

  lemma {:induction false} CountsOnlyGrow(w: Watch, run: seq<Event>, id: string)
    ensures After(w, run).counted[id] >= w.counted[id]
  {
    hide IDs, NewlyCounted;
    if run != [] {
      CountsOnlyGrow(w, run[..|run| - 1], id);
    }
  }

  lemma LoadCounts(w: Watch, book: seq<Order>, reasons: Reasons, id: string)
    ensures Step(w, Load(book, reasons)).counted[id] == w.counted[id] + if id in NewlyCounted(w, book, reasons) then 1 else 0
    ensures Step(w, Load(book, reasons)).observed == Some(book) && Step(w, Load(book, reasons)).noted == {}
  {
    hide IDs, NewlyCounted;
  }

  /** An order that one load shows and the next does not, that the bot did not try to cancel between the two and whose
      disappearance the venue gives no reason for, is counted as gone by a fill, exactly once in the whole run --
      however often it had been tried before the first of them, and whatever fails between or after. */
  lemma UnexplainedIsCountedOnce(
    adopted: seq<Order>, noted: set<string>, before: seq<Event>, shown: seq<Order>, earlier: Reasons, between: seq<Event>,
    book: seq<Order>, reasons: Reasons, after: seq<Event>, id: string)
    requires RunAllowed(Starting(adopted, noted), before + [Load(shown, earlier)] + between + [Load(book, reasons)] + after)
    requires forall i :: 0 <= i < |between| ==> !between[i].Load? && between[i] != Try(id)
    requires id in IDs(shown) && id !in IDs(book) && (reasons.Some? && id in reasons.value ==> reasons.value[id] == "")
    ensures After(Starting(adopted, noted), before + [Load(shown, earlier)] + between + [Load(book, reasons)] + after).counted[id] == 1
  {
    hide IDs, NewlyCounted, Step;
    var start := Starting(adopted, noted);
    var first, second := before + [Load(shown, earlier)], before + [Load(shown, earlier)] + between + [Load(book, reasons)];
    assert first[..|first| - 1] == before && second[..|second| - 1] == first + between;
    LoadCounts(After(start, before), shown, earlier, id);
    AfterSplits(start, first, between);
    StaysObserved(After(start, first), between, id);
    CountedExactlyWhenUnexplained(After(start, first + between), book, reasons, id);
    LoadCounts(After(start, first + between), book, reasons, id);
    AfterSplits(start, second, after);
    CountsOnlyGrow(After(start, second), after, id);
    EachOrderIsCountedOnce(adopted, noted, second + after, id);
  }

  // ----- the bot's own state -----

  /** The loop's side of it: the snapshot, the last observation, and the counters an operator reads. */
  class Observer {
    var snapshot: seq<Order>
    var observed: seq<Order>
    var observedOK: bool
    var noted: set<string>
    var buys: nat
    var sells: nat
    var partials: nat

    constructor (adopted: seq<Order>, noted: set<string>)
      ensures snapshot == adopted && !observedOK && this.noted == noted && buys == sells == partials == 0
    {
      snapshot, observed, observedOK, this.noted := adopted, [], false, noted;
      buys, sells, partials := 0, 0, 0;
    }

    function Compared(): seq<Order>
      reads this
    {
      if observedOK then observed else snapshot
    }

    /** A load came in: compare, count, remember -- before anything later in the cycle can fail. */
    method Observe(loaded: seq<Order>, reasons: Reasons)
      modifies this
      ensures observedOK && observed == loaded && noted == {} && snapshot == old(snapshot)
      ensures var was := if old(observedOK) then old(observed) else old(snapshot);
              var filled := FilledIDs(was, loaded, Excluded(was, loaded, old(noted), reasons));
              && buys == old(buys) + |OnSide(was, filled, Buy)| && sells == old(sells) + |OnSide(was, filled, Sell)|
              && partials == old(partials) + |Shrunk(was, loaded)|
    {
      hide IDs, Excluded, Shrunk, FilledIDs, OnSide;
      var was := Compared();
      var excluded := NoteVenueCancels(was, loaded, noted, reasons);
      noted := {};
      var t := ObserveOrderStateFills(was, loaded, excluded);
      buys, sells, partials := buys + t.buys, sells + t.sells, partials + t.partials;
      observed, observedOK := loaded, true;
    }

    method NoteCancelled(id: string)
      modifies this`noted
      ensures noted == old(noted) + {id}
    {
      noted := noted + {id};
    }

    method HaltListing(remaining: seq<Order>)
      modifies this`snapshot
      ensures snapshot == remaining && Compared() == if observedOK then observed else remaining
    {
      snapshot := remaining;
    }
  }
}
