/** Telling fills from cancels (observeFills, observeOrderStateFills and the observation part of RunCycle in
    bot.go, noteVenueCancels in venue_cancels.go): what is counted when orders leave the book. */
module FillAccounting {
  import opened Market

  // ----- one observation -----

  /** By id; a later order of the same id replaces an earlier one. */
  function ByID(orders: seq<Order>): map<string, Order> {
    if orders == [] then map[] else ByID(orders[..|orders| - 1])[orders[|orders| - 1].id := orders[|orders| - 1]]
  }

  function IDs(orders: seq<Order>): (ids: set<string>)
    ensures ids == ByID(orders).Keys
  {
    if orders == [] then {} else IDs(orders[..|orders| - 1]) + {orders[|orders| - 1].id}
  }

  /** Present before, absent now, and not known to be a cancel. */
  function Disappeared(prev: seq<Order>, cur: seq<Order>, excluded: set<string>): set<string> {
    IDs(prev) - IDs(cur) - excluded
  }

  /** Present both times with less left. */
  function Shrunk(prev: seq<Order>, cur: seq<Order>): set<string> {
    set id | id in IDs(prev) && id in IDs(cur) && ByID(cur)[id].size < ByID(prev)[id].size
  }

  lemma {:induction false} ByIDIs(orders: seq<Order>, o: Order)
    requires DistinctIDs(orders) && o in orders
    ensures o.id in ByID(orders) && ByID(orders)[o.id] == o
  {
    var init, last := orders[..|orders| - 1], orders[|orders| - 1];
    if o != last {
      assert o in init;
      ByIDIs(init, o);
    }
  }

  /** An order listed both times is counted as a partial fill exactly when less of it is left. */
  lemma PartialExactlyWhenLessIsLeft(prev: seq<Order>, cur: seq<Order>, before: Order, after: Order)
    requires DistinctIDs(prev) && DistinctIDs(cur) && before in prev && after in cur && before.id == after.id
    ensures before.id in Shrunk(prev, cur) <==> after.size < before.size
  {
    ByIDIs(prev, before);
    ByIDIs(cur, after);
  }

  function OnSide(prev: seq<Order>, ids: set<string>, side: Side): set<string>
    requires ids <= IDs(prev)
  {
    set id | id in ids && ByID(prev)[id].side == side
  }

  function FilledIDs(prev: seq<Order>, cur: seq<Order>, excluded: set<string>): (ids: set<string>)
    ensures ids <= IDs(prev)
  {
    Disappeared(prev, cur, excluded) + Shrunk(prev, cur)
  }

  /** An order of the previous book counts as filled exactly when it is gone and nothing excludes it, or when less of it
      is left; and then on its own side. */
  lemma FilledExactlyWhenGoneOrLess(prev: seq<Order>, cur: seq<Order>, excluded: set<string>, o: Order, side: Side)
    requires DistinctIDs(prev) && DistinctIDs(cur) && o in prev
    ensures o.id in OnSide(prev, FilledIDs(prev, cur, excluded), side) <==>
              o.side == side
              && (((forall x :: x in cur ==> x.id != o.id) && o.id !in excluded) || (exists x :: x in cur && x.id == o.id && x.size < o.size))
  {
    ByIDIs(prev, o);
    if x :| x in cur && x.id == o.id {
      ByIDIs(cur, x);
      forall y | y in cur && y.id == o.id ensures y == x {
        ByIDIs(cur, y);
      }
    } else {
      NotListed(cur, o.id);
    }
  }

  lemma {:induction false} NotListed(orders: seq<Order>, id: string)
    requires forall x :: x in orders ==> x.id != id
    ensures id !in IDs(orders)
  {
    if orders != [] {
      NotListed(orders[..|orders| - 1], id);
    }
  }

  method IndexByID(orders: seq<Order>) returns (m: map<string, Order>)
    ensures m == ByID(orders)
  {
    m := map[];
    for i := 0 to |orders|
      invariant m == ByID(orders[..i])
    {
      assert orders[..i + 1][..i] == orders[..i];
      m := m[orders[i].id := orders[i]];
    }
    assert orders[..|orders|] == orders;
  }

  /** Gone, for whatever reason, or shrunk. */
  function Differing(prev: seq<Order>, cur: seq<Order>): set<string> {
    (IDs(prev) - IDs(cur)) + Shrunk(prev, cur)
  }

  /** One order of the previous book against the current one. */
  method Compare(previous: seq<Order>, current: seq<Order>, prevByID: map<string, Order>, currentByID: map<string, Order>, cancelled: set<string>, id: string)
    returns (filled: bool, partial: bool, differs: bool)
    requires prevByID == ByID(previous) && currentByID == ByID(current) && id in prevByID
    ensures filled <==> id in FilledIDs(previous, current, cancelled)
    ensures partial <==> id in Shrunk(previous, current)
    ensures differs <==> id in Differing(previous, current)
  {
    filled, partial, differs := false, false, false;
    if id !in currentByID {
      differs := true;
      filled := id !in cancelled;
    } else if currentByID[id].size < prevByID[id].size {
      filled, partial, differs := true, true, true;
    }
  }

  /** Taking one more id into account. */
  lemma OneMore(counted: set<string>, left: set<string>, id: string)
    requires id in left
    ensures |counted - (left - {id})| == |counted - left| + if id in counted then 1 else 0
  {
    assert counted - (left - {id}) == (counted - left) + if id in counted then {id} else {};
  }

  datatype Tally = Tally(buys: nat, sells: nat, partials: nat, truth: bool)

  /** What the ids not in `left` add up to. */
  ghost function TallyBut(prev: seq<Order>, cur: seq<Order>, cancelled: set<string>, left: set<string>): Tally {
    var filled := FilledIDs(prev, cur, cancelled);
    Tally(|OnSide(prev, filled, Buy) - left|, |OnSide(prev, filled, Sell) - left|, |Shrunk(prev, cur) - left|,
          Differing(prev, cur) - left != {})
  }

  function Bump(t: Tally, side: Side, filled: bool, partial: bool, differs: bool): Tally {
    Tally(t.buys + (if filled && side == Buy then 1 else 0), t.sells + (if filled && side == Sell then 1 else 0),
          t.partials + (if partial then 1 else 0), t.truth || differs)
  }

  lemma TallyOneMore(prev: seq<Order>, cur: seq<Order>, cancelled: set<string>, left: set<string>, id: string)
    requires id in left && id in IDs(prev)
    ensures TallyBut(prev, cur, cancelled, left - {id}) ==
            Bump(TallyBut(prev, cur, cancelled, left), ByID(prev)[id].side,
                 id in FilledIDs(prev, cur, cancelled), id in Shrunk(prev, cur), id in Differing(prev, cur))
  {
    hide ByID, IDs, Shrunk, Differing, FilledIDs;
    var filled := FilledIDs(prev, cur, cancelled);
    OneMore(OnSide(prev, filled, Buy), left, id);
    OneMore(OnSide(prev, filled, Sell), left, id);
    OneMore(Shrunk(prev, cur), left, id);
    var differing := Differing(prev, cur);
    assert differing - (left - {id}) == (differing - left) + if id in differing then {id} else {};
  }

  lemma TallyStartsEmpty(prev: seq<Order>, cur: seq<Order>, cancelled: set<string>)
    ensures TallyBut(prev, cur, cancelled, IDs(prev)) == Tally(0, 0, 0, false)
  {
    hide ByID, IDs, FilledIDs;
    var filled := FilledIDs(prev, cur, cancelled);
    DifferingIsPrevious(prev, cur);
    assert OnSide(prev, filled, Buy) - IDs(prev) == {} && OnSide(prev, filled, Sell) - IDs(prev) == {};
    assert Shrunk(prev, cur) - IDs(prev) == {} && Differing(prev, cur) - IDs(prev) == {};
  }

  lemma TallyEndsFull(prev: seq<Order>, cur: seq<Order>, cancelled: set<string>)
    ensures var filled := FilledIDs(prev, cur, cancelled);
            TallyBut(prev, cur, cancelled, {}) ==
              Tally(|OnSide(prev, filled, Buy)|, |OnSide(prev, filled, Sell)|, |Shrunk(prev, cur)|, Differing(prev, cur) != {})
  {
    hide ByID, IDs, FilledIDs, Shrunk, Differing;
    var filled := FilledIDs(prev, cur, cancelled);
    assert OnSide(prev, filled, Buy) - {} == OnSide(prev, filled, Buy);
    assert OnSide(prev, filled, Sell) - {} == OnSide(prev, filled, Sell);
    assert Shrunk(prev, cur) - {} == Shrunk(prev, cur) && Differing(prev, cur) - {} == Differing(prev, cur);
  }

  /** Each order that disappeared unexplained or shrank is one fill on its side, each that shrank one
      partial; `truth` says the two books differ at all. */
  method ObserveOrderStateFills(previous: seq<Order>, current: seq<Order>, cancelled: set<string>) returns (t: Tally)
    ensures t.buys == |OnSide(previous, FilledIDs(previous, current, cancelled), Buy)|
    ensures t.sells == |OnSide(previous, FilledIDs(previous, current, cancelled), Sell)|
    ensures t.partials == |Shrunk(previous, current)|
    ensures t.truth <==> Differing(previous, current) != {}
  {
    hide ByID, Shrunk, Differing, FilledIDs, IDs, TallyBut, OnSide;
    var prevByID := IndexByID(previous);
    var currentByID := IndexByID(current);
    t := Tally(0, 0, 0, false);
    TallyStartsEmpty(previous, current, cancelled);
    var left := prevByID.Keys;
    while left != {}
      invariant left <= IDs(previous)
      invariant t == TallyBut(previous, current, cancelled, left)
      decreases |left|
    {
      var id :| id in left;
      TallyOneMore(previous, current, cancelled, left, id);
      left := left - {id};
      var filled, partial, differs := Compare(previous, current, prevByID, currentByID, cancelled, id);
      t := Bump(t, prevByID[id].side, filled, partial, differs);
    }
    TallyEndsFull(previous, current, cancelled);
  }

  lemma DifferingIsPrevious(prev: seq<Order>, cur: seq<Order>)
    ensures Differing(prev, cur) <= IDs(prev) && Shrunk(prev, cur) <= IDs(prev)
  {
  }

  /** Why orders left, as the venue says: None when it cannot be read, "" for no reason. */
  type Reasons = Option<map<string, string>>

  function ReasonFor(reasons: map<string, string>, id: string): string {
    if id in reasons then reasons[id] else ""
  }

  /** What is not a fill: the bot's own cancels and, when the venue can be asked, every disappearance it
      gives a reason for. */
  function Excluded(prev: seq<Order>, cur: seq<Order>, ours: set<string>, reasons: Reasons): set<string> {
    if reasons.None? then ours
    else ours + WithReason(IDs(prev) - IDs(cur) - ours, reasons.value)
  }

  lemma IDsAppend(orders: seq<Order>, o: Order)
    ensures IDs(orders + [o]) == IDs(orders) + {o.id}
  {
    assert (orders + [o])[..|orders|] == orders;
  }

  lemma IDsPrefix(orders: seq<Order>, i: nat)
    requires i < |orders|
    ensures IDs(orders[..i + 1]) == IDs(orders[..i]) + {orders[i].id}
  {
    IDsAppend(orders[..i], orders[i]);
    assert orders[..i + 1] == orders[..i] + [orders[i]];
  }

  method Still(current: seq<Order>) returns (still: set<string>)
    ensures still == IDs(current)
  {
    hide IDs;
    still := {};
    assert IDs([]) == {} by {
      NoIDs();
    }
    for i := 0 to |current|
      invariant still == IDs(current[..i])
    {
      IDsPrefix(current, i);
      still := still + {current[i].id};
    }
    assert current[..|current|] == current;
  }

  lemma NoIDs()
    ensures IDs([]) == {}
  {
  }

  /** The orders that left without the bot cancelling them. */
  method Missing(previous: seq<Order>, current: seq<Order>, ours: set<string>) returns (gone: seq<Order>)
    ensures IDs(gone) == IDs(previous) - IDs(current) - ours
  {
    hide IDs;
    var still := Still(current);
    gone := [];
    NoIDs();
    for i := 0 to |previous|
      invariant IDs(gone) == IDs(previous[..i]) - still - ours
    {
      IDsPrefix(previous, i);
      if previous[i].id !in still && previous[i].id !in ours {
        IDsAppend(gone, previous[i]);
        gone := gone + [previous[i]];
      }
    }
    assert previous[..|previous|] == previous;
  }

  function WithReason(ids: set<string>, reasons: map<string, string>): set<string> {
    set id | id in ids && ReasonFor(reasons, id) != ""
  }

  method NoteVenueCancels(previous: seq<Order>, current: seq<Order>, ours: set<string>, reasons: Reasons) returns (excluded: set<string>)
    ensures excluded == Excluded(previous, current, ours, reasons)
  {
    hide ReasonFor, IDs;
    var gone := Missing(previous, current, ours);
    excluded := ours;
    NoIDs();
    if gone == [] || reasons.None? {
      return;
    }
    for i := 0 to |gone|
      invariant excluded == ours + WithReason(IDs(gone[..i]), reasons.value)
    {
      IDsPrefix(gone, i);
      if ReasonFor(reasons.value, gone[i].id) != "" {
        excluded := excluded + {gone[i].id};
      }
    }
    assert gone[..|gone|] == gone;
  }
}
