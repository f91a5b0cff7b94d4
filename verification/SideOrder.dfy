/** Splitting the listed orders by side, best price first (groupOrdersBySide in sync.go): a stable sort. */
module SideOrder {
  import opened Market
  import opened Reconcile
  import opened Quiescence

  function OfSide(orders: seq<Order>, side: Side): seq<Order> {
    if orders == [] then []
    else OfSide(orders[..|orders| - 1], side) + if orders[|orders| - 1].side == side then [orders[|orders| - 1]] else []
  }

  function AtPrice(orders: seq<Order>, price: real): seq<Order> {
    if orders == [] then []
    else AtPrice(orders[..|orders| - 1], price) + if orders[|orders| - 1].price == price then [orders[|orders| - 1]] else []
  }

  lemma AtPriceAppend(orders: seq<Order>, o: Order, price: real)
    ensures AtPrice(orders + [o], price) == AtPrice(orders, price) + if o.price == price then [o] else []
  {
    assert (orders + [o])[..|orders|] == orders;
  }

  lemma {:induction false} InsertKeepsAll(side: Side, sorted: seq<Order>, o: Order)
    ensures multiset(Insert(side, sorted, o)) == multiset(sorted) + multiset{o}
  {
    if sorted != [] && Better(side, o.price, sorted[|sorted| - 1].price) {
      InsertKeepsAll(side, sorted[..|sorted| - 1], o);
      assert sorted == sorted[..|sorted| - 1] + [sorted[|sorted| - 1]];
    }
  }

  /** An order goes in behind every order at its own price. */
  lemma {:induction false} InsertIsLast(side: Side, sorted: seq<Order>, o: Order, price: real)
    ensures AtPrice(Insert(side, sorted, o), price) == AtPrice(sorted, price) + if o.price == price then [o] else []
  {
    hide AtPrice;
    if sorted == [] || !Better(side, o.price, sorted[|sorted| - 1].price) {
      AtPriceAppend(sorted, o, price);
    } else {
      var init, last := sorted[..|sorted| - 1], sorted[|sorted| - 1];
      InsertIsLast(side, init, o, price);
      AtPriceAppend(Insert(side, init, o), last, price);
      AtPriceAppend(init, last, price);
      assert sorted == init + [last];
    }
  }

  /** The side's orders, every one exactly as often as listed, best price first, and in listing order at
      each price. */
  lemma {:induction false} SideBookIsAStableSort(side: Side, orders: seq<Order>, price: real)
    ensures WeaklySorted(side, SideBook(side, orders))
    ensures multiset(SideBook(side, orders)) == multiset(OfSide(orders, side))
    ensures AtPrice(SideBook(side, orders), price) == AtPrice(OfSide(orders, side), price)
  {
    hide AtPrice, Insert;
    if orders != [] {
      var init, last := orders[..|orders| - 1], orders[|orders| - 1];
      SideBookIsAStableSort(side, init, price);
      if last.side == side {
        InsertSorted(side, SideBook(side, init), last);
        InsertKeepsAll(side, SideBook(side, init), last);
        InsertIsLast(side, SideBook(side, init), last, price);
        AtPriceAppend(OfSide(init, side), last, price);
        assert OfSide(orders, side) == OfSide(init, side) + [last];
      } else {
        assert OfSide(orders, side) == OfSide(init, side);
      }
    }
  }
}
