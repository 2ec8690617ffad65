/**
 * A customer's order and the order the day's orders are attempted in
 * (src/main/java/uk/ac/ed/inf/Order.java).
 *
 * An Order is immutable: its four final fields are the datatype's fields,
 * which serve as its getters. It keeps the Menus object it was built with,
 * which prices it.
 */
module Orders {
  import opened Restaurants
  import opened Pricing

  datatype Order = Order(orderNo: string, customer: string, deliverTo: string, items: seq<string>, menu: Menus)

  /** getOrderCost: the receiver's menu prices the argument's items. */
  function OrderCost(receiver: Order, order: Order): int
    reads receiver.menu.restaurantList
  {
    DeliveryCost(receiver.menu.restaurantList, order.items)
  }

  /** compareTo: the difference of the two orders' prices, both priced by
      the receiver's menu. */
  function CompareTo(a: Order, b: Order): int
    reads a.menu.restaurantList
  {
    DeliveryCost(a.menu.restaurantList, a.items) - DeliveryCost(a.menu.restaurantList, b.items)
  }

  /** The price of an order depends on its items alone, whichever order
      sharing the menu asks. */
  lemma OrderCostIgnoresReceiver(r1: Order, r2: Order, o1: Order, o2: Order)
    requires r1.menu == r2.menu && o1.items == o2.items
    ensures OrderCost(r1, o1) == OrderCost(r2, o2)
  {
  }

  /** compareTo is zero on equal orders and antisymmetric on orders sharing
      a menu, so it orders by price. */
  lemma CompareToIsAntisymmetric(a: Order, b: Order)
    requires a.menu == b.menu
    ensures CompareTo(a, a) == 0
    ensures CompareTo(a, b) == -CompareTo(b, a)
    ensures CompareTo(a, b) == OrderCost(a, a) - OrderCost(a, b)
  {
  }

  // ---------------------------------------------------------------------
  // The day's orders sorted with Collections.reverseOrder(): a stable
  // sort (List.sort is a merge sort) by descending price.

  /** Sorted by descending price (the first component). */
  predicate DescendingByCost<T>(s: seq<(int, T)>)
  {
    forall i, j :: 0 <= i < j < |s| ==> s[i].0 >= s[j].0
  }

  /** The entries of a given price, in the order they appear. */
  function WithCost<T>(s: seq<(int, T)>, c: int): seq<(int, T)>
  {
    if |s| == 0 then [] else (if s[0].0 == c then [s[0]] else []) + WithCost(s[1..], c)
  }

  /** Insert x before the first entry that does not cost more than it. */
  function InsertByCost<T>(x: (int, T), s: seq<(int, T)>): (r: seq<(int, T)>)
    requires DescendingByCost(s)
    ensures DescendingByCost(r)
    ensures multiset(r) == multiset(s) + multiset{x}
    ensures |r| == |s| + 1
  {
    if s == [] then [x]
    else if s[0].0 <= x.0 then [x] + s
    else
      var rest := InsertByCost(x, s[1..]);
      assert s == [s[0]] + s[1..];
      InsertByCostKeepsHead(x, s, rest);
      [s[0]] + rest
  }

  /** The head of a descending sequence stays first when x, cheaper than
      it, is inserted into the tail. */
  lemma InsertByCostKeepsHead<T>(x: (int, T), s: seq<(int, T)>, rest: seq<(int, T)>)
    requires DescendingByCost(s) && s != [] && x.0 < s[0].0
    requires DescendingByCost(rest) && multiset(rest) == multiset(s[1..]) + multiset{x}
    ensures DescendingByCost([s[0]] + rest)
  {
    forall i | 0 <= i < |rest|
      ensures rest[i].0 <= s[0].0
    {
      assert rest[i] in multiset(rest);
      if rest[i] != x {
        assert rest[i] in s[1..];
      }
    }
  }

  function SortByCostDescending<T>(s: seq<(int, T)>): (r: seq<(int, T)>)
    ensures DescendingByCost(r)
    ensures multiset(r) == multiset(s)
    ensures |r| == |s|
  {
    if s == [] then []
    else
      assert s == [s[0]] + s[1..];
      InsertByCost(s[0], SortByCostDescending(s[1..]))
  }

  lemma {:induction false} WithCostAppend<T>(a: seq<(int, T)>, b: seq<(int, T)>, c: int)
    ensures WithCost(a + b, c) == WithCost(a, c) + WithCost(b, c)
  {
    if |a| > 0 {
      assert (a + b)[1..] == a[1..] + b;
      WithCostAppend(a[1..], b, c);
    } else {
      assert a + b == b;
    }
  }

  lemma {:induction false} InsertByCostIsStable<T>(x: (int, T), s: seq<(int, T)>, c: int)
    requires DescendingByCost(s)
    ensures WithCost(InsertByCost(x, s), c) == (if x.0 == c then [x] else []) + WithCost(s, c)
  {
    if s == [] {
    } else if s[0].0 <= x.0 {
      assert InsertByCost(x, s) == [x] + s;
      WithCostAppend([x], s, c);
    } else {
      var rest := InsertByCost(x, s[1..]);
      InsertByCostIsStable(x, s[1..], c);
      assert InsertByCost(x, s) == [s[0]] + rest;
      WithCostAppend([s[0]], rest, c);
      WithCostAppend([s[0]], s[1..], c);
      assert s == [s[0]] + s[1..];
    }
  }

  /** The sort is stable: the entries of every price keep their input order. */
  lemma {:induction false} SortByCostIsStable<T>(s: seq<(int, T)>, c: int)
    ensures WithCost(SortByCostDescending(s), c) == WithCost(s, c)
  {
    if s != [] {
      SortByCostIsStable(s[1..], c);
      InsertByCostIsStable(s[0], SortByCostDescending(s[1..]), c);
      WithCostAppend([s[0]], s[1..], c);
      assert s == [s[0]] + s[1..];
    }
  }
}
