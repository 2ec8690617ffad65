/**
 * The delivery scheduler of src/main/java/uk/ac/ed/inf/Drone.java.
 *
 * The functions first give, step by step, what each of Drone's methods
 * computes from the drone's state (DroneState) and its surroundings
 * (Routing.Area); the lemmas after them prove what the schedule
 * guarantees; the class Drone at the end runs the same computation in
 * place, each method proved against its function.
 *
 * A Java exception is an Outcome.Threw; a null list is Returned(None).
 */
module Delivery {
  import opened Common
  import opened Geo
  import opened Client
  import opened Routing
  import opened Restaurants
  import opened Pricing
  import opened Orders

  /** The moves the drone may fly in a day. */
  const MAX_NUMBER_OF_MOVES: int := 1500

  /** Integer.MIN_VALUE, getMovesLeft's answer when the way back is blocked. */
  const INT_MIN_VALUE: int := -0x8000_0000

  /** The four fields greedyOrdersInADay updates. */
  datatype DroneState = DroneState(
    maxMoves: int,
    continueIterations: bool,
    deliveredOrdersInADay: seq<Order>,
    flightpath: seq<FlightpathMove>)

  /** What the scheduler uses of the drone's surroundings: the arithmetic,
      the route planner (travelToPosition's route, Routing.Travel) and the
      what3words geocoder. */
  datatype World = World(
    math: MathModel,
    plan: (Pos, Pos, bool) -> Outcome<Option<seq<Step>>>,
    locate: string -> Pos)

  /** The world of a drone with the given surroundings. */
  function WorldOf(a: Area): World
  {
    World(a.math, (start, end, isBase) => Travel(a, start, end, isBase), w3w => Geocode(a, w3w))
  }

  /** The world plans as the router over the area does ... */
  ghost predicate PlansLike(w: World, a: Area)
  {
    forall start, end, isBase {:trigger Travel(a, start, end, isBase)} ::
      w.plan(start, end, isBase) == Travel(a, start, end, isBase)
  }

  /** ... and geocodes as the what3words lookup of the area. */
  ghost predicate LocatesLike(w: World, a: Area)
  {
    forall w3w {:trigger Geocode(a, w3w)} :: w.locate(w3w) == Geocode(a, w3w)
  }

  lemma WorldOfPlansLike(a: Area)
    ensures PlansLike(WorldOf(a), a) && LocatesLike(WorldOf(a), a) && WorldOf(a).math == a.math
  {
  }

  /** travelToPosition for an order: the route, its moves labelled with the
      order number. */
  function TravelMoves(w: World, orderNo: string, start: Pos, end: Pos, isBase: bool): Outcome<Option<seq<FlightpathMove>>>
  {
    TagOutcome(orderNo, w.plan(start, end, isBase))
  }

  // ---------------------------------------------------------------------
  // getUniqueRestaurants

  function NamesOf(rs: seq<Restaurant>): set<string>
  {
    set r | r in rs :: r.name
  }

  predicate DistinctNames(rs: seq<Restaurant>)
  {
    forall i, j :: 0 <= i < j < |rs| ==> rs[i].name != rs[j].name
  }

  /** The inner loop: every restaurant of the list that sells the item and
      whose name has not been seen yet joins `acc`. */
  function AddSellers(acc: seq<Restaurant>, rs: seq<Restaurant>, item: string): seq<Restaurant>
    reads rs
  {
    if |rs| == 0 then acc
    else
      var before := AddSellers(acc, rs[..|rs| - 1], item);
      var r := rs[|rs| - 1];
      if item in r.menuMap && r.name !in NamesOf(before) then before + [r] else before
  }

  /** The restaurants to visit for the items: item by item, restaurant by
      restaurant, first seen by name first. */
  function UniqueRestaurants(rs: seq<Restaurant>, items: seq<string>): seq<Restaurant>
    reads rs
  {
    if |items| == 0 then []
    else AddSellers(UniqueRestaurants(rs, items[..|items| - 1]), rs, items[|items| - 1])
  }

  lemma NamesOfAppend(s: seq<Restaurant>, r: Restaurant)
    ensures NamesOf(s + [r]) == NamesOf(s) + {r.name}
  {
    assert forall x :: x in s + [r] <==> x in s || x == r;
  }

  /** What the inner loop keeps: `acc` is a prefix, names stay distinct,
      whatever joins sells the item, and every seller's name is present. */
  lemma {:induction false} AddSellersProperties(acc: seq<Restaurant>, rs: seq<Restaurant>, item: string)
    requires DistinctNames(acc)
    ensures var r := AddSellers(acc, rs, item);
            && |r| >= |acc| && r[..|acc|] == acc
            && DistinctNames(r)
            && (forall i :: |acc| <= i < |r| ==> r[i] in rs && item in r[i].menuMap)
            && (forall k :: 0 <= k < |rs| && item in rs[k].menuMap ==> rs[k].name in NamesOf(r))
            && NamesOf(acc) <= NamesOf(r)
  {
    if |rs| > 0 {
      var init := rs[..|rs| - 1];
      AddSellersProperties(acc, init, item);
      var before := AddSellers(acc, init, item);
      var last := rs[|rs| - 1];
      forall k | 0 <= k < |init|
        ensures init[k] == rs[k]
      {
      }
      if item in last.menuMap && last.name !in NamesOf(before) {
        var r := before + [last];
        NamesOfAppend(before, last);
        assert r[..|acc|] == before[..|acc|];
        forall i, j | 0 <= i < j < |r|
          ensures r[i].name != r[j].name
        {
          if j == |before| {
            assert r[i] == before[i] && before[i] in before;
          }
        }
      }
    }
  }

  /** getUniqueRestaurants: pairwise distinct names; every restaurant is on
      the menu list and sells an item of the order; every restaurant that
      sells one of the items is represented by its name. */
  lemma {:induction false} UniqueRestaurantsProperties(rs: seq<Restaurant>, items: seq<string>)
    ensures var u := UniqueRestaurants(rs, items);
            && DistinctNames(u)
            && (forall i :: 0 <= i < |u| ==> u[i] in rs && exists j :: 0 <= j < |items| && items[j] in u[i].menuMap)
            && (forall j, k :: 0 <= j < |items| && 0 <= k < |rs| && items[j] in rs[k].menuMap ==> rs[k].name in NamesOf(u))
  {
    if |items| > 0 {
      var init := items[..|items| - 1];
      var item := items[|items| - 1];
      UniqueRestaurantsProperties(rs, init);
      var before := UniqueRestaurants(rs, init);
      AddSellersProperties(before, rs, item);
      var u := UniqueRestaurants(rs, items);
      forall i | 0 <= i < |u|
        ensures u[i] in rs && exists j :: 0 <= j < |items| && items[j] in u[i].menuMap
      {
        if i < |before| {
          assert u[i] == before[i];
          var j :| 0 <= j < |init| && init[j] in before[i].menuMap;
          assert items[j] == init[j];
        } else {
          assert items[|items| - 1] in u[i].menuMap;
        }
      }
      forall j, k | 0 <= j < |items| && 0 <= k < |rs| && items[j] in rs[k].menuMap
        ensures rs[k].name in NamesOf(u)
      {
        if j < |init| {
          assert init[j] == items[j];
        }
      }
    }
  }

  /** No restaurant sells an item: nobody to visit. */
  lemma {:induction false} UnsoldItemsNoRestaurants(rs: seq<Restaurant>, items: seq<string>)
    requires forall i, j :: 0 <= i < |rs| && 0 <= j < |items| ==> items[j] !in rs[i].menuMap
    ensures UniqueRestaurants(rs, items) == []
  {
    if |items| > 0 {
      UnsoldItemsNoRestaurants(rs, items[..|items| - 1]);
      UnsoldItemNoSellers([], rs, items[|items| - 1]);
    }
  }

  lemma {:induction false} UnsoldItemNoSellers(acc: seq<Restaurant>, rs: seq<Restaurant>, item: string)
    requires forall i :: 0 <= i < |rs| ==> item !in rs[i].menuMap
    ensures AddSellers(acc, rs, item) == acc
  {
    if |rs| > 0 {
      UnsoldItemNoSellers(acc, rs[..|rs| - 1], item);
    }
  }

  /** Reference order of getUniqueRestaurants's nested loops: the
      restaurants of the list that sell the item, in list order. */
  function Selling(rs: seq<Restaurant>, item: string): seq<Restaurant>
    reads rs
  {
    if |rs| == 0 then []
    else Selling(rs[..|rs| - 1], item) + (if item in rs[|rs| - 1].menuMap then [rs[|rs| - 1]] else [])
  }

  /** Every seller the loops meet: item by item, each item's sellers in
      list order. */
  function SellerScan(rs: seq<Restaurant>, items: seq<string>): seq<Restaurant>
    reads rs
  {
    if |items| == 0 then [] else SellerScan(rs, items[..|items| - 1]) + Selling(rs, items[|items| - 1])
  }

  /** Reference deduplication: append to `acc` each restaurant of `s` whose
      name is not there yet. */
  function FirstOfEachName(acc: seq<Restaurant>, s: seq<Restaurant>): seq<Restaurant>
  {
    if |s| == 0 then acc
    else
      var before := FirstOfEachName(acc, s[..|s| - 1]);
      if s[|s| - 1].name in NamesOf(before) then before else before + [s[|s| - 1]]
  }

  /** The sellers of an item are exactly the restaurants of the list that
      sell it, at increasing list positions. */
  lemma {:induction false} SellingInListOrder(rs: seq<Restaurant>, item: string) returns (ks: seq<nat>)
    ensures var t := Selling(rs, item);
            && |ks| == |t|
            && (forall i :: 0 <= i < |t| ==> ks[i] < |rs| && t[i] == rs[ks[i]] && item in rs[ks[i]].menuMap)
            && (forall i, j :: 0 <= i < j < |t| ==> ks[i] < ks[j])
            && (forall k :: 0 <= k < |rs| && item in rs[k].menuMap ==> k in ks)
  {
    if |rs| == 0 {
      ks := [];
    } else {
      var init := rs[..|rs| - 1];
      ks := SellingInListOrder(init, item);
      if item in rs[|rs| - 1].menuMap {
        ks := ks + [|rs| - 1];
      }
    }
  }

  lemma {:induction false} AddSellersIsFirstOfEachName(acc: seq<Restaurant>, rs: seq<Restaurant>, item: string)
    ensures AddSellers(acc, rs, item) == FirstOfEachName(acc, Selling(rs, item))
  {
    if |rs| > 0 {
      var init := rs[..|rs| - 1];
      var r := rs[|rs| - 1];
      AddSellersIsFirstOfEachName(acc, init, item);
      var t := Selling(init, item);
      if item in r.menuMap {
        assert (t + [r])[..|t|] == t;
      } else {
        assert Selling(rs, item) == t;
      }
    }
  }

  lemma {:induction false} FirstOfEachNameAppend(acc: seq<Restaurant>, s: seq<Restaurant>, t: seq<Restaurant>)
    ensures FirstOfEachName(acc, s + t) == FirstOfEachName(FirstOfEachName(acc, s), t)
    decreases |t|
  {
    if |t| == 0 {
      assert s + t == s;
    } else {
      FirstOfEachNameAppend(acc, s, t[..|t| - 1]);
      assert (s + t)[..|s + t| - 1] == s + t[..|t| - 1];
    }
  }

  /** getUniqueRestaurants is the reference deduplication of the sellers
      in the order the loops meet them. */
  lemma {:induction false} UniqueRestaurantsIsFirstOfEachName(rs: seq<Restaurant>, items: seq<string>)
    ensures UniqueRestaurants(rs, items) == FirstOfEachName([], SellerScan(rs, items))
  {
    if |items| > 0 {
      var init := items[..|items| - 1];
      UniqueRestaurantsIsFirstOfEachName(rs, init);
      AddSellersIsFirstOfEachName(UniqueRestaurants(rs, init), rs, items[|items| - 1]);
      FirstOfEachNameAppend([], SellerScan(rs, init), Selling(rs, items[|items| - 1]));
    }
  }

  /** `d` lists, in increasing positions `idx` of `s`, entries of `s` each
      of whose names does not occur earlier in `s`. */
  predicate FirstSightings(s: seq<Restaurant>, d: seq<Restaurant>, idx: seq<nat>)
  {
    && |idx| == |d|
    && (forall i :: 0 <= i < |d| ==> idx[i] < |s| && d[i] == s[idx[i]])
    && (forall i, k :: 0 <= i < |d| && 0 <= k < idx[i] ==> s[k].name != d[i].name)
    && (forall i, j :: 0 <= i < j < |d| ==> idx[i] < idx[j])
  }

  /** The deduplication loses no name. */
  lemma {:induction false} FirstOfEachNameKeepsNames(s: seq<Restaurant>)
    ensures forall k :: 0 <= k < |s| ==> s[k].name in NamesOf(FirstOfEachName([], s))
  {
    if |s| > 0 {
      var init := s[..|s| - 1];
      var before := FirstOfEachName([], init);
      FirstOfEachNameKeepsNames(init);
      assert forall k :: 0 <= k < |init| ==> s[k] == init[k];
      if s[|s| - 1].name !in NamesOf(before) {
        NamesOfAppend(before, s[|s| - 1]);
      }
    }
  }

  /** The deduplication keeps the first restaurant met with each name, in
      the order they were first met. */
  lemma {:induction false} FirstOfEachNameOrder(s: seq<Restaurant>) returns (idx: seq<nat>)
    ensures FirstSightings(s, FirstOfEachName([], s), idx)
  {
    if |s| == 0 {
      idx := [];
    } else {
      var init := s[..|s| - 1];
      var last := s[|s| - 1];
      var prev := FirstOfEachNameOrder(init);
      var before := FirstOfEachName([], init);
      var d := FirstOfEachName([], s);
      assert forall k :: 0 <= k < |init| ==> s[k] == init[k];
      if last.name in NamesOf(before) {
        idx := prev;
      } else {
        assert d == before + [last];
        idx := prev + [|s| - 1];
        FirstOfEachNameKeepsNames(init);
        forall i, k | 0 <= i < |d| && 0 <= k < idx[i]
          ensures s[k].name != d[i].name
        {
          if i == |before| {
            assert init[k].name in NamesOf(before);
          }
        }
      }
    }
  }

  /** getUniqueRestaurants keeps, of each name, the first restaurant the
      loops meet (items in order, then the menu list in order), and lists
      them in the order they were first met. */
  lemma UniqueRestaurantsInScanOrder(rs: seq<Restaurant>, items: seq<string>) returns (idx: seq<nat>)
    ensures var s := SellerScan(rs, items);
            var u := UniqueRestaurants(rs, items);
            && |idx| == |u|
            && (forall i :: 0 <= i < |u| ==> idx[i] < |s| && u[i] == s[idx[i]])
            && (forall i, k :: 0 <= i < |u| && 0 <= k < idx[i] ==> s[k].name != u[i].name)
            && (forall i, j :: 0 <= i < j < |u| ==> idx[i] < idx[j])
            && (forall k :: 0 <= k < |s| ==> s[k].name in NamesOf(u))
  {
    UniqueRestaurantsIsFirstOfEachName(rs, items);
    idx := FirstOfEachNameOrder(SellerScan(rs, items));
    FirstOfEachNameKeepsNames(SellerScan(rs, items));
  }

  // ---------------------------------------------------------------------
  // sortRestaurants

  /** sortRestaurants: one restaurant is returned as it is, three or more
      give null, none throws at get(0), and two are put nearest first,
      keeping their order on a tie. */
  function SortRestaurants(w: World, restaurants: seq<Restaurant>, startingLocation: Pos): (r: Outcome<Option<seq<Restaurant>>>)
    ensures |restaurants| == 0 <==> r == Threw(IndexOutOfBounds)
    ensures |restaurants| == 1 ==> r == Returned(Some(restaurants))
    ensures |restaurants| >= 3 <==> r == Returned(None)
    ensures |restaurants| == 2 ==>
              && r.Returned? && r.value.Some?
              && |r.value.value| == 2 && multiset(r.value.value) == multiset(restaurants)
              && Distance(w.math, startingLocation, w.locate(r.value.value[0].location))
                 <= Distance(w.math, startingLocation, w.locate(r.value.value[1].location))
              && (Distance(w.math, startingLocation, w.locate(restaurants[0].location))
                  <= Distance(w.math, startingLocation, w.locate(restaurants[1].location))
                  ==> r.value.value == restaurants)
  {
    if |restaurants| == 1 then Returned(Some(restaurants))
    else if |restaurants| >= 3 then Returned(None)
    else if |restaurants| == 0 then Threw(IndexOutOfBounds)
    else
      var firstDistance := Distance(w.math, startingLocation, w.locate(restaurants[0].location));
      var secondDistance := Distance(w.math, startingLocation, w.locate(restaurants[1].location));
      assert restaurants == [restaurants[0], restaurants[1]];
      if firstDistance <= secondDistance then Returned(Some([restaurants[0], restaurants[1]]))
      else Returned(Some([restaurants[1], restaurants[0]]))
  }

  // ---------------------------------------------------------------------
  // One order: getRestaurantPath, getMovesLeft, updateFlightpath,
  // singleOrderRoute

  /** getRestaurantPath from the loop's state: visit the remaining
      restaurants in turn, each leg starting where the path so far ends. */
  function RestaurantPath(w: World, orderNo: string, start: Pos, restaurants: seq<Restaurant>, path: seq<FlightpathMove>)
    : Outcome<Option<seq<FlightpathMove>>>
    decreases |restaurants|
  {
    if |restaurants| == 0 then Returned(Some(path))
    else
      match TravelMoves(w, orderNo, start, w.locate(restaurants[0].location), false)
      case Returned(Some(leg)) =>
        var next := path + leg;
        if |next| == 0 then Threw(IndexOutOfBounds)
        else RestaurantPath(w, orderNo, next[|next| - 1].nextPosition, restaurants[1..], next)
      case Returned(None) => Returned(None)
      case Threw(f) => Threw(f)
  }

  /** getMovesLeft: the budget left after the route and the way back to
      Appleton Tower from where the drop-off ends. */
  function MovesLeft(w: World, maxMoves: int, orderNo: string, dropOff: seq<FlightpathMove>, routeMoves: int): Outcome<int>
  {
    if |dropOff| == 0 then Threw(IndexOutOfBounds)
    else
      match TravelMoves(w, orderNo, dropOff[|dropOff| - 1].nextPosition, APPLETON_TOWER, true)
      case Returned(None) => Returned(INT_MIN_VALUE)
      case Returned(Some(pathToAppletonTower)) => Returned(maxMoves - routeMoves - |pathToAppletonTower|)
      case Threw(f) => Threw(f)
  }

  /** updateFlightpath: append the pick-up and then the drop-off moves,
      charge them to the budget, and carry on. */
  function Committed(st: DroneState, pickUp: seq<FlightpathMove>, dropOff: seq<FlightpathMove>): DroneState
  {
    st.(flightpath := st.flightpath + pickUp + dropOff,
        maxMoves := st.maxMoves - (|pickUp| + |dropOff|),
        continueIterations := true)
  }

  /** singleOrderRoute: the new state and the answer. More than two
      restaurants are refused; otherwise the pick-up path is planned. */
  function OrderRoute(w: World, st: DroneState, startingPoint: Pos, order: Order, restaurants: seq<Restaurant>)
    : Outcome<(DroneState, bool)>
  {
    if |restaurants| > MAXIMUM_NUMBER_OF_RESTAURANTS then Returned((st, false))
    else PickedUp(w, st, order, RestaurantPath(w, order.orderNo, startingPoint, restaurants, []))
  }

  /** singleOrderRoute once the pick-up path is known: a null path refuses
      the order, an empty one throws at get, otherwise the drop-off leg is
      planned from where it ends. */
  function PickedUp(w: World, st: DroneState, order: Order, path: Outcome<Option<seq<FlightpathMove>>>)
    : Outcome<(DroneState, bool)>
  {
    match path
    case Threw(f) => Threw(f)
    case Returned(None) => Returned((st, false))
    case Returned(Some(pickUp)) =>
      if |pickUp| == 0 then Threw(IndexOutOfBounds)
      else
        var currentPosition := pickUp[|pickUp| - 1].nextPosition;
        var userLocation := w.locate(order.deliverTo);
        DroppedOff(w, st, order, pickUp, TravelMoves(w, order.orderNo, currentPosition, userLocation, false))
  }

  /** singleOrderRoute once the drop-off leg is known: a null leg refuses
      the order, otherwise the budget left decides. */
  function DroppedOff(w: World, st: DroneState, order: Order, pickUp: seq<FlightpathMove>,
                      drop: Outcome<Option<seq<FlightpathMove>>>): Outcome<(DroneState, bool)>
  {
    match drop
    case Threw(f) => Threw(f)
    case Returned(None) => Returned((st, false))
    case Returned(Some(dropOff)) =>
      var routeMoves := |pickUp| + |dropOff|;
      Settled(st, pickUp, dropOff, MovesLeft(w, st.maxMoves, order.orderNo, dropOff, routeMoves))
  }

  /** singleOrderRoute's last step: with moves to spare the route is
      committed. Otherwise the flight path and the budget stay as they were
      and continueIterations is cleared, so this order is not recorded;
      later orders are still tried. Either way the answer is true. */
  function Settled(st: DroneState, pickUp: seq<FlightpathMove>, dropOff: seq<FlightpathMove>, left: Outcome<int>)
    : Outcome<(DroneState, bool)>
  {
    match left
    case Threw(f) => Threw(f)
    case Returned(movesLeft) =>
      if movesLeft >= 0 then Returned((Committed(st, pickUp, dropOff), true))
      else Returned((st.(continueIterations := false), true))
  }

  // ---------------------------------------------------------------------
  // greedyOrdersInADay

  /** One iteration of the day's loop: the new state and the new
      `previous` position. Orders that cost nothing and orders with more
      than two restaurants are skipped. */
  function OrderStep(w: World, rs: seq<Restaurant>, st: DroneState, previous: Pos, order: Order)
    : Outcome<(DroneState, Pos)>
    reads rs
  {
    if DeliveryCost(rs, order.items) == 0 then Returned((st, previous))
    else
      match SortRestaurants(w, UniqueRestaurants(rs, order.items), previous)
      case Threw(f) => Threw(f)
      case Returned(None) => Returned((st, previous))
      case Returned(Some(restaurantsNearest)) =>
        Recorded(st, previous, order, OrderRoute(w, st, previous, order, restaurantsNearest))
  }

  /** The end of an iteration: a delivered order is added to the day's
      orders and the next one starts where the flightpath ends. */
  function Recorded(st: DroneState, previous: Pos, order: Order, routed: Outcome<(DroneState, bool)>)
    : Outcome<(DroneState, Pos)>
  {
    match routed
    case Threw(f) => Threw(f)
    case Returned((next, delivered)) =>
      if delivered && next.continueIterations then
        var fp := next.flightpath;
        if |fp| == 0 then Threw(IndexOutOfBounds)
        else Returned((next.(deliveredOrdersInADay := next.deliveredOrdersInADay + [order]), fp[|fp| - 1].nextPosition))
      else Returned((next, previous))
  }

  /** The day's loop from the given state over the remaining orders. */
  function DayLoop(w: World, rs: seq<Restaurant>, st: DroneState, previous: Pos, orders: seq<Order>)
    : Outcome<(DroneState, Pos)>
    reads rs
    decreases |orders|
  {
    if |orders| == 0 then Returned((st, previous))
    else
      var step := OrderStep(w, rs, st, previous, orders[0]);
      if step.Threw? then Threw(step.fault)
      else DayLoop(w, rs, step.value.0, step.value.1, orders[1..])
  }

  /** The orders with their prices. */
  function Priced(rs: seq<Restaurant>, orders: seq<Order>): (r: seq<(int, Order)>)
    reads rs
    ensures |r| == |orders|
    ensures forall i :: 0 <= i < |orders| ==> r[i] == (DeliveryCost(rs, orders[i].items), orders[i])
  {
    if |orders| == 0 then []
    else
      var last := orders[|orders| - 1];
      Priced(rs, orders[..|orders| - 1]) + [(DeliveryCost(rs, last.items), last)]
  }

  function OrdersOf(s: seq<(int, Order)>): (r: seq<Order>)
    ensures |r| == |s|
    ensures forall i :: 0 <= i < |s| ==> r[i] == s[i].1
  {
    if |s| == 0 then [] else OrdersOf(s[..|s| - 1]) + [s[|s| - 1].1]
  }

  /** orders.sort(Collections.reverseOrder()): a stable sort by descending
      price. */
  function SortedByCost(rs: seq<Restaurant>, orders: seq<Order>): seq<Order>
    reads rs
  {
    OrdersOf(SortByCostDescending(Priced(rs, orders)))
  }

  /** greedyOrdersInADay: the day's loop from Appleton Tower, then the way
      back from the end of the flightpath, labelled with the last order's
      number. An empty order list or an empty flightpath throws at get,
      and a null way back throws in addAll. */
  function GreedyDay(w: World, rs: seq<Restaurant>, st: DroneState, orders: seq<Order>): Outcome<DroneState>
    reads rs
  {
    FlownDay(w, rs, st, SortedByCost(rs, orders))
  }

  /** The day over orders already sorted by cost. */
  function FlownDay(w: World, rs: seq<Restaurant>, st: DroneState, sorted: seq<Order>): Outcome<DroneState>
    reads rs
  {
    DayEnd(w, sorted, DayLoop(w, rs, st, APPLETON_TOWER, sorted))
  }

  /** greedyOrdersInADay after the loop: the way back. */
  function DayEnd(w: World, sorted: seq<Order>, day: Outcome<(DroneState, Pos)>): Outcome<DroneState>
  {
    match day
    case Threw(f) => Threw(f)
    case Returned((end, _)) =>
      if |sorted| == 0 || |end.flightpath| == 0 then Threw(IndexOutOfBounds)
      else
        var fp := end.flightpath;
        match TravelMoves(w, sorted[|sorted| - 1].orderNo, fp[|fp| - 1].nextPosition, APPLETON_TOWER, true)
        case Returned(Some(back)) => Returned(end.(flightpath := fp + back))
        case Returned(None) => Threw(NullPointer)
        case Threw(f) => Threw(f)
  }

  // ---------------------------------------------------------------------
  // What the schedule guarantees

  /** The day's orders are all visited, each exactly as often as it was
      given. */
  lemma SortedByCostPermutes(rs: seq<Restaurant>, orders: seq<Order>)
    ensures multiset(SortedByCost(rs, orders)) == multiset(orders)
  {
    var p := Priced(rs, orders);
    assert OrdersOf(p) == orders;
    MultisetOfOrders(SortByCostDescending(p), p);
  }

  /** Sorting keeps every order's menu, so a day whose orders are all
      priced by one menu is still priced by it after sorting. */
  lemma SortedKeepsMenus(rs: seq<Restaurant>, orders: seq<Order>, menu: Menus)
    requires forall i :: 0 <= i < |orders| ==> orders[i].menu == menu
    ensures var s := SortedByCost(rs, orders);
            forall i :: 0 <= i < |s| ==> s[i].menu == menu
  {
    var s := SortedByCost(rs, orders);
    SortedByCostPermutes(rs, orders);
    forall i | 0 <= i < |s|
      ensures s[i].menu == menu
    {
      assert s[i] in multiset(orders);
    }
  }

  /** The day's orders are visited by descending price. */
  lemma SortedByCostDescends(rs: seq<Restaurant>, orders: seq<Order>)
    ensures var s := SortedByCost(rs, orders);
            forall i, j :: 0 <= i < j < |s| ==> DeliveryCost(rs, s[i].items) >= DeliveryCost(rs, s[j].items)
  {
    var p := Priced(rs, orders);
    var q := SortByCostDescending(p);
    var s := OrdersOf(q);
    forall i | 0 <= i < |q|
      ensures q[i].0 == DeliveryCost(rs, q[i].1.items)
    {
      assert q[i] in multiset(p);
    }
  }

  /** The orders of a given price, in the order they appear. */
  function OfCost(rs: seq<Restaurant>, orders: seq<Order>, c: int): seq<Order>
    reads rs
  {
    if |orders| == 0 then []
    else (if DeliveryCost(rs, orders[0].items) == c then [orders[0]] else []) + OfCost(rs, orders[1..], c)
  }

  lemma {:induction false} OrdersOfWithCost(rs: seq<Restaurant>, p: seq<(int, Order)>, c: int)
    requires forall i :: 0 <= i < |p| ==> p[i].0 == DeliveryCost(rs, p[i].1.items)
    ensures OrdersOf(WithCost(p, c)) == OfCost(rs, OrdersOf(p), c)
  {
    if |p| > 0 {
      OrdersOfWithCost(rs, p[1..], c);
      var head := if p[0].0 == c then [p[0]] else [];
      OrdersOfAppend(head, WithCost(p[1..], c));
      assert OrdersOf(p)[1..] == OrdersOf(p[1..]);
      assert OrdersOf(head) == if p[0].0 == c then [p[0].1] else [];
    }
  }

  /** Orders of equal price keep their input order: List.sort is stable. */
  lemma SortedByCostIsStable(rs: seq<Restaurant>, orders: seq<Order>, c: int)
    ensures OfCost(rs, SortedByCost(rs, orders), c) == OfCost(rs, orders, c)
  {
    var p := Priced(rs, orders);
    var q := SortByCostDescending(p);
    forall i | 0 <= i < |q|
      ensures q[i].0 == DeliveryCost(rs, q[i].1.items)
    {
      assert q[i] in multiset(p);
    }
    OrdersOfWithCost(rs, q, c);
    SortByCostIsStable(p, c);
    OrdersOfWithCost(rs, p, c);
    assert OrdersOf(p) == orders;
  }

  lemma OrdersOfAppend(s: seq<(int, Order)>, t: seq<(int, Order)>)
    ensures OrdersOf(s + t) == OrdersOf(s) + OrdersOf(t)
  {
    var l := OrdersOf(s + t);
    var r := OrdersOf(s) + OrdersOf(t);
    forall i | 0 <= i < |l|
      ensures l[i] == r[i]
    {
      if i >= |s| {
        assert (s + t)[i] == t[i - |s|];
      }
    }
  }

  /** Taking the last element off one of two permutations of each other,
      and the same element off the other, leaves permutations. */
  lemma RemoveLast<T>(s: seq<T>, t: seq<T>, j: nat)
    requires multiset(s) == multiset(t) && |s| > 0 && j < |t| && t[j] == s[|s| - 1]
    ensures multiset(s[..|s| - 1]) == multiset(t[..j] + t[j + 1..])
  {
    var n := |s| - 1;
    var x := s[n];
    assert s == s[..n] + [x];
    assert t == t[..j] + [x] + t[j + 1..];
    assert multiset(s) == multiset(s[..n]) + multiset{x};
    assert multiset(t) == multiset(t[..j]) + multiset{x} + multiset(t[j + 1..]);
    var rest := t[..j] + t[j + 1..];
    assert multiset(rest) == multiset(t[..j]) + multiset(t[j + 1..]);
    forall y
      ensures multiset(s[..n])[y] == multiset(rest)[y]
    {
      assert multiset(s)[y] == multiset(t)[y];
    }
  }

  /** Permuting the priced entries permutes their orders. */
  lemma {:induction false} MultisetOfOrders(q: seq<(int, Order)>, p: seq<(int, Order)>)
    requires multiset(q) == multiset(p)
    ensures multiset(OrdersOf(q)) == multiset(OrdersOf(p))
  {
    if |q| > 0 {
      var n := |q| - 1;
      var x := q[n];
      assert q == q[..n] + [x];
      assert x in multiset(p);
      var j :| 0 <= j < |p| && p[j] == x;
      var rest := p[..j] + p[j + 1..];
      assert p == p[..j] + [x] + p[j + 1..];
      RemoveLast(q, p, j);
      MultisetOfOrders(q[..n], rest);
      OrdersOfAppend(q[..n], [x]);
      OrdersOfAppend(p[..j], [x]);
      OrdersOfAppend(p[..j] + [x], p[j + 1..]);
      OrdersOfAppend(p[..j], p[j + 1..]);
    }
  }

  /** A cost-0 order and an order whose restaurant ranking is null are
      skipped: state and position are untouched. */
  lemma SkippedOrders(w: World, rs: seq<Restaurant>, st: DroneState, previous: Pos, order: Order)
    requires DeliveryCost(rs, order.items) == 0
             || SortRestaurants(w, UniqueRestaurants(rs, order.items), previous) == Returned(None)
    ensures OrderStep(w, rs, st, previous, order) == Returned((st, previous))
  {
  }
  /** The invariant greedyOrdersInADay keeps through the day: once the drone
      has flown, the way back to Appleton Tower from where it stands exists
      and fits in the moves it has left. */
  predicate ReturnFits(w: World, st: DroneState)
  {
    |st.flightpath| == 0 ||
    var t := w.plan(st.flightpath[|st.flightpath| - 1].nextPosition, APPLETON_TOWER, true);
    t.Returned? && t.value.Some? && |t.value.value| <= st.maxMoves
  }

  /** The flightpath so far is kept and its length plus the budget left is
      the same before and after. */
  predicate Extends(st: DroneState, next: DroneState)
  {
    && |next.flightpath| >= |st.flightpath|
    && next.flightpath[..|st.flightpath|] == st.flightpath
    && |next.flightpath| + next.maxMoves == |st.flightpath| + st.maxMoves
  }

  /** What singleOrderRoute guarantees when it returns: either it
      commits the whole route, pick-ups then drop-off, with the way back
      still fitting, and answers true with the day going on; or it leaves
      the flightpath and the budget as they were. */
  predicate RouteKeepsReturn(w: World, st: DroneState, o: Outcome<(DroneState, bool)>)
  {
    o.Returned? ==>
      var next := o.value.0;
      && ReturnFits(w, next) && Extends(st, next)
      && next.deliveredOrdersInADay == st.deliveredOrdersInADay
      && (if o.value.1 && next.continueIterations then |next.flightpath| > |st.flightpath|
          else next.flightpath == st.flightpath && next.maxMoves == st.maxMoves)
  }

  /** updateFlightpath after getMovesLeft found a non-negative balance:
      the way back from the drop-off fits in the new budget. */
  lemma CommitKeepsReturn(w: World, st: DroneState, orderNo: string, pickUp: seq<FlightpathMove>, dropOff: seq<FlightpathMove>)
    requires var left := MovesLeft(w, st.maxMoves, orderNo, dropOff, |pickUp| + |dropOff|);
             left.Returned? && left.value >= 0
    ensures var next := Committed(st, pickUp, dropOff);
            ReturnFits(w, next) && Extends(st, next) && |next.flightpath| > |st.flightpath|
  {
    var next := Committed(st, pickUp, dropOff);
    var endPos := dropOff[|dropOff| - 1].nextPosition;
    var t := w.plan(endPos, APPLETON_TOWER, true);
    assert t.Returned? && t.value.Some?;
    assert next.flightpath == st.flightpath + (pickUp + dropOff);
    assert next.flightpath[|next.flightpath| - 1] == dropOff[|dropOff| - 1];
    assert next.flightpath[..|st.flightpath|] == st.flightpath;
  }

  lemma SettledKeepsReturn(w: World, st: DroneState, orderNo: string, pickUp: seq<FlightpathMove>, dropOff: seq<FlightpathMove>)
    requires ReturnFits(w, st)
    ensures RouteKeepsReturn(w, st, Settled(st, pickUp, dropOff, MovesLeft(w, st.maxMoves, orderNo, dropOff, |pickUp| + |dropOff|)))
  {
    var left := MovesLeft(w, st.maxMoves, orderNo, dropOff, |pickUp| + |dropOff|);
    if left.Returned? && left.value >= 0 {
      CommitKeepsReturn(w, st, orderNo, pickUp, dropOff);
    }
  }

  lemma DroppedOffKeepsReturn(w: World, st: DroneState, order: Order, pickUp: seq<FlightpathMove>,
                              drop: Outcome<Option<seq<FlightpathMove>>>)
    requires ReturnFits(w, st)
    ensures RouteKeepsReturn(w, st, DroppedOff(w, st, order, pickUp, drop))
  {
    if drop.Returned? && drop.value.Some? {
      SettledKeepsReturn(w, st, order.orderNo, pickUp, drop.value.value);
    }
  }

  lemma PickedUpKeepsReturn(w: World, st: DroneState, order: Order, path: Outcome<Option<seq<FlightpathMove>>>)
    requires ReturnFits(w, st)
    ensures RouteKeepsReturn(w, st, PickedUp(w, st, order, path))
  {
    if path.Returned? && path.value.Some? && |path.value.value| > 0 {
      var pickUp := path.value.value;
      DroppedOffKeepsReturn(w, st, order, pickUp,
        TravelMoves(w, order.orderNo, pickUp[|pickUp| - 1].nextPosition, w.locate(order.deliverTo), false));
    }
  }

  /** singleOrderRoute keeps the way back within the budget. */
  lemma OrderRouteKeepsReturn(w: World, st: DroneState, start: Pos, order: Order, restaurants: seq<Restaurant>)
    requires ReturnFits(w, st)
    ensures RouteKeepsReturn(w, st, OrderRoute(w, st, start, order, restaurants))
  {
    if |restaurants| <= MAXIMUM_NUMBER_OF_RESTAURANTS {
      PickedUpKeepsReturn(w, st, order, RestaurantPath(w, order.orderNo, start, restaurants, []));
    }
  }

  /** What an iteration of the day guarantees when it returns: either the
      order is delivered (it is added to the delivered orders, the
      flightpath grows and the next order starts where it ends), or
      nothing but continueIterations changes; in both cases the way back
      keeps fitting. */
  predicate StepKeepsReturn(w: World, st: DroneState, previous: Pos, order: Order, o: Outcome<(DroneState, Pos)>)
  {
    o.Returned? ==>
      var next := o.value.0;
      && ReturnFits(w, next) && Extends(st, next)
      && ((&& next.deliveredOrdersInADay == st.deliveredOrdersInADay + [order]
           && |next.flightpath| > |st.flightpath|
           && o.value.1 == next.flightpath[|next.flightpath| - 1].nextPosition)
          || (&& next.deliveredOrdersInADay == st.deliveredOrdersInADay
              && next.flightpath == st.flightpath
              && next.maxMoves == st.maxMoves
              && o.value.1 == previous))
  }

  lemma RecordedKeepsReturn(w: World, st: DroneState, previous: Pos, order: Order, routed: Outcome<(DroneState, bool)>)
    requires ReturnFits(w, st) && RouteKeepsReturn(w, st, routed)
    ensures StepKeepsReturn(w, st, previous, order, Recorded(st, previous, order, routed))
  {
  }

  /** One order of the day keeps the way back within the budget, and an
      order is delivered only if it pays. */
  lemma OrderStepOutcome(w: World, rs: seq<Restaurant>, st: DroneState, previous: Pos, order: Order)
    requires ReturnFits(w, st)
    ensures StepKeepsReturn(w, st, previous, order, OrderStep(w, rs, st, previous, order))
    ensures var o := OrderStep(w, rs, st, previous, order);
            o.Returned? && |o.value.0.deliveredOrdersInADay| > |st.deliveredOrdersInADay| ==> DeliveryCost(rs, order.items) != 0
  {
    if DeliveryCost(rs, order.items) != 0 {
      var sorted := SortRestaurants(w, UniqueRestaurants(rs, order.items), previous);
      if sorted.Returned? && sorted.value.Some? {
        OrderRouteKeepsReturn(w, st, previous, order, sorted.value.value);
        RecordedKeepsReturn(w, st, previous, order, OrderRoute(w, st, previous, order, sorted.value.value));
      }
    }
  }

  /** The day's loop: the delivered orders grow by orders of the list that
      pay, the flightpath only grows, and the way back keeps fitting. */
  lemma {:induction false} DayLoopOutcome(w: World, rs: seq<Restaurant>, st: DroneState, previous: Pos, orders: seq<Order>)
    requires ReturnFits(w, st)
    ensures var o := DayLoop(w, rs, st, previous, orders);
            o.Returned? ==>
              var end := o.value.0;
              && ReturnFits(w, end) && Extends(st, end)
              && |end.deliveredOrdersInADay| >= |st.deliveredOrdersInADay|
              && end.deliveredOrdersInADay[..|st.deliveredOrdersInADay|] == st.deliveredOrdersInADay
              && (forall k :: |st.deliveredOrdersInADay| <= k < |end.deliveredOrdersInADay| ==>
                    end.deliveredOrdersInADay[k] in orders
                    && DeliveryCost(rs, end.deliveredOrdersInADay[k].items) != 0)
    decreases |orders|
  {
    var o := DayLoop(w, rs, st, previous, orders);
    if |orders| > 0 && o.Returned? {
      OrderStepOutcome(w, rs, st, previous, orders[0]);
      var step := OrderStep(w, rs, st, previous, orders[0]);
      var mid := step.value.0;
      DayLoopOutcome(w, rs, mid, step.value.1, orders[1..]);
      var end := o.value.0;
      var d0, d1, d2 := st.deliveredOrdersInADay, mid.deliveredOrdersInADay, end.deliveredOrdersInADay;
      assert d2[..|d1|] == d1;
      assert d2[..|d0|] == d1[..|d0|];
      assert end.flightpath[..|st.flightpath|] == end.flightpath[..|mid.flightpath|][..|st.flightpath|];
      forall k | |d0| <= k < |d2|
        ensures d2[k] in orders && DeliveryCost(rs, d2[k].items) != 0
      {
        if k < |d1| {
          assert d2[k] == d1[k] == orders[0];
        } else {
          assert d2[k] in orders[1..];
        }
      }
    }
  }

  /** The planner's routes back to Appleton Tower end close to it. */
  ghost predicate Arrives(w: World)
  {
    forall start :: var t := w.plan(start, APPLETON_TOWER, true);
      t.Returned? && t.value.Some? ==> CloseTo(w.math, EndOf(start, t.value.value), APPLETON_TOWER)
  }

  /** A world that plans as Routing.Travel does is such a planner. */
  lemma TravelArrives(w: World, a: Area)
    requires PlansLike(w, a) && w.math == a.math
    ensures Arrives(w)
  {
    forall start | var t := w.plan(start, APPLETON_TOWER, true); t.Returned? && t.value.Some?
      ensures CloseTo(w.math, EndOf(start, w.plan(start, APPLETON_TOWER, true).value.value), APPLETON_TOWER)
    {
      assert w.plan(start, APPLETON_TOWER, true) == Travel(a, start, APPLETON_TOWER, true);
      TravelChainsToTarget(a, start, APPLETON_TOWER, true);
    }
  }

  /** The way back at the end of the day: appended to the flightpath, it
      fits in the budget left and ends close to Appleton Tower. */
  lemma DayEndReturns(w: World, sorted: seq<Order>, day: Outcome<(DroneState, Pos)>)
    requires Arrives(w)
    requires day.Returned? ==> ReturnFits(w, day.value.0)
    ensures var o := DayEnd(w, sorted, day);
            o.Returned? ==>
              var end := day.value.0;
              var fp := o.value.flightpath;
              && 0 < |end.flightpath| <= |fp| <= |end.flightpath| + end.maxMoves
              && fp[..|end.flightpath|] == end.flightpath
              && CloseTo(w.math, fp[|fp| - 1].nextPosition, APPLETON_TOWER)
              && o.value.deliveredOrdersInADay == end.deliveredOrdersInADay
  {
    var o := DayEnd(w, sorted, day);
    if o.Returned? {
      var end := day.value.0;
      var fp := end.flightpath;
      var start := fp[|fp| - 1].nextPosition;
      var steps := w.plan(start, APPLETON_TOWER, true).value.value;
      assert CloseTo(w.math, EndOf(start, steps), APPLETON_TOWER);
      var back := Tag(sorted[|sorted| - 1].orderNo, steps);
      assert o.value.flightpath == fp + back;
      assert (fp + back)[..|fp|] == fp;
    }
  }

    /** The day over orders already sorted by cost ends close to Appleton
      Tower within the budget, having delivered only sorted orders that cost
      something. */
  lemma FlownDayWithinBudget(w: World, rs: seq<Restaurant>, st: DroneState, sorted: seq<Order>)
    requires ReturnFits(w, st) && Arrives(w)
    ensures var o := FlownDay(w, rs, st, sorted);
            o.Returned? ==>
              var fp := o.value.flightpath;
              && 0 < |fp| && |st.flightpath| <= |fp| <= |st.flightpath| + st.maxMoves
              && fp[..|st.flightpath|] == st.flightpath
              && CloseTo(w.math, fp[|fp| - 1].nextPosition, APPLETON_TOWER)
              && (forall k :: |st.deliveredOrdersInADay| <= k < |o.value.deliveredOrdersInADay| ==>
                    o.value.deliveredOrdersInADay[k] in sorted
                    && DeliveryCost(rs, o.value.deliveredOrdersInADay[k].items) != 0)
  {
    var day := DayLoop(w, rs, st, APPLETON_TOWER, sorted);
    var o := FlownDay(w, rs, st, sorted);
    DayLoopOutcome(w, rs, st, APPLETON_TOWER, sorted);
    DayEndReturns(w, sorted, day);
    if o.Returned? {
      var end := day.value.0;
      var fp := o.value.flightpath;
      assert fp[..|st.flightpath|] == fp[..|end.flightpath|][..|st.flightpath|];
    }
  }

  /** greedyOrdersInADay's promise: the flightpath only grows, by at most
      the moves left, ends close to Appleton Tower, and every order it
      delivers is one of the day's orders that costs something. */
  lemma GreedyDayWithinBudget(w: World, rs: seq<Restaurant>, st: DroneState, orders: seq<Order>)
    requires ReturnFits(w, st) && Arrives(w)
    ensures var o := GreedyDay(w, rs, st, orders);
            o.Returned? ==>
              var fp := o.value.flightpath;
              && 0 < |fp| && |st.flightpath| <= |fp| <= |st.flightpath| + st.maxMoves
              && fp[..|st.flightpath|] == st.flightpath
              && CloseTo(w.math, fp[|fp| - 1].nextPosition, APPLETON_TOWER)
              && (forall k :: |st.deliveredOrdersInADay| <= k < |o.value.deliveredOrdersInADay| ==>
                    o.value.deliveredOrdersInADay[k] in orders
                    && DeliveryCost(rs, o.value.deliveredOrdersInADay[k].items) != 0)
  {
    var sorted := SortedByCost(rs, orders);
    var o := FlownDay(w, rs, st, sorted);
    FlownDayWithinBudget(w, rs, st, sorted);
    if o.Returned? {
      SortedByCostPermutes(rs, orders);
      forall k | |st.deliveredOrdersInADay| <= k < |o.value.deliveredOrdersInADay|
        ensures o.value.deliveredOrdersInADay[k] in orders
      {
        assert o.value.deliveredOrdersInADay[k] in multiset(sorted);
      }
    }
  }

  /** A drone that starts the day fresh flies at most 1500 moves and ends
      close to Appleton Tower. */
  lemma FreshDayWithinBudget(a: Area, rs: seq<Restaurant>, orders: seq<Order>)
    ensures var o := GreedyDay(WorldOf(a), rs, DroneState(MAX_NUMBER_OF_MOVES, true, [], []), orders);
            o.Returned? ==>
              && 0 < |o.value.flightpath| <= MAX_NUMBER_OF_MOVES
              && CloseTo(a.math, o.value.flightpath[|o.value.flightpath| - 1].nextPosition, APPLETON_TOWER)
  {
    WorldOfPlansLike(a);
    TravelArrives(WorldOf(a), a);
    GreedyDayWithinBudget(WorldOf(a), rs, DroneState(MAX_NUMBER_OF_MOVES, true, [], []), orders);
  }

  /** An order of one to four items none of which any restaurant sells
      costs the delivery charge, so it is not skipped; no restaurant is
      found for it and sortRestaurants throws at get(0), which ends the
      whole day. */
  lemma UnsoldOrderStopsTheDay(w: World, rs: seq<Restaurant>, st: DroneState, previous: Pos, order: Order)
    requires MINIMUM_ORDER_ITEM_NUMBER <= |order.items| <= MAXIMUM_ORDER_ITEM_NUMBER
    requires forall i, j :: 0 <= i < |rs| && 0 <= j < |order.items| ==> order.items[j] !in rs[i].menuMap
    ensures OrderStep(w, rs, st, previous, order) == Threw(IndexOutOfBounds)
  {
    UnsoldOrderCostsDeliveryCharge(rs, order.items);
    UnsoldItemsNoRestaurants(rs, order.items);
  }
  // ---------------------------------------------------------------------
  // getAllMovesSingle and monetaryValue

  /** The positions the drone passes through: Appleton Tower, then where
      each move ends. */
  function VisitedPositions(flightpath: seq<FlightpathMove>): (r: seq<Pos>)
    ensures |r| == |flightpath| + 1 && r[0] == APPLETON_TOWER
    ensures forall i :: 0 <= i < |flightpath| ==> r[i + 1] == flightpath[i].nextPosition
  {
    if |flightpath| == 0 then [APPLETON_TOWER]
    else VisitedPositions(flightpath[..|flightpath| - 1]) + [flightpath[|flightpath| - 1].nextPosition]
  }

  /** The total price of the orders, delivery charges included. */
  function TotalValue(rs: seq<Restaurant>, orders: seq<Order>): int
    reads rs
  {
    if |orders| == 0 then 0
    else TotalValue(rs, orders[..|orders| - 1]) + DeliveryCost(rs, orders[|orders| - 1].items)
  }

  lemma {:induction false} TotalValueAppend(rs: seq<Restaurant>, s: seq<Order>, t: seq<Order>)
    ensures TotalValue(rs, s + t) == TotalValue(rs, s) + TotalValue(rs, t)
    decreases |t|
  {
    if |t| > 0 {
      TotalValueAppend(rs, s, t[..|t| - 1]);
      assert (s + t)[..|s + t| - 1] == s + t[..|t| - 1];
    } else {
      assert s + t == s;
    }
  }

  /** The total does not depend on the order of the orders, so sorting the
      day's orders in place leaves it unchanged. */
  lemma {:induction false} TotalValuePermutation(rs: seq<Restaurant>, s: seq<Order>, t: seq<Order>)
    requires multiset(s) == multiset(t)
    ensures TotalValue(rs, s) == TotalValue(rs, t)
    decreases |s|
  {
    if |s| > 0 {
      var n := |s| - 1;
      var x := s[n];
      assert x in multiset(t);
      var j :| 0 <= j < |t| && t[j] == x;
      var rest := t[..j] + t[j + 1..];
      assert s == s[..n] + [x];
      assert t == t[..j] + [x] + t[j + 1..];
      RemoveLast(s, t, j);
      TotalValuePermutation(rs, s[..n], rest);
      TotalValueAppend(rs, t[..j] + [x], t[j + 1..]);
      TotalValueAppend(rs, t[..j], [x]);
      TotalValueAppend(rs, t[..j], t[j + 1..]);
    }
  }

  /** With no negative prices the total is never negative. */
  lemma {:induction false} TotalValueNonNegative(rs: seq<Restaurant>, orders: seq<Order>)
    requires NonNegativePrices(rs)
    ensures TotalValue(rs, orders) >= 0
  {
    if |orders| > 0 {
      TotalValueNonNegative(rs, orders[..|orders| - 1]);
      var items := orders[|orders| - 1].items;
      if MINIMUM_ORDER_ITEM_NUMBER <= |items| <= MAXIMUM_ORDER_ITEM_NUMBER {
        ValidOrderCostsAtLeastDeliveryCharge(rs, items);
      }
    }
  }

  // ---------------------------------------------------------------------
  // The drone

  /** A drone: its surroundings are fixed when it is built, and a day's
      scheduling updates its budget, its flag, its delivered orders and
      its flightpath in place. */
  class Drone {
    var maxNumberOfMoves: int
    var continueIterations: bool
    var deliveredOrdersInADay: seq<Order>
    var flightpath: seq<FlightpathMove>

    const machineName: string
    const webPort: string
    const menu: Menus
    const landmarks: seq<Pos>
    const polygonPerimeters: seq<Segment>

    // The LongLat arithmetic, Line2D.intersectsLine, the what3words web
    // lookup, and the iteration bound of the router's while loops.
    const math: MathModel
    const intersects: (Segment, Segment) -> bool
    const lookup: string -> Option<Pos>
    const fuel: nat
    const world: World

    function Surroundings(): Area
    {
      Area(math, intersects, lookup, machineName, webPort, landmarks, polygonPerimeters, fuel)
    }

    /** The drone's surroundings as the schedule sees them: its planner
        is the router and its geocoder the what3words lookup. */
    ghost predicate Valid()
    {
      world.math == math && PlansLike(world, Surroundings()) && LocatesLike(world, Surroundings())
    }

    function State(): DroneState
      reads this
    {
      DroneState(maxNumberOfMoves, continueIterations, deliveredOrdersInADay, flightpath)
    }

    /** The landmarks and the no-fly perimeters setConstants downloads
        (GeoData.FindAllLandMarks, GeoData.GetPolygonBorders) are
        arguments. */
    constructor (machineName: string, webPort: string, menu: Menus,
                 landmarks: seq<Pos>, polygonPerimeters: seq<Segment>,
                 math: MathModel, intersects: (Segment, Segment) -> bool, lookup: string -> Option<Pos>, fuel: nat)
      ensures State() == DroneState(MAX_NUMBER_OF_MOVES, true, [], [])
      ensures Surroundings() == Area(math, intersects, lookup, machineName, webPort, landmarks, polygonPerimeters, fuel)
      ensures this.menu == menu
      ensures Valid()
    {
      this.machineName := machineName;
      this.webPort := webPort;
      this.menu := menu;
      this.landmarks := landmarks;
      this.polygonPerimeters := polygonPerimeters;
      this.math := math;
      this.intersects := intersects;
      this.lookup := lookup;
      this.fuel := fuel;
      var a := Area(math, intersects, lookup, machineName, webPort, landmarks, polygonPerimeters, fuel);
      this.world := WorldOf(a);
      maxNumberOfMoves := MAX_NUMBER_OF_MOVES;
      continueIterations := true;
      deliveredOrdersInADay := [];
      flightpath := [];
      WorldOfPlansLike(a);
    }

    /** The detour loop of travelToPosition: fly from where `st` stands
        towards the nearest landmark. */
    method DetourToLandmark(orderNo: string, nearestLandmark: Pos, st: Leg, movesBefore: seq<FlightpathMove>)
      returns (r: Outcome<Option<Leg>>, moves: seq<FlightpathMove>)
      requires movesBefore == Tag(orderNo, st.steps)
      ensures r == Detour(Surroundings(), nearestLandmark, st, fuel)
      ensures r.Returned? && r.value.Some? ==> moves == Tag(orderNo, r.value.value.steps)
    {
      var a := Surroundings();
      var currentPosition, steps, newPosition := st.cur, st.steps, st.newPosition;
      moves := movesBefore;
      var detourFuel: nat := fuel;
      while !CloseTo(math, currentPosition, nearestLandmark)
        invariant moves == Tag(orderNo, steps)
        invariant Detour(a, nearestLandmark, st, fuel)
               == Detour(a, nearestLandmark, Leg(currentPosition, steps, newPosition, st.counter), detourFuel)
        decreases detourFuel
      {
        if st.counter >= |landmarks| {
          return Returned(None), moves;
        }
        if detourFuel == 0 {
          return Threw(Diverged), moves;
        }
        var newAngle := GetAngle(math, currentPosition, nearestLandmark);
        newPosition := NextPosition(math, currentPosition, newAngle);
        var crossing := IsIntersectingPath(intersects, currentPosition, newPosition, polygonPerimeters);
        if crossing {
          return Returned(None), moves;
        }
        TagAppend(orderNo, steps, Step(currentPosition, newPosition, newAngle));
        moves := moves + [FlightpathMove(orderNo, currentPosition, newPosition, newAngle)];
        steps := steps + [Step(currentPosition, newPosition, newAngle)];
        currentPosition := newPosition;
        detourFuel := detourFuel - 1;
      }
      r := Returned(Some(Leg(currentPosition, steps, newPosition, st.counter)));
    }

    /** The for loop of travelToPosition over the no-fly perimeters, for
        the candidate step `lineSegment`. */
    method ScanPerimeters(orderNo: string, startingPoint: Pos, lineSegment: Segment, st: Leg, movesBefore: seq<FlightpathMove>)
      returns (r: Outcome<Option<Leg>>, moves: seq<FlightpathMove>)
      requires movesBefore == Tag(orderNo, st.steps)
      ensures r == Scan(Surroundings(), startingPoint, lineSegment, 0, st)
      ensures r.Returned? && r.value.Some? ==> moves == Tag(orderNo, r.value.value.steps)
    {
      var a := Surroundings();
      var leg := st;
      moves := movesBefore;
      for i := 0 to |polygonPerimeters|
        invariant moves == Tag(orderNo, leg.steps)
        invariant Scan(a, startingPoint, lineSegment, 0, st) == Scan(a, startingPoint, lineSegment, i, leg)
      {
        if intersects(polygonPerimeters[i], lineSegment) {
          if |landmarks| == 0 {
            return Threw(IndexOutOfBounds), moves;
          }
          var sorted := SortLongLats(math, startingPoint, landmarks);
          var nearestLandmark := sorted[0];
          var detour;
          detour, moves := DetourToLandmark(orderNo, nearestLandmark, Leg(startingPoint, [], leg.newPosition, leg.counter), []);
          if detour.Threw? || detour.value.None? {
            return detour, moves;
          }
          var d := detour.value.value;
          leg := d.(counter := d.counter + 1);
        }
      }
      r := Returned(Some(leg));
    }

    /** The outer loop of travelToPosition: fly towards the target until
        close to it. */
    method FlyTowards(orderNo: string, startingPoint: Pos, endPoint: Pos)
      returns (r: Outcome<Option<Leg>>, moves: seq<FlightpathMove>)
      ensures r == TravelLoop(Surroundings(), startingPoint, endPoint, Leg(startingPoint, [], startingPoint, 0), fuel)
      ensures r.Returned? && r.value.Some? ==> moves == Tag(orderNo, r.value.value.steps)
    {
      var a := Surroundings();
      var leg := Leg(startingPoint, [], startingPoint, 0);
      moves := [];
      var outerFuel: nat := fuel;
      while !CloseTo(math, leg.cur, endPoint)
        invariant moves == Tag(orderNo, leg.steps)
        invariant TravelLoop(a, startingPoint, endPoint, Leg(startingPoint, [], startingPoint, 0), fuel)
               == TravelLoop(a, startingPoint, endPoint, leg, outerFuel)
        decreases outerFuel
      {
        if outerFuel == 0 {
          return Threw(Diverged), moves;
        }
        var angle := GetAngle(math, leg.cur, endPoint);
        var newPosition := NextPosition(math, leg.cur, angle);
        var scan;
        scan, moves := ScanPerimeters(orderNo, startingPoint, Segment(leg.cur, newPosition),
                                      Leg(leg.cur, leg.steps, newPosition, leg.counter), moves);
        if scan.Threw? || scan.value.None? {
          return scan, moves;
        }
        var s := scan.value.value;
        TagAppend(orderNo, s.steps, Step(s.cur, s.newPosition, angle));
        moves := moves + [FlightpathMove(orderNo, s.cur, s.newPosition, angle)];
        leg := Leg(s.newPosition, s.steps + [Step(s.cur, s.newPosition, angle)], s.newPosition, s.counter);
        outerFuel := outerFuel - 1;
      }
      r := Returned(Some(leg));
    }

    /** travelToPosition: fly to the target, then hover there unless the
        target is Appleton Tower. */
    method TravelToPosition(order: Order, startingPoint: Pos, endPoint: Pos, isBase: bool)
      returns (r: Outcome<Option<seq<FlightpathMove>>>)
      requires Valid()
      ensures r == TravelMoves(world, order.orderNo, startingPoint, endPoint, isBase)
    {
      ghost var target := Travel(Surroundings(), startingPoint, endPoint, isBase);
      var flight, moves := FlyTowards(order.orderNo, startingPoint, endPoint);
      if flight.Threw? {
        return Threw(flight.fault);
      }
      if flight.value.None? {
        return Returned(None);
      }
      var f := flight.value.value;
      if !isBase {
        var hover := NextPosition(math, f.cur, HOVERING_ANGLE);
        TagAppend(order.orderNo, f.steps, Step(hover, hover, HOVERING_ANGLE));
        moves := moves + [FlightpathMove(order.orderNo, hover, hover, HOVERING_ANGLE)];
      }
      return Returned(Some(moves));
    }

    /** getUniqueRestaurants: item by item and restaurant by restaurant,
        every seller whose name has not been seen yet. */
    method GetUniqueRestaurants(order: Order) returns (restaurantsToVisit: seq<Restaurant>)
      ensures restaurantsToVisit == UniqueRestaurants(menu.restaurantList, order.items)
    {
      var items := order.items;
      restaurantsToVisit := [];
      var restaurantNames: set<string> := {};
      for i := 0 to |items|
        invariant restaurantsToVisit == UniqueRestaurants(menu.restaurantList, items[..i])
        invariant restaurantNames == NamesOf(restaurantsToVisit)
      {
        restaurantsToVisit, restaurantNames := AddRestaurantsSelling(restaurantsToVisit, restaurantNames, items[i]);
        assert items[..i + 1][..i] == items[..i];
      }
      assert items[..|items|] == items;
    }

    /** The inner loop of getUniqueRestaurants: every restaurant of the menu
        that sells the item joins the list unless one of that name is in it. */
    method AddRestaurantsSelling(acc: seq<Restaurant>, accNames: set<string>, item: string)
      returns (restaurantsToVisit: seq<Restaurant>, restaurantNames: set<string>)
      requires accNames == NamesOf(acc)
      ensures restaurantsToVisit == AddSellers(acc, menu.restaurantList, item)
      ensures restaurantNames == NamesOf(restaurantsToVisit)
    {
      var restaurantList := menu.restaurantList;
      restaurantsToVisit, restaurantNames := acc, accNames;
      for j := 0 to |restaurantList|
        invariant restaurantsToVisit == AddSellers(acc, restaurantList[..j], item)
        invariant restaurantNames == NamesOf(restaurantsToVisit)
      {
        var restaurant := restaurantList[j];
        assert restaurantList[..j + 1][..j] == restaurantList[..j];
        if item in restaurant.menuMap {
          if restaurant.name !in restaurantNames {
            NamesOfAppend(restaurantsToVisit, restaurant);
            restaurantsToVisit := restaurantsToVisit + [restaurant];
            restaurantNames := restaurantNames + {restaurant.name};
          }
        }
      }
      assert restaurantList[..|restaurantList|] == restaurantList;
    }

    /** getRestaurantPath: one leg per restaurant, each from where the path
        so far ends. */
    method GetRestaurantPath(startingPoint: Pos, order: Order, restaurants: seq<Restaurant>)
      returns (r: Outcome<Option<seq<FlightpathMove>>>)
      requires Valid()
      ensures r == RestaurantPath(world, order.orderNo, startingPoint, restaurants, [])
    {
      var w := world;
      var start := startingPoint;
      var pathToRestaurant: seq<FlightpathMove> := [];
      for k := 0 to |restaurants|
        invariant RestaurantPath(w, order.orderNo, startingPoint, restaurants, [])
               == RestaurantPath(w, order.orderNo, start, restaurants[k..], pathToRestaurant)
      {
        var restaurantPosition := Geocode(Surroundings(), restaurants[k].location);
        assert w.locate(restaurants[k].location) == restaurantPosition;
        assert restaurants[k..][1..] == restaurants[k + 1..];
        var flightpathMovesTemp := TravelToPosition(order, start, restaurantPosition, false);
        if flightpathMovesTemp.Threw? {
          return Threw(flightpathMovesTemp.fault);
        }
        if flightpathMovesTemp.value.None? {
          return Returned(None);
        }
        pathToRestaurant := pathToRestaurant + flightpathMovesTemp.value.value;
        if |pathToRestaurant| == 0 {
          return Threw(IndexOutOfBounds);
        }
        start := pathToRestaurant[|pathToRestaurant| - 1].nextPosition;
      }
      return Returned(Some(pathToRestaurant));
    }

    /** getMovesLeft: the budget after the route and the way back. */
    method GetMovesLeft(order: Order, dropOff: seq<FlightpathMove>, routeMoves: int) returns (r: Outcome<int>)
      requires Valid()
      ensures r == MovesLeft(world, maxNumberOfMoves, order.orderNo, dropOff, routeMoves)
    {
      if |dropOff| == 0 {
        return Threw(IndexOutOfBounds);
      }
      var pathToAppletonTower := TravelToPosition(order, dropOff[|dropOff| - 1].nextPosition, APPLETON_TOWER, true);
      if pathToAppletonTower.Threw? {
        return Threw(pathToAppletonTower.fault);
      }
      if pathToAppletonTower.value.None? {
        return Returned(INT_MIN_VALUE);
      }
      return Returned(maxNumberOfMoves - routeMoves - |pathToAppletonTower.value.value|);
    }

    /** updateFlightpath. */
    method UpdateFlightpath(pickUp: seq<FlightpathMove>, dropOff: seq<FlightpathMove>)
      modifies this
      ensures State() == Committed(old(State()), pickUp, dropOff)
    {
      var routeMoves := |pickUp| + |dropOff|;
      flightpath := flightpath + pickUp;
      flightpath := flightpath + dropOff;
      maxNumberOfMoves := maxNumberOfMoves - routeMoves;
      continueIterations := true;
    }

    /** singleOrderRoute; after an exception the drone's state is not
        specified. */
    method SingleOrderRoute(startingPoint: Pos, order: Order, restaurants: seq<Restaurant>) returns (r: Outcome<bool>)
      requires Valid()
      modifies this
      ensures var o := OrderRoute(world, old(State()), startingPoint, order, restaurants);
              && (o.Threw? ==> r == Threw(o.fault))
              && (o.Returned? ==> r == Returned(o.value.1) && State() == o.value.0)
    {
      if |restaurants| > MAXIMUM_NUMBER_OF_RESTAURANTS {
        return Returned(false);
      }
      var path := GetRestaurantPath(startingPoint, order, restaurants);
      if path.Threw? {
        return Threw(path.fault);
      }
      if path.value.None? {
        return Returned(false);
      }
      var pickUp := path.value.value;
      if |pickUp| == 0 {
        return Threw(IndexOutOfBounds);
      }
      var currentPosition := pickUp[|pickUp| - 1].nextPosition;
      var userLocation := Geocode(Surroundings(), order.deliverTo);
      assert world.locate(order.deliverTo) == userLocation;
      var drop := TravelToPosition(order, currentPosition, userLocation, false);
      if drop.Threw? {
        return Threw(drop.fault);
      }
      if drop.value.None? {
        return Returned(false);
      }
      var dropOff := drop.value.value;
      var routeMoves := |pickUp| + |dropOff|;
      var movesLeft := GetMovesLeft(order, dropOff, routeMoves);
      if movesLeft.Threw? {
        return Threw(movesLeft.fault);
      }
      if movesLeft.value >= 0 {
        UpdateFlightpath(pickUp, dropOff);
        return Returned(true);
      }
      continueIterations := false;
      return Returned(true);
    }

    /** The first half of an iteration of greedyOrdersInADay: None when the
        order is skipped (it costs nothing, or it needs more than two
        restaurants), otherwise its restaurants, nearest first. */
    method NearestRestaurants(previous: Pos, order: Order) returns (r: Outcome<Option<seq<Restaurant>>>)
      requires Valid()
      requires order.menu == menu
      ensures DeliveryCost(menu.restaurantList, order.items) == 0 ==> r == Returned(None)
      ensures DeliveryCost(menu.restaurantList, order.items) != 0 ==>
                r == SortRestaurants(world, UniqueRestaurants(menu.restaurantList, order.items), previous)
    {
      var cost := order.menu.GetDeliveryCost(order.items);
      if cost == 0 {
        return Returned(None);
      }
      var unique := GetUniqueRestaurants(order);
      r := SortRestaurants(world, unique, previous);
    }

    /** The second half of an iteration of greedyOrdersInADay: route the
        order through its restaurants and, when it is delivered, add it to
        the day's orders and move on to the end of the flightpath. */
    method RouteAndRecord(previous: Pos, order: Order, restaurants: seq<Restaurant>) returns (r: Outcome<Pos>)
      requires Valid()
      modifies this
      ensures var o := Recorded(old(State()), previous, order,
                                OrderRoute(world, old(State()), previous, order, restaurants));
              && (o.Threw? ==> r == Threw(o.fault))
              && (o.Returned? ==> r == Returned(o.value.1) && State() == o.value.0)
    {
      var delivered := SingleOrderRoute(previous, order, restaurants);
      if delivered.Threw? {
        return Threw(delivered.fault);
      }
      if delivered.value && continueIterations {
        deliveredOrdersInADay := deliveredOrdersInADay + [order];
        if |flightpath| == 0 {
          return Threw(IndexOutOfBounds);
        }
        return Returned(flightpath[|flightpath| - 1].nextPosition);
      }
      return Returned(previous);
    }

    /** One iteration of greedyOrdersInADay's loop: skip the order, or try
        to deliver it from `previous`; the answer is the next `previous`,
        and the day's loop over `order` and the `rest` goes on as the loop
        over the `rest` from there. After an exception the drone's state is
        not specified. */
    method DeliverOrder(previous: Pos, order: Order, ghost rest: seq<Order>) returns (r: Outcome<Pos>)
      requires Valid()
      requires order.menu == menu
      modifies this
      ensures var o := OrderStep(world, menu.restaurantList, old(State()), previous, order);
              && (o.Threw? ==> r == Threw(o.fault))
              && (o.Returned? ==> r == Returned(o.value.1) && State() == o.value.0)
      ensures var d := DayLoop(world, menu.restaurantList, old(State()), previous, [order] + rest);
              && (r.Threw? ==> d == Threw(r.fault))
              && (r.Returned? ==> d == DayLoop(world, menu.restaurantList, State(), r.value, rest))
    {
      ghost var st := State();
      ghost var o := OrderStep(world, menu.restaurantList, st, previous, order);
      assert ([order] + rest)[1..] == rest;
      assert DayLoop(world, menu.restaurantList, st, previous, [order] + rest)
          == if o.Threw? then Threw(o.fault) else DayLoop(world, menu.restaurantList, o.value.0, o.value.1, rest);
      var nearest := NearestRestaurants(previous, order);
      if nearest.Threw? {
        assert o == Threw(nearest.fault);
        return Threw(nearest.fault);
      }
      if nearest.value.None? {
        assert o == Returned((st, previous));
        return Returned(previous);
      }
      assert o == Recorded(st, previous, order, OrderRoute(world, st, previous, order, nearest.value.value));
      r := RouteAndRecord(previous, order, nearest.value.value);
    }

    /** The loop of greedyOrdersInADay over the orders already sorted by
        cost, starting at Appleton Tower; the answer is where the last
        delivery ended. */
    method DeliverAll(sorted: seq<Order>) returns (r: Outcome<Pos>)
      requires Valid()
      requires forall i :: 0 <= i < |sorted| ==> sorted[i].menu == menu
      modifies this
      ensures var o := DayLoop(world, menu.restaurantList, old(State()), APPLETON_TOWER, sorted);
              && (o.Threw? ==> r == Threw(o.fault))
              && (o.Returned? ==> r == Returned(o.value.1) && State() == o.value.0)
    {
      ghost var loop := DayLoop(world, menu.restaurantList, State(), APPLETON_TOWER, sorted);
      var previous := APPLETON_TOWER;
      for k := 0 to |sorted|
        invariant loop == DayLoop(world, menu.restaurantList, State(), previous, sorted[k..])
      {
        assert [sorted[k]] + sorted[k + 1..] == sorted[k..];
        var next := DeliverOrder(previous, sorted[k], sorted[k + 1..]);
        if next.Threw? {
          assert loop == Threw(next.fault);
          return Threw(next.fault);
        }
        previous := next.value;
      }
      assert loop == Returned((State(), previous));
      return Returned(previous);
    }

    /** The end of greedyOrdersInADay: the way back to Appleton Tower from
        the end of the flightpath, tagged with the last order's number. */
    method ReturnToBase(sorted: seq<Order>, previous: Pos) returns (r: Outcome<()>)
      requires Valid()
      modifies this
      ensures var o := DayEnd(world, sorted, Returned((old(State()), previous)));
              && (o.Threw? ==> r == Threw(o.fault))
              && (o.Returned? ==> r == Returned(()) && State() == o.value)
    {
      if |sorted| == 0 || |flightpath| == 0 {
        return Threw(IndexOutOfBounds);
      }
      var back := TravelToPosition(sorted[|sorted| - 1], flightpath[|flightpath| - 1].nextPosition, APPLETON_TOWER, true);
      if back.Threw? {
        return Threw(back.fault);
      }
      if back.value.None? {
        return Threw(NullPointer);
      }
      flightpath := flightpath + back.value.value;
      return Returned(());
    }

    /** The day over orders already sorted by cost: the loop from Appleton
        Tower, then the way back. */
    method FlyDay(sorted: seq<Order>) returns (r: Outcome<()>)
      requires Valid()
      requires forall i :: 0 <= i < |sorted| ==> sorted[i].menu == menu
      modifies this
      ensures var o := FlownDay(world, menu.restaurantList, old(State()), sorted);
              && (o.Threw? ==> r == Threw(o.fault))
              && (o.Returned? ==> r == Returned(()) && State() == o.value)
    {
      ghost var loop := DayLoop(world, menu.restaurantList, State(), APPLETON_TOWER, sorted);
      var reached := DeliverAll(sorted);
      if reached.Threw? {
        return Threw(reached.fault);
      }
      assert loop == Returned((State(), reached.value));
      r := ReturnToBase(sorted, reached.value);
    }

    /** greedyOrdersInADay, with every order priced by this drone's menu;
        after an exception the drone's state is not specified. */
    method GreedyOrdersInADay(orders: seq<Order>) returns (r: Outcome<()>)
      requires Valid()
      requires forall i :: 0 <= i < |orders| ==> orders[i].menu == menu
      modifies this
      ensures var o := GreedyDay(world, menu.restaurantList, old(State()), orders);
              && (o.Threw? ==> r == Threw(o.fault))
              && (o.Returned? ==> r == Returned(()) && State() == o.value)
    {
      var sorted := SortedByCost(menu.restaurantList, orders);
      SortedKeepsMenus(menu.restaurantList, orders, menu);
      r := FlyDay(sorted);
    }

    /** getAllMovesSingle. */
    method GetAllMovesSingle() returns (allMoves: seq<Pos>)
      ensures allMoves == VisitedPositions(flightpath)
    {
      allMoves := [APPLETON_TOWER];
      for i := 0 to |flightpath|
        invariant allMoves == VisitedPositions(flightpath[..i])
      {
        assert flightpath[..i + 1][..i] == flightpath[..i];
        allMoves := allMoves + [flightpath[i].nextPosition];
      }
      assert flightpath[..|flightpath|] == flightpath;
    }

    /** monetaryValue: the sum of the orders' delivery costs. */
    method MonetaryValue(orders: seq<Order>) returns (totalCost: int)
      ensures totalCost == TotalValue(menu.restaurantList, orders)
    {
      totalCost := 0;
      for i := 0 to |orders|
        invariant totalCost == TotalValue(menu.restaurantList, orders[..i])
      {
        var cost := menu.GetDeliveryCost(orders[i].items);
        assert orders[..i + 1][..i] == orders[..i];
        totalCost := totalCost + cost;
      }
      assert orders[..|orders|] == orders;
    }
  }
}
