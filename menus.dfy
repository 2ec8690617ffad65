/**
 * Delivery pricing over the day's restaurants
 * (src/main/java/uk/ac/ed/inf/Menus.java).
 *
 * Restaurants are objects: the Java code collects the restaurants an order
 * uses in a HashSet of Restaurant, which compares by identity, so the model
 * collects them in a set of references.
 */
module Pricing {
  import opened Restaurants

  const DELIVERY_COST: int := 50
  const MAXIMUM_NUMBER_OF_RESTAURANTS: int := 2
  const MINIMUM_ORDER_ITEM_NUMBER: int := 1
  const MAXIMUM_ORDER_ITEM_NUMBER: int := 4

  /** What one restaurant charges for an item: its menu price, or nothing. */
  function Price(r: Restaurant, item: string): int
    reads r
  {
    if item in r.menuMap then r.menuMap[item] else 0
  }

  /** An item is charged once for EVERY restaurant that sells it. */
  function PriceAcross(rs: seq<Restaurant>, item: string): int
    reads rs
  {
    if |rs| == 0 then 0 else PriceAcross(rs[..|rs| - 1], item) + Price(rs[|rs| - 1], item)
  }

  /** The restaurants that sell an item. */
  function SellersOf(rs: seq<Restaurant>, item: string): set<Restaurant>
    reads rs
  {
    if |rs| == 0 then {}
    else SellersOf(rs[..|rs| - 1], item) + (if item in rs[|rs| - 1].menuMap then {rs[|rs| - 1]} else {})
  }

  /** The sum of the item prices of an order. */
  function ItemsTotal(rs: seq<Restaurant>, items: seq<string>): int
    reads rs
  {
    if |items| == 0 then 0 else ItemsTotal(rs, items[..|items| - 1]) + PriceAcross(rs, items[|items| - 1])
  }

  /** The restaurants an order draws from. */
  function Sellers(rs: seq<Restaurant>, items: seq<string>): set<Restaurant>
    reads rs
  {
    if |items| == 0 then {} else Sellers(rs, items[..|items| - 1]) + SellersOf(rs, items[|items| - 1])
  }

  /** The price of an order: zero unless it has 1 to 4 items from at most two
      restaurants; otherwise the delivery charge plus every item price. */
  function DeliveryCost(rs: seq<Restaurant>, items: seq<string>): int
    reads rs
  {
    if MINIMUM_ORDER_ITEM_NUMBER <= |items| <= MAXIMUM_ORDER_ITEM_NUMBER
       && |Sellers(rs, items)| <= MAXIMUM_NUMBER_OF_RESTAURANTS
    then ItemsTotal(rs, items) + DELIVERY_COST
    else 0
  }

  ghost predicate NonNegativePrices(rs: seq<Restaurant>)
    reads rs
  {
    forall i, k :: 0 <= i < |rs| && k in rs[i].menuMap ==> rs[i].menuMap[k] >= 0
  }

  /** Orders outside 1..4 items cost nothing. */
  lemma ItemCountOutOfRangeCostsNothing(rs: seq<Restaurant>, items: seq<string>)
    requires |items| < MINIMUM_ORDER_ITEM_NUMBER || |items| > MAXIMUM_ORDER_ITEM_NUMBER
    ensures DeliveryCost(rs, items) == 0
  {
  }

  /** Orders drawing on more than two restaurants cost nothing. */
  lemma TooManyRestaurantsCostsNothing(rs: seq<Restaurant>, items: seq<string>)
    requires |Sellers(rs, items)| > MAXIMUM_NUMBER_OF_RESTAURANTS
    ensures DeliveryCost(rs, items) == 0
  {
  }

  lemma {:induction false} UnsoldItemPricesNothing(rs: seq<Restaurant>, item: string)
    requires forall i :: 0 <= i < |rs| ==> item !in rs[i].menuMap
    ensures PriceAcross(rs, item) == 0
    ensures SellersOf(rs, item) == {}
  {
    if |rs| > 0 {
      UnsoldItemPricesNothing(rs[..|rs| - 1], item);
    }
  }

  /** An item no restaurant sells adds nothing to the total and no restaurant
      to the set (it still counts towards the 1..4 items). */
  lemma UnsoldItemAddsNothing(rs: seq<Restaurant>, items: seq<string>, item: string)
    requires forall i :: 0 <= i < |rs| ==> item !in rs[i].menuMap
    ensures ItemsTotal(rs, items + [item]) == ItemsTotal(rs, items)
    ensures Sellers(rs, items + [item]) == Sellers(rs, items)
  {
    UnsoldItemPricesNothing(rs, item);
    assert (items + [item])[..|items|] == items;
  }

  /** An order none of whose items is sold anywhere still costs the delivery
      charge, as long as it has 1 to 4 items. */
  lemma {:induction false} UnsoldOrderCostsDeliveryCharge(rs: seq<Restaurant>, items: seq<string>)
    requires MINIMUM_ORDER_ITEM_NUMBER <= |items| <= MAXIMUM_ORDER_ITEM_NUMBER
    requires forall i, j :: 0 <= i < |rs| && 0 <= j < |items| ==> items[j] !in rs[i].menuMap
    ensures DeliveryCost(rs, items) == DELIVERY_COST
    ensures Sellers(rs, items) == {}
  {
    UnsoldItemsTotalNothing(rs, items);
  }

  lemma {:induction false} UnsoldItemsTotalNothing(rs: seq<Restaurant>, items: seq<string>)
    requires forall i, j :: 0 <= i < |rs| && 0 <= j < |items| ==> items[j] !in rs[i].menuMap
    ensures ItemsTotal(rs, items) == 0 && Sellers(rs, items) == {}
  {
    if |items| > 0 {
      var init := items[..|items| - 1];
      UnsoldItemsTotalNothing(rs, init);
      UnsoldItemPricesNothing(rs, items[|items| - 1]);
    }
  }

  lemma {:induction false} PriceAcrossNonNegative(rs: seq<Restaurant>, item: string)
    requires NonNegativePrices(rs)
    ensures PriceAcross(rs, item) >= 0
  {
    if |rs| > 0 {
      PriceAcrossNonNegative(rs[..|rs| - 1], item);
    }
  }

  lemma {:induction false} ItemsTotalNonNegative(rs: seq<Restaurant>, items: seq<string>)
    requires NonNegativePrices(rs)
    ensures ItemsTotal(rs, items) >= 0
  {
    if |items| > 0 {
      ItemsTotalNonNegative(rs, items[..|items| - 1]);
      PriceAcrossNonNegative(rs, items[|items| - 1]);
    }
  }

  /** With non-negative prices, an order that is priced at all costs at
      least the delivery charge. */
  lemma ValidOrderCostsAtLeastDeliveryCharge(rs: seq<Restaurant>, items: seq<string>)
    requires NonNegativePrices(rs)
    ensures DeliveryCost(rs, items) == 0 || DeliveryCost(rs, items) >= DELIVERY_COST
  {
    ItemsTotalNonNegative(rs, items);
  }

  /** An item sold by two different restaurants is charged by both. */
  lemma SoldTwiceChargedTwice(r1: Restaurant, r2: Restaurant, item: string)
    requires r1 != r2
    requires item in r1.menuMap && item in r2.menuMap
    ensures DeliveryCost([r1, r2], [item]) == DELIVERY_COST + r1.menuMap[item] + r2.menuMap[item]
    ensures Sellers([r1, r2], [item]) == {r1, r2}
  {
    assert [r1, r2][..1] == [r1];
    assert [r1][..0] == [];
    assert [item][..0] == [];
    assert SellersOf([r1], item) == {r1};
    assert SellersOf([r1, r2], item) == {r1, r2};
    assert PriceAcross([r1], item) == r1.menuMap[item];
    assert PriceAcross([r1, r2], item) == r1.menuMap[item] + r2.menuMap[item];
    assert |{r1, r2}| == 2;
    assert Sellers([r1, r2], [item]) == {r1, r2};
    assert ItemsTotal([r1, r2], [item]) == PriceAcross([r1, r2], item);
  }

  lemma ItemsTotalStep(rs: seq<Restaurant>, items: seq<string>, i: nat)
    requires i < |items|
    ensures ItemsTotal(rs, items[..i + 1]) == ItemsTotal(rs, items[..i]) + PriceAcross(rs, items[i])
    ensures Sellers(rs, items[..i + 1]) == Sellers(rs, items[..i]) + SellersOf(rs, items[i])
  {
    assert items[..i + 1][..i] == items[..i];
  }

  lemma PriceAcrossStep(rs: seq<Restaurant>, item: string, j: nat)
    requires j < |rs|
    ensures PriceAcross(rs[..j + 1], item) == PriceAcross(rs[..j], item) + Price(rs[j], item)
    ensures SellersOf(rs[..j + 1], item) == SellersOf(rs[..j], item) + (if item in rs[j].menuMap then {rs[j]} else {})
  {
    assert rs[..j + 1][..j] == rs[..j];
  }

  lemma DeliveryCostVerdict(rs: seq<Restaurant>, items: seq<string>, total: int, used: set<Restaurant>)
    requires MINIMUM_ORDER_ITEM_NUMBER <= |items| <= MAXIMUM_ORDER_ITEM_NUMBER ==> used == Sellers(rs, items)
    requires !(MINIMUM_ORDER_ITEM_NUMBER <= |items| <= MAXIMUM_ORDER_ITEM_NUMBER) ==> used == {} && total == 0
    requires |used| > MAXIMUM_NUMBER_OF_RESTAURANTS ==> total == 0
    requires MINIMUM_ORDER_ITEM_NUMBER <= |items| <= MAXIMUM_ORDER_ITEM_NUMBER && |used| <= MAXIMUM_NUMBER_OF_RESTAURANTS
             ==> total == ItemsTotal(rs, items) + DELIVERY_COST
    ensures total == DeliveryCost(rs, items)
  {
  }

  class Menus {
    const machineName: string
    const port: string
    const restaurantList: seq<Restaurant>

    /** The restaurant list the Java constructor downloads is an argument. */
    constructor (machineName: string, port: string, restaurantList: seq<Restaurant>)
      ensures this.machineName == machineName && this.port == port
      ensures this.restaurantList == restaurantList
    {
      this.machineName := machineName;
      this.port := port;
      this.restaurantList := restaurantList;
    }

    /** getDeliveryCost: accumulate every price of every item over every
        restaurant, collecting the restaurants used; then apply the item
        count and restaurant count rules. */
    method GetDeliveryCost(order: seq<string>) returns (totalCost: int)
      ensures totalCost == DeliveryCost(restaurantList, order)
    {
      totalCost := 0;
      var orderedRestaurants: set<Restaurant> := {};
      if MINIMUM_ORDER_ITEM_NUMBER <= |order| <= MAXIMUM_ORDER_ITEM_NUMBER {
        for i := 0 to |order|
          invariant totalCost == ItemsTotal(restaurantList, order[..i])
          invariant orderedRestaurants == Sellers(restaurantList, order[..i])
        {
          ItemsTotalStep(restaurantList, order, i);
          totalCost, orderedRestaurants := AddItem(order[i], totalCost, orderedRestaurants);
        }
        assert order[..|order|] == order;
        totalCost := totalCost + DELIVERY_COST;
      }
      if |orderedRestaurants| > MAXIMUM_NUMBER_OF_RESTAURANTS {
        totalCost := 0;
      }
      DeliveryCostVerdict(restaurantList, order, totalCost, orderedRestaurants);
    }

    /** The inner loop of getDeliveryCost: add the item's price at every
        restaurant that sells it, and record those restaurants. */
    method AddItem(foodItem: string, costBefore: int, usedBefore: set<Restaurant>)
      returns (totalCost: int, orderedRestaurants: set<Restaurant>)
      ensures totalCost == costBefore + PriceAcross(restaurantList, foodItem)
      ensures orderedRestaurants == usedBefore + SellersOf(restaurantList, foodItem)
    {
      totalCost, orderedRestaurants := costBefore, usedBefore;
      for j := 0 to |restaurantList|
        invariant totalCost == costBefore + PriceAcross(restaurantList[..j], foodItem)
        invariant orderedRestaurants == usedBefore + SellersOf(restaurantList[..j], foodItem)
      {
        var restaurant := restaurantList[j];
        PriceAcrossStep(restaurantList, foodItem, j);
        if foodItem in restaurant.menuMap {
          totalCost := totalCost + restaurant.menuMap[foodItem];
          orderedRestaurants := orderedRestaurants + {restaurant};
        }
      }
      assert restaurantList[..|restaurantList|] == restaurantList;
    }
  }
}
