/**
 * A restaurant and its menu (src/main/java/uk/ac/ed/inf/Restaurant.java,
 * src/main/java/uk/ac/ed/inf/FoodItem.java).
 */
module Restaurants {

  /** One menu line: an item name and its price in pence. */
  datatype FoodItem = FoodItem(item: string, pence: int)

  /** The item -> price map built from a menu, entry by entry: when the same
      item name occurs twice, the later entry overwrites the earlier one. */
  function MenuMapOf(menu: seq<FoodItem>): map<string, int>
  {
    if |menu| == 0 then map[]
    else MenuMapOf(menu[..|menu| - 1])[menu[|menu| - 1].item := menu[|menu| - 1].pence]
  }

  /** The map's keys are exactly the item names of the menu. */
  lemma {:induction false} MenuMapKeys(menu: seq<FoodItem>, name: string)
    ensures name in MenuMapOf(menu) <==> exists i :: 0 <= i < |menu| && menu[i].item == name
  {
    if |menu| > 0 {
      var init := menu[..|menu| - 1];
      MenuMapKeys(init, name);
      if exists i :: 0 <= i < |menu| && menu[i].item == name {
        var i :| 0 <= i < |menu| && menu[i].item == name;
        if i < |menu| - 1 {
          assert init[i] == menu[i];
        }
      }
    }
  }

  /** The price of an item is that of its LAST entry in the menu. */
  lemma {:induction false} MenuMapLastEntryWins(menu: seq<FoodItem>, i: nat)
    requires i < |menu|
    requires forall j :: i < j < |menu| ==> menu[j].item != menu[i].item
    ensures menu[i].item in MenuMapOf(menu)
    ensures MenuMapOf(menu)[menu[i].item] == menu[i].pence
  {
    var last := |menu| - 1;
    if i < last {
      var init := menu[..last];
      assert init[i] == menu[i];
      MenuMapLastEntryWins(init, i);
    }
  }

  class Restaurant {
    const name: string
    const location: string
    const menu: seq<FoodItem>
    var menuMap: map<string, int>

    /** The menuMap argument is ignored: the map is rebuilt from the menu. */
    constructor (name: string, location: string, menu: seq<FoodItem>, menuMap: map<string, int>)
      ensures this.name == name && this.location == location && this.menu == menu
      ensures this.menuMap == MenuMapOf(menu)
    {
      this.name := name;
      this.location := location;
      this.menu := menu;
      this.menuMap := menuMap;
      new;
      SetMenuMap();
    }

    /** Rebuilds menuMap from the menu. Since the menu never changes, a
        second call leaves the map as the first call made it. */
    method SetMenuMap()
      modifies this`menuMap
      ensures menuMap == MenuMapOf(menu)
    {
      var newMap: map<string, int> := map[];
      for i := 0 to |menu|
        invariant newMap == MenuMapOf(menu[..i])
      {
        assert menu[..i + 1][..i] == menu[..i];
        newMap := newMap[menu[i].item := menu[i].pence];
      }
      assert menu[..|menu|] == menu;
      menuMap := newMap;
    }
  }
}
