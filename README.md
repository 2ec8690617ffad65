# Drone delivery planner, modelled in Dafny

The system plans one day of lunch deliveries by a drone over central Edinburgh. Restaurants publish menus. An order lists one to four food items and a delivery address, written as three what3words words. A `Menus` object prices an order: the items cost what the restaurants charge, plus a 50p delivery charge. An order is free (cost 0) when it has the wrong number of items or needs more than two restaurants.

The `Drone` starts at Appleton Tower with a budget of 1500 moves. It sorts the day's orders by cost, most expensive first. For each order that costs something and needs at most two restaurants, it:
- flies to the restaurants, nearest first;
- flies on to the customer;
- checks that it could still get back to Appleton Tower within the moves left.

If the way back fits, the pick-up and drop-off moves are committed to the flight path. At the end of the day it flies home.

The router aims to fly in straight steps of 0.00015 degrees, at headings that are multiples of 10 degrees, inside the confinement box and clear of the no-fly zones. A step that would cross a zone's edge sends the route back to its start and through the nearest landmark. The code keeps that aim only in part. A hover move stays in place at angle -999. The move recorded after a detour may have length zero, or may run from the start to the blocked position. That move is not checked against the zones again (see "## Left out").

## Modules

- **`Common`** (`common.dfy`): the Java outcomes. `Outcome.Returned`/`Outcome.Threw` stand for a return or a thrown exception. `Option` stands for a reference that may be null.
- **`Geo`** (`longlat.dfy`): `LongLat`, covering:
  - the confinement box, distance and closeness;
  - the next position after a move, and the heading towards a goal;
  - the obstacle test;
  - the ordering of locations by distance.
- **`Client`** (`clientio.dfy`): the pure parts of `ClientIO`. These are the output file name for a date, and the what3words endpoint with the answer to a lookup.
- **`GeoData`** (`geoclient.dfy`): `GeoClient`. It turns GeoJSON features into landmarks, no-fly zones and the zones' edges.
- **`Restaurants`** (`restaurant.dfy`): the `Restaurant` class and its item-to-price map.
- **`Pricing`** (`menus.dfy`): the `Menus` class and `getDeliveryCost`, with a specification function and the laws of pricing.
- **`Orders`** (`order.dfy`):
  - the `Order` record;
  - `compareTo` and `getOrderCost`;
  - the stable descending sort the day uses.
- **`Routing`** (`router.dfy`): `Drone.travelToPosition` as functions over the drone's surroundings.
- **`Delivery`** (`drone.dfy`):
  - the scheduler as specification functions over the drone's state;
  - the lemmas that state what the day guarantees;
  - the `Drone` class, whose methods update `flightpath`, `deliveredOrdersInADay`, the move budget and `continueIterations` in place, each proved against its function.

### How the outside world is modelled

- **Floating-point arithmetic** is an uninterpreted `MathModel`: square root, sine and cosine of degrees, and the rounded `atan2` in degrees. The model assumes only what the code relies on, in the predicate `Sound`:
  - the square root of 0 is 0;
  - the square root of a positive number is positive;
  - the rounded angle lies in -180..180.
- **`Line2D.intersectsLine`** is a function parameter.
- **What3words lookup:** the web server's answer to an endpoint is a function parameter. It is `None` when the request or its parsing fails.
- **Parsed GeoJSON** is a datatype value.

A Java exception is an `Outcome.Threw` naming what was thrown, such as `get(0)` on an empty list or `addAll(null)`. Each of travelToPosition's two while loops runs at most `fuel` iterations. A loop that would run longer ends in `Threw(Diverged)`.

## Model

| member | source | states |
|---|---|---|
| Geo.EdgesAreNotConfined | src/main/java/uk/ac/ed/inf/LongLat.java:61-66 | a point on an edge of the confinement box is not confined (the comparisons are strict) |
| Geo.DistanceSymmetric | src/main/java/uk/ac/ed/inf/LongLat.java:75-79 | the distance from a to b equals the distance from b to a |
| Geo.DistanceToSelf | src/main/java/uk/ac/ed/inf/LongLat.java:75-79 | a point is at distance 0 from itself |
| Geo.CloseToSelf | src/main/java/uk/ac/ed/inf/LongLat.java:88-90 | every point is close to itself, so a drone already at its target makes no move |
| Geo.NextPosition | src/main/java/uk/ac/ed/inf/LongLat.java:103-126 | the hovering angle and any angle that is not a multiple of 10 in 0..350 leave the drone in place; a valid angle whose step stays confined moves the drone by that step; any other result is the start, so the drone never leaves the box |
| Geo.Quantise | src/main/java/uk/ac/ed/inf/LongLat.java:203-211 | a heading in -180..180 becomes a valid move angle (a multiple of 10 in 0..350); a non-negative heading is rounded down to a multiple of 10; a negative one is rounded towards zero, as Java's long division does, and 360 is added when the result is still negative |
| Geo.GetAngle | src/main/java/uk/ac/ed/inf/LongLat.java:203-211 | the heading towards any goal is a valid move angle |
| Geo.HeadingIsAccepted | src/main/java/uk/ac/ed/inf/LongLat.java:103-126 | a move along getAngle's heading is the full step, or no move when the step would leave the box |
| Geo.IsIntersectingPath | src/main/java/uk/ac/ed/inf/LongLat.java:184-193 | true exactly when the step's segment intersects some perimeter (both directions) |
| Geo.Distances | src/main/java/uk/ac/ed/inf/LongLat.java:143-147 | one distance per location, in the input order |
| Geo.DistanceMapKeys | src/main/java/uk/ac/ed/inf/LongLat.java:143-147 | the distance map's keys are exactly the distances of the locations |
| Geo.DistanceMapHoldsLast | src/main/java/uk/ac/ed/inf/LongLat.java:143-147 | for equal distances the map keeps the last location put, as HashMap.put does |
| Geo.InsertReal | src/main/java/uk/ac/ed/inf/LongLat.java:149 | inserting into a sorted list of reals keeps it sorted and adds exactly one element |
| Geo.SortReals | src/main/java/uk/ac/ed/inf/LongLat.java:149 | Collections.sort of the distances: sorted ascending and a permutation of its input |
| Geo.Ordering | src/main/java/uk/ac/ed/inf/LongLat.java:164-171 | the i-th location is the map's entry for the i-th sorted distance |
| Geo.SortedDistancesAreKeys | src/main/java/uk/ac/ed/inf/LongLat.java:143-152 | every sorted distance is a key of the map, so getOrdering never reads a missing entry |
| Geo.DistanceIsKey | src/main/java/uk/ac/ed/inf/LongLat.java:143-152 | a distance that occurs among the sorted distances is a key of the map |
| Geo.ProximityOrder | src/main/java/uk/ac/ed/inf/LongLat.java:136-153 | sortLongLats returns as many locations as it is given |
| Geo.ProximityOrderIsSorted | src/main/java/uk/ac/ed/inf/LongLat.java:136-153 | entry i lies at the i-th smallest input distance, so the entries are in non-decreasing distance; each entry is, for its distance, the last input location at that distance |
| Geo.ProximityOrderHeadIsNearest | src/main/java/uk/ac/ed/inf/LongLat.java:136-153 | the first location is no farther than any input location: get(0) is the nearest landmark |
| Geo.SortLongLats | src/main/java/uk/ac/ed/inf/LongLat.java:136-153 | the loop building the distance map and the list equals ProximityOrder |
| Geo.GetOrdering | src/main/java/uk/ac/ed/inf/LongLat.java:164-171 | the loop over the sorted distances equals Ordering |
| Geo.IsConfined | src/main/java/uk/ac/ed/inf/LongLat.java:61-66 | a position is confined exactly when its longitude and latitude lie strictly inside the box's four boundary values |
| Geo.Distance | src/main/java/uk/ac/ed/inf/LongLat.java:75-79 | the square root of the summed squares of the longitude and latitude differences |
| Geo.CloseTo | src/main/java/uk/ac/ed/inf/LongLat.java:88-90 | two positions are close exactly when their distance is below the 0.00015 tolerance |
| Geo.DistanceMap | src/main/java/uk/ac/ed/inf/LongLat.java:143-147 | each landmark is entered under its distance, a later landmark at the same distance replacing an earlier one |
| Client.SplitPieces | src/main/java/uk/ac/ed/inf/ClientIO.java:134 | String.split yields at least one piece |
| Client.DropTrailingEmpty | src/main/java/uk/ac/ed/inf/ClientIO.java:134 | String.split keeps a prefix of the pieces, ending in a non-empty one, and drops only empty pieces |
| Client.SplitPiecesWithoutSeparator | src/main/java/uk/ac/ed/inf/ClientIO.java:134 | a string without the separator splits into itself alone |
| Client.SplitPiecesAfterSeparator | src/main/java/uk/ac/ed/inf/ClientIO.java:134 | splitting a + sep + b gives a, then the pieces of b |
| Client.SplitPiecesCount | src/main/java/uk/ac/ed/inf/ClientIO.java:134 | there is one more piece than there are separators |
| Client.FileNameOfAppDate | src/main/java/uk/ac/ed/inf/ClientIO.java:132-141 | for a date month/day/year the file name is drone-day-month-year.geojson |
| Client.FileNameOfDateWithoutYear | src/main/java/uk/ac/ed/inf/ClientIO.java:134-137 | a date with an empty year loses its last piece to split, so splitDate[2] throws |
| Client.FileNameNeedsTwoSeparators | src/main/java/uk/ac/ed/inf/ClientIO.java:134-137 | a date with fewer than two '/' throws ArrayIndexOutOfBounds |
| Client.W3WPath | src/main/java/uk/ac/ed/inf/ClientIO.java:158 | replaceAll("\\.", "/") keeps the length and replaces exactly the dots by slashes |
| Client.W3WPathWithoutDots | src/main/java/uk/ac/ed/inf/ClientIO.java:158 | a word without dots is unchanged |
| Client.W3WPathConcat | src/main/java/uk/ac/ed/inf/ClientIO.java:158 | the replacement distributes over concatenation |
| Client.W3WPathDot | src/main/java/uk/ac/ed/inf/ClientIO.java:158 | a dot before a dot-free word becomes a slash |
| Client.EndpointOfThreeWords | src/main/java/uk/ac/ed/inf/ClientIO.java:158-160 | first.second.third is looked up at http://machine:port/words/first/second/third/details.json |
| Client.W3WCoordinates | src/main/java/uk/ac/ed/inf/ClientIO.java:156-183 | a failed lookup gives the position (0, 0); a successful one gives the coordinates the server sent |
| Client.JavaSplit | src/main/java/uk/ac/ed/inf/ClientIO.java:134 | String.split on one separator: the pieces between separators, with trailing empty pieces dropped |
| Client.GetFileName | src/main/java/uk/ac/ed/inf/ClientIO.java:132-141 | `drone-DD-MM-YYYY.geojson` from the first three pieces of the date; fewer than three pieces throw ArrayIndexOutOfBounds |
| Client.W3WEndpoint | src/main/java/uk/ac/ed/inf/ClientIO.java:158-160 | the request URL built from host, port and the three words with their dots turned into slashes |
| GeoData.CollectStopsAtNull | src/main/java/uk/ac/ed/inf/GeoClient.java:37-45 | a null feature ends the collection: nothing after it is kept |
| GeoData.CollectWithoutNulls | src/main/java/uk/ac/ed/inf/GeoClient.java:37-45 | without null features, x is collected exactly when some feature's geometry yields x |
| GeoData.CollectFeatures | src/main/java/uk/ac/ed/inf/GeoClient.java:37-45 | the loop over the features equals Collect |
| GeoData.FindAllLandMarks | src/main/java/uk/ac/ed/inf/GeoClient.java:24-51 | a null collection or feature list throws NullPointerException; otherwise the result is the points of the features, up to the first null feature |
| GeoData.GetNoFlyZones | src/main/java/uk/ac/ed/inf/GeoClient.java:63-86 | a null collection or feature list throws NullPointerException; otherwise the result is the outer rings of the polygon features, up to the first null feature |
| GeoData.RingBorders | src/main/java/uk/ac/ed/inf/GeoClient.java:103-109 | a ring of n points has n - 1 sides, and side i joins point i to point i + 1 |
| GeoData.RingBordersStep | src/main/java/uk/ac/ed/inf/GeoClient.java:103-109 | one more point adds exactly the side from the previous point |
| GeoData.BordersHoldEverySide | src/main/java/uk/ac/ed/inf/GeoClient.java:95-112 | every side of every zone is among the borders |
| GeoData.BordersAreSides | src/main/java/uk/ac/ed/inf/GeoClient.java:95-112 | every border is a side of some zone |
| GeoData.AddRingBorders | src/main/java/uk/ac/ed/inf/GeoClient.java:103-109 | the inner loop appends the zone's sides to the borders so far |
| GeoData.GetPolygonBorders | src/main/java/uk/ac/ed/inf/GeoClient.java:95-112 | the exceptions of getNoFlyZones propagate; otherwise the result is the sides of all no-fly zones |
| GeoData.Collect | src/main/java/uk/ac/ed/inf/GeoClient.java:37-45 | the picked geometries of the features in order, stopping at the first null feature |
| GeoData.Borders | src/main/java/uk/ac/ed/inf/GeoClient.java:95-112 | the borders of all outer rings, ring after ring, each ring giving one segment per pair of consecutive points |
| Restaurants.MenuMapKeys | src/main/java/uk/ac/ed/inf/Restaurant.java:84-90 | an item has a price exactly when the menu lists it |
| Restaurants.MenuMapLastEntryWins | src/main/java/uk/ac/ed/inf/Restaurant.java:84-90 | an item's price is that of its last menu entry |
| Restaurants.Restaurant.constructor | src/main/java/uk/ac/ed/inf/Restaurant.java:39-45 | keeps name, location and menu, and replaces the given map by the one built from the menu |
| Restaurants.Restaurant.SetMenuMap | src/main/java/uk/ac/ed/inf/Restaurant.java:84-90 | the menu map becomes the one built from the menu, and nothing else changes |
| Restaurants.MenuMapOf | src/main/java/uk/ac/ed/inf/Restaurant.java:84-90 | the menu put into a map entry by entry, so a later entry for the same item overwrites an earlier one |
| Pricing.ItemCountOutOfRangeCostsNothing | src/main/java/uk/ac/ed/inf/Menus.java:111 | an order of no items or of more than four costs 0 |
| Pricing.TooManyRestaurantsCostsNothing | src/main/java/uk/ac/ed/inf/Menus.java:126-129 | an order that needs more than two restaurants costs 0 |
| Pricing.UnsoldItemPricesNothing | src/main/java/uk/ac/ed/inf/Menus.java:115-121 | an item no restaurant sells adds no price and no restaurant |
| Pricing.UnsoldItemAddsNothing | src/main/java/uk/ac/ed/inf/Menus.java:113-122 | adding such an item to an order changes neither total nor restaurants |
| Pricing.UnsoldItemsTotalNothing | src/main/java/uk/ac/ed/inf/Menus.java:113-122 | an order of unsold items has item total 0 and no restaurants |
| Pricing.UnsoldOrderCostsDeliveryCharge | src/main/java/uk/ac/ed/inf/Menus.java:102-132 | one to four unsold items cost exactly the 50p delivery charge |
| Pricing.PriceAcrossNonNegative | src/main/java/uk/ac/ed/inf/Menus.java:115-121 | with non-negative prices an item's price across restaurants is non-negative |
| Pricing.ItemsTotalNonNegative | src/main/java/uk/ac/ed/inf/Menus.java:113-122 | with non-negative prices the items' total is non-negative |
| Pricing.ValidOrderCostsAtLeastDeliveryCharge | src/main/java/uk/ac/ed/inf/Menus.java:102-132 | with non-negative prices a delivery costs 0 or at least the delivery charge |
| Pricing.SoldTwiceChargedTwice | src/main/java/uk/ac/ed/inf/Menus.java:115-121 | an item sold by two restaurants is charged by both, and both count as visited |
| Pricing.ItemsTotalStep | src/main/java/uk/ac/ed/inf/Menus.java:113-122 | one more item adds its price across restaurants and its sellers |
| Pricing.PriceAcrossStep | src/main/java/uk/ac/ed/inf/Menus.java:115-121 | one more restaurant adds its price for the item and, if it sells it, itself |
| Pricing.Menus.constructor | src/main/java/uk/ac/ed/inf/Menus.java:49-53 | keeps the machine name, the port and the restaurant list |
| Pricing.Menus.GetDeliveryCost | src/main/java/uk/ac/ed/inf/Menus.java:102-132 | the nested loops compute DeliveryCost, whose laws are the lemmas above |
| Pricing.Menus.AddItem | src/main/java/uk/ac/ed/inf/Menus.java:115-121 | the inner loop adds the item's price across all restaurants and their set |
| Pricing.Price | src/main/java/uk/ac/ed/inf/Menus.java:116-120 | a restaurant charges its menu price for an item it sells and nothing otherwise |
| Pricing.PriceAcross | src/main/java/uk/ac/ed/inf/Menus.java:115-121 | an item is charged once for every restaurant of the list that sells it |
| Pricing.Sellers | src/main/java/uk/ac/ed/inf/Menus.java:113-121 | the restaurants that sell some item of the order |
| Pricing.ItemsTotal | src/main/java/uk/ac/ed/inf/Menus.java:113-122 | the sum over the items of their prices across restaurants |
| Pricing.DeliveryCost | src/main/java/uk/ac/ed/inf/Menus.java:102-132 | 0 unless the order has 1 to 4 items drawn from at most two restaurants; otherwise the items' total plus the 50p charge |
| Orders.OrderCostIgnoresReceiver | src/main/java/uk/ac/ed/inf/Order.java:112-114 | getOrderCost depends only on the menu and the argument's items |
| Orders.CompareToIsAntisymmetric | src/main/java/uk/ac/ed/inf/Order.java:102-104 | orders on the same menu: an order compares 0 to itself; comparison is antisymmetric; its value is the difference of costs |
| Orders.InsertByCost | src/main/java/uk/ac/ed/inf/Drone.java:198 | inserting into a list descending by cost keeps it descending and adds exactly one element |
| Orders.SortByCostDescending | src/main/java/uk/ac/ed/inf/Drone.java:198 | the sort is descending by cost and a permutation |
| Orders.SortByCostIsStable | src/main/java/uk/ac/ed/inf/Drone.java:198 | orders of equal cost keep their input order, as List.sort does |
| Orders.InsertByCostIsStable | src/main/java/uk/ac/ed/inf/Drone.java:198 | insertion puts a new element before the equal-cost ones, which keep their order |
| Orders.OrderCost | src/main/java/uk/ac/ed/inf/Order.java:112-114 | the receiver's menu prices the argument's items |
| Orders.CompareTo | src/main/java/uk/ac/ed/inf/Order.java:102-104 | the receiver's price minus the argument's price, both priced by the receiver's menu |
| Routing.Tag | src/main/java/uk/ac/ed/inf/Drone.java:421-431 | every move is labelled with the order number and keeps its from, to and angle |
| Routing.TagAppend | src/main/java/uk/ac/ed/inf/Drone.java:421-431 | labelling one more step appends one move |
| Routing.DetourConsistent | src/main/java/uk/ac/ed/inf/Drone.java:404-426 | a detour that is not abandoned ends close to the nearest landmark, with the moves chained from the start, the drone where they end, and the restart counter unchanged |
| Routing.ScanConsistent | src/main/java/uk/ac/ed/inf/Drone.java:396-428 | a successful scan over the perimeters keeps the moves chained from the start |
| Routing.TravelLoopArrives | src/main/java/uk/ac/ed/inf/Drone.java:389-435 | when the main loop ends normally the moves are chained from the start and the drone is close to the target |
| Routing.TravelChainsToTarget | src/main/java/uk/ac/ed/inf/Drone.java:381-448 | a route that is found is chained from the start and ends close to the target; exactly when the target is not Appleton Tower, one hover move in place is appended |
| Routing.AlreadyThere | src/main/java/uk/ac/ed/inf/Drone.java:389-445 | a drone already close to the target flies nothing: the route is empty, or the hover alone |
| Routing.ScanWithoutPerimeters | src/main/java/uk/ac/ed/inf/Drone.java:396-428 | with no no-fly zones a step is never blocked |
| Routing.NoPerimetersNoDetour | src/main/java/uk/ac/ed/inf/Drone.java:389-435 | with no no-fly zones the route is never null; it can only fail by running out of its bound |
| Routing.Detour | src/main/java/uk/ac/ed/inf/Drone.java:406-425 | the detour steps towards the nearest landmark until close to it, giving up when the counter has reached the number of landmarks or a step crosses a perimeter |
| Routing.Scan | src/main/java/uk/ac/ed/inf/Drone.java:396-428 | each perimeter the candidate step intersects resets the moves and position to the start, runs a detour and increments the counter |
| Routing.TravelLoop | src/main/java/uk/ac/ed/inf/Drone.java:389-435 | until close to the target the drone heads for it, the scan may rewrite the state, and the move to newPosition is recorded with the original angle |
| Routing.Travel | src/main/java/uk/ac/ed/inf/Drone.java:381-448 | the main loop from the start with no moves and counter 0, then the landing |
| Routing.Landing | src/main/java/uk/ac/ed/inf/Drone.java:437-447 | a route that was found gets one hover move in place unless the target is Appleton Tower; null and exceptions pass through |
| Routing.NearestLandmark | src/main/java/uk/ac/ed/inf/Drone.java:404 | the head of the landmarks ordered by distance from the given position |
| Routing.DetourNull | src/main/java/uk/ac/ed/inf/Drone.java:406-419 | a detour returns null only from a point not close to the landmark, and only because the counter has reached the number of landmarks or its walk is blocked by a perimeter within the bound |
| Routing.ScanNull | src/main/java/uk/ac/ed/inf/Drone.java:396-428 | a scan keeps every retry accounted for: the counter is 0, or the walk from the start reaches its landmark. It returns null only for the reasons TravelNull states |
| Routing.TravelLoopNull | src/main/java/uk/ac/ed/inf/Drone.java:389-435 | the main loop returns null only for the reasons TravelNull states |
| Routing.TravelNull | src/main/java/uk/ac/ed/inf/Drone.java:381-448 | travelToPosition returns null only when there are landmarks and perimeters, the start is not close to its nearest landmark, and the walk from the start towards it is either blocked within the bound or arrives; in the second case the null came from the counter reaching the number of landmarks |
| Routing.BlockedNeverArrives | src/main/java/uk/ac/ed/inf/Drone.java:406-425 | a detour walk that is blocked never reaches the landmark, so the two reasons for a null route are distinct |
| Routing.DetourArrives | src/main/java/uk/ac/ed/inf/Drone.java:406-425 | a detour that finds its landmark has walked there in at most fuel steps, none of them blocked |
| Routing.DetourBlocked | src/main/java/uk/ac/ed/inf/Drone.java:406-419 | conversely, with the counter below the number of landmarks, a walk blocked within the bound makes the detour null |
| Routing.ScanBlocked | src/main/java/uk/ac/ed/inf/Drone.java:396-419 | a scan is null when a remaining perimeter meets the step and the walk from the start is blocked |
| Routing.TravelBlocked | src/main/java/uk/ac/ed/inf/Drone.java:381-419 | conversely, a first step that meets a perimeter, with the walk from the start blocked within the bound, makes travelToPosition return null |
| Delivery.AddSellersProperties | src/main/java/uk/ac/ed/inf/Drone.java:128-137 | one item's pass adds only restaurants that sell it, adds every seller by name, and keeps names distinct |
| Delivery.UniqueRestaurantsProperties | src/main/java/uk/ac/ed/inf/Drone.java:119-140 | the restaurants to visit have distinct names, each sells some item of the order, and every seller of an item is among them by name |
| Delivery.UnsoldItemsNoRestaurants | src/main/java/uk/ac/ed/inf/Drone.java:119-140 | an order no restaurant can serve needs no restaurant |
| Delivery.UnsoldItemNoSellers | src/main/java/uk/ac/ed/inf/Drone.java:128-137 | an item no restaurant sells adds nothing |
| Delivery.SortRestaurants | src/main/java/uk/ac/ed/inf/Drone.java:154-188 | no restaurants throws (get(0)); one is returned as is; three or more give null; two are returned nearest first, in input order when the first is no farther |
| Delivery.Priced | src/main/java/uk/ac/ed/inf/Drone.java:198 | each order is paired with its delivery cost, in the input order |
| Delivery.OrdersOf | src/main/java/uk/ac/ed/inf/Drone.java:198 | dropping the costs keeps the orders in place |
| Delivery.SortedByCostPermutes | src/main/java/uk/ac/ed/inf/Drone.java:198 | the sorted orders are a permutation of the day's orders |
| Delivery.SortedByCostDescends | src/main/java/uk/ac/ed/inf/Drone.java:198 | the sorted orders are in non-increasing order of cost |
| Delivery.SortedKeepsMenus | src/main/java/uk/ac/ed/inf/Drone.java:198 | sorting keeps every order on the drone's menu |
| Delivery.SkippedOrders | src/main/java/uk/ac/ed/inf/Drone.java:204-211 | an order that costs 0, or whose restaurants sortRestaurants refuses (null, three or more), changes nothing and keeps the drone where it was |
| Delivery.UnsoldOrderStopsTheDay | src/main/java/uk/ac/ed/inf/Drone.java:204-209 | an order of one to four items no restaurant sells costs 50p, is not skipped, and sortRestaurants' get(0) on the empty list throws |
| Delivery.CommitKeepsReturn | src/main/java/uk/ac/ed/inf/Drone.java:285-290 | committing after a non-negative moves-left check keeps the way back within the budget; the flight path grows by exactly the moves the budget loses |
| Delivery.SettledKeepsReturn | src/main/java/uk/ac/ed/inf/Drone.java:283-295 | the moves-left decision either commits, keeping the way back within budget, or leaves flight path and budget untouched |
| Delivery.DroppedOffKeepsReturn | src/main/java/uk/ac/ed/inf/Drone.java:274-295 | the same holds after the drop-off route is planned |
| Delivery.PickedUpKeepsReturn | src/main/java/uk/ac/ed/inf/Drone.java:271-295 | the same holds after the pick-up route is planned |
| Delivery.OrderRouteKeepsReturn | src/main/java/uk/ac/ed/inf/Drone.java:263-296 | singleOrderRoute either commits the whole route with the way back still fitting, or leaves flight path and budget as they were |
| Delivery.RecordedKeepsReturn | src/main/java/uk/ac/ed/inf/Drone.java:213-216 | recording the route's answer: delivered (flight path grown, order appended, drone at the last move) or untouched |
| Delivery.OrderStepOutcome | src/main/java/uk/ac/ed/inf/Drone.java:204-216 | one iteration keeps the way back within budget, and an order is delivered only if it costs something |
| Delivery.DayLoopOutcome | src/main/java/uk/ac/ed/inf/Drone.java:203-217 | the loop only extends the flight path and the delivered orders; every order it delivers is one of the day's orders with a non-zero cost; the way back keeps fitting |
| Delivery.TravelArrives | src/main/java/uk/ac/ed/inf/Drone.java:381-435 | every route to Appleton Tower that travelToPosition finds ends close to it |
| Delivery.DayEndReturns | src/main/java/uk/ac/ed/inf/Drone.java:219-221 | the final leg keeps the flight path as a prefix, fits in the moves left and ends close to Appleton Tower |
| Delivery.FlownDayWithinBudget | src/main/java/uk/ac/ed/inf/Drone.java:200-221 | flying sorted orders: the flight path grows within the budget, ends close to Appleton Tower, and delivers only paying orders of the list |
| Delivery.GreedyDayWithinBudget | src/main/java/uk/ac/ed/inf/Drone.java:196-227 | the same for the day's orders: only orders of the day that cost something are delivered |
| Delivery.FreshDayWithinBudget | src/main/java/uk/ac/ed/inf/Drone.java:196-227 | a day that ends normally flies at least one and at most 1500 moves and ends close to Appleton Tower |
| Delivery.VisitedPositions | src/main/java/uk/ac/ed/inf/Drone.java:238-246 | Appleton Tower, then the end of each move in order |
| Delivery.TotalValueAppend | src/main/java/uk/ac/ed/inf/Drone.java:469-475 | the value of two lists of orders is the sum of their values |
| Delivery.TotalValuePermutation | src/main/java/uk/ac/ed/inf/Drone.java:469-475 | the value does not depend on the order of the orders |
| Delivery.TotalValueNonNegative | src/main/java/uk/ac/ed/inf/Drone.java:469-475 | with non-negative prices the value is non-negative |
| Delivery.AddSellers | src/main/java/uk/ac/ed/inf/Drone.java:128-137 | the inner loop over the restaurant list: each restaurant that sells the item is appended unless its name is already there |
| Delivery.UniqueRestaurants | src/main/java/uk/ac/ed/inf/Drone.java:119-140 | the inner loop run item after item from an empty list |
| Delivery.Selling | src/main/java/uk/ac/ed/inf/Drone.java:128-130 | the restaurants of the list that sell an item, in list order |
| Delivery.SellerScan | src/main/java/uk/ac/ed/inf/Drone.java:127-130 | every seller the nested loops meet: item by item, each item's sellers in list order |
| Delivery.FirstOfEachName | src/main/java/uk/ac/ed/inf/Drone.java:131-135 | reference deduplication: each restaurant is appended unless its name is already present |
| Delivery.SellingInListOrder | src/main/java/uk/ac/ed/inf/Drone.java:128-130 | Selling lists exactly the sellers of the item, at increasing list positions |
| Delivery.AddSellersIsFirstOfEachName | src/main/java/uk/ac/ed/inf/Drone.java:128-137 | the inner loop deduplicates the item's sellers onto the list built so far |
| Delivery.FirstOfEachNameAppend | src/main/java/uk/ac/ed/inf/Drone.java:127-138 | deduplicating a concatenation is deduplicating the second part onto the result of the first |
| Delivery.UniqueRestaurantsIsFirstOfEachName | src/main/java/uk/ac/ed/inf/Drone.java:119-140 | getUniqueRestaurants is the deduplication of SellerScan |
| Delivery.FirstOfEachNameKeepsNames | src/main/java/uk/ac/ed/inf/Drone.java:131-135 | the deduplication loses no name |
| Delivery.FirstOfEachNameOrder | src/main/java/uk/ac/ed/inf/Drone.java:131-135 | the deduplication keeps, of each name, the first entry met, at increasing positions |
| Delivery.UniqueRestaurantsInScanOrder | src/main/java/uk/ac/ed/inf/Drone.java:119-140 | the i-th restaurant to visit is the first one the loops meet with its name (items in order, then list position); they are listed in the order first met; every seller's name is among them |
| Delivery.RestaurantPath | src/main/java/uk/ac/ed/inf/Drone.java:325-347 | the legs to the restaurants in turn, each starting where the path so far ends; a null leg makes the path null |
| Delivery.MovesLeft | src/main/java/uk/ac/ed/inf/Drone.java:360-368 | the budget minus the route and the way back to Appleton Tower; Integer.MIN_VALUE when there is no way back |
| Delivery.Committed | src/main/java/uk/ac/ed/inf/Drone.java:308-314 | the flightpath gains the pick-up then drop-off moves, the budget loses their number, and iterations continue |
| Delivery.OrderRoute | src/main/java/uk/ac/ed/inf/Drone.java:263-296 | more than two restaurants, a null pick-up or a null drop-off refuses the order; otherwise a non-negative moves-left commits the route, and a negative one leaves the flight path and the budget as they were and sets continueIterations to false, so this order is not recorded; later orders are still tried. Either way the answer is true |
| Delivery.PickedUp | src/main/java/uk/ac/ed/inf/Drone.java:271-281 | a null pick-up path refuses the order and an empty one throws at get; otherwise the drop-off leg is planned from where the pick-up ends to the customer's location |
| Delivery.DroppedOff | src/main/java/uk/ac/ed/inf/Drone.java:277-290 | a null drop-off leg refuses the order; otherwise the moves left are computed for the pick-up and drop-off moves together |
| Delivery.Settled | src/main/java/uk/ac/ed/inf/Drone.java:283-295 | a non-negative moves-left commits the route; a negative one leaves the flight path and the budget as they were and clears continueIterations; either way the answer is true |
| Delivery.OrderStep | src/main/java/uk/ac/ed/inf/Drone.java:204-216 | a zero-cost order or a null restaurant order is skipped; otherwise the order is routed and recorded |
| Delivery.Recorded | src/main/java/uk/ac/ed/inf/Drone.java:213-216 | a delivered order with iterations continuing is added to the day's orders and the next starts where the flightpath ends |
| Delivery.DayLoop | src/main/java/uk/ac/ed/inf/Drone.java:203-217 | the loop over the sorted orders, stopping at the first exception |
| Delivery.SortedByCost | src/main/java/uk/ac/ed/inf/Drone.java:198 | the orders stably sorted by descending price |
| Delivery.GreedyDay | src/main/java/uk/ac/ed/inf/Drone.java:196-227 | sort, loop from Appleton Tower, then fly back labelled with the last order's number |
| Delivery.FlownDay | src/main/java/uk/ac/ed/inf/Drone.java:200-221 | over orders already sorted: the loop from Appleton Tower, then the way back |
| Delivery.DayEnd | src/main/java/uk/ac/ed/inf/Drone.java:219-221 | an empty order list or flightpath throws at get; a null way back throws in addAll; otherwise the way back is appended |
| Delivery.TotalValue | src/main/java/uk/ac/ed/inf/Drone.java:469-475 | the sum of the orders' delivery costs |
| Delivery.OfCost | src/main/java/uk/ac/ed/inf/Drone.java:198 | the orders of a given price, in their order |
| Delivery.OrdersOfWithCost | src/main/java/uk/ac/ed/inf/Drone.java:198 | picking the orders of one price commutes with dropping the prices |
| Delivery.SortedByCostIsStable | src/main/java/uk/ac/ed/inf/Drone.java:198 | orders of equal price keep their input order in the sorted list |
| Delivery.Drone.constructor | src/main/java/uk/ac/ed/inf/Drone.java:71-77 | a fresh drone: 1500 moves, continueIterations true, nothing flown or delivered, surroundings as given |
| Delivery.Drone.DetourToLandmark | src/main/java/uk/ac/ed/inf/Drone.java:406-425 | the detour loop computes Detour, with its moves labelled by the order number |
| Delivery.Drone.ScanPerimeters | src/main/java/uk/ac/ed/inf/Drone.java:396-428 | the for loop over the perimeters computes Scan |
| Delivery.Drone.FlyTowards | src/main/java/uk/ac/ed/inf/Drone.java:384-435 | the main while loop computes TravelLoop |
| Delivery.Drone.TravelToPosition | src/main/java/uk/ac/ed/inf/Drone.java:381-448 | the route is Routing.Travel labelled by the order number, whose guarantees are TravelChainsToTarget and AlreadyThere |
| Delivery.Drone.GetUniqueRestaurants | src/main/java/uk/ac/ed/inf/Drone.java:119-140 | the nested loops compute UniqueRestaurants (see UniqueRestaurantsProperties and UniqueRestaurantsInScanOrder) |
| Delivery.Drone.AddRestaurantsSelling | src/main/java/uk/ac/ed/inf/Drone.java:128-137 | the inner loop computes AddSellers and keeps the name set equal to the names added |
| Delivery.Drone.GetRestaurantPath | src/main/java/uk/ac/ed/inf/Drone.java:325-347 | the loop over the restaurants computes RestaurantPath: null as soon as one leg is impossible |
| Delivery.Drone.GetMovesLeft | src/main/java/uk/ac/ed/inf/Drone.java:360-368 | Integer.MIN_VALUE when the way back is impossible; otherwise the budget minus the route minus the way back |
| Delivery.Drone.UpdateFlightpath | src/main/java/uk/ac/ed/inf/Drone.java:308-314 | pick-up then drop-off appended to the flight path, the budget reduced by their length, continueIterations true, nothing delivered |
| Delivery.Drone.SingleOrderRoute | src/main/java/uk/ac/ed/inf/Drone.java:263-296 | answer and new state are those of OrderRoute, whose guarantee is OrderRouteKeepsReturn |
| Delivery.Drone.NearestRestaurants | src/main/java/uk/ac/ed/inf/Drone.java:204-211 | a free order gives no restaurants; otherwise the restaurants to visit, nearest first |
| Delivery.Drone.RouteAndRecord | src/main/java/uk/ac/ed/inf/Drone.java:213-216 | the route is tried and, if delivered, the order is recorded and the drone stands at the last move |
| Delivery.Drone.DeliverOrder | src/main/java/uk/ac/ed/inf/Drone.java:204-216 | one iteration of the day's loop: its state and position are those of OrderStep |
| Delivery.Drone.DeliverAll | src/main/java/uk/ac/ed/inf/Drone.java:200-217 | the loop over the sorted orders ends in the state DayLoop gives, starting from Appleton Tower |
| Delivery.Drone.ReturnToBase | src/main/java/uk/ac/ed/inf/Drone.java:219-221 | the final leg as DayEnd: it throws when there are no orders or no moves, or when the way back is null; otherwise the way back is appended |
| Delivery.Drone.FlyDay | src/main/java/uk/ac/ed/inf/Drone.java:200-221 | the day over sorted orders ends in the state FlownDay gives |
| Delivery.Drone.GreedyOrdersInADay | src/main/java/uk/ac/ed/inf/Drone.java:196-227 | the day ends in the state GreedyDay gives, whose guarantees are GreedyDayWithinBudget and FreshDayWithinBudget |
| Delivery.Drone.GetAllMovesSingle | src/main/java/uk/ac/ed/inf/Drone.java:238-246 | the positions visited: Appleton Tower, then the end of each move |
| Delivery.Drone.MonetaryValue | src/main/java/uk/ac/ed/inf/Drone.java:469-475 | the sum of the orders' delivery costs (see the TotalValue lemmas) |

## Left out

- Floating-point arithmetic (`Math.sqrt`, `Math.sin`, `Math.cos`, `Math.atan2`, `Math.round`) is an uninterpreted `MathModel`. Distances are reals, and rounding error is not modelled.
- `Line2D.intersectsLine` is a function parameter; the geometry of segment intersection is not modelled.
- The HTTP requests and JSON parsing are not modelled. This covers `ClientIO.getRequest`, `ClientIO.getGeoJSON`, the Gson part of `getW3WCoordinates`, `Menus.getRestaurants` and `DatabaseClient`. Their answers are parameters: the lookup function, the feature collection, and the restaurant list given to the `Menus` constructor.
- `App.main` and the writing of the output files (`toGeoJSON`, the database tables) are I/O and are left out. `monetaryGain` (a ratio of doubles) and the `System.out` messages of greedyOrdersInADay are also left out.
- A GeoJSON polygon is its outer ring; holes are ignored, as the source reads only the first ring. Geometries other than points and polygons are `OtherGeometry`, which adds no landmark and no zone.
- Java `int` overflow of costs and move counts is not modelled: integers are unbounded.
- The two while loops of travelToPosition are not guaranteed to terminate. Each is modelled as running at most `fuel` iterations, and a run that would go longer is `Threw(Diverged)`. Routes longer than the bound are not described.
- The drone's state after an exception is not specified: the Outcome says which exception ends the day, not what was half-updated.
- Delivery.Drone.GreedyOrdersInADay requires every order to carry the drone's own `Menus`. DatabaseClient builds every order that way, and compareTo prices with the receiver's menu.
- Delivery.Drone.DetourToLandmark, ScanPerimeters, FlyTowards, AddRestaurantsSelling, NearestRestaurants, RouteAndRecord, DeliverOrder, DeliverAll, ReturnToBase, FlyDay, Pricing.Menus.AddItem, GeoData.CollectFeatures and GeoData.AddRingBorders are inner loops or stretches of one Java method. They are split out so that each is proved against one function; together they do what the one method does.
- `Collections.sort` of the distances and `List.sort(Collections.reverseOrder())` of the orders are modelled as insertion sorts by function (ascending; stable descending by cost), not as TimSort run in place.
- Getters and plain records (`FoodItem`, `Location`, `Coordinates`, `FlightpathMove`, the Order getters) are fields of datatypes. The landmarks and perimeters that `setConstants` fetches are constructor arguments of `Drone`, and `GeoData` computes them from a feature collection.
- travelToPosition compares `endPoint != appletonTower` by reference. The model passes that test as `isBase`. It is true for the two calls that pass the `appletonTower` object itself: the moves-left probe in getMovesLeft (Drone.java:361-362, `Delivery.MovesLeft`) and the final leg home. It is false for every other call.
- Routing.TravelNull: in the counter case the lemma shows the walk arrives, not that exactly as many detours as landmarks ran. It does not say where the main loop had got to. The converse, Routing.TravelBlocked, covers only a walk blocked on the first step's detour.
- The model does not claim that an accepted route never crosses a no-fly edge. The detour refuses a step that isIntersectingPath reports as crossing. The main loop's own step after a detour is never compared with the perimeters again, and the code does not promise it.
- Delivery.UnsoldOrderStopsTheDay records a behaviour of the code that may not be intended, without a corrected variant. An order of one to four items that no restaurant sells costs 50p, so it is not skipped. getUniqueRestaurants then finds no restaurant, and sortRestaurants throws at `get(0)`, ending the day. The intended fix cannot be told from the code, so no corrected member is given.
