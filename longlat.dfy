/**
 * Positions of the drone and the geometric primitives it moves with
 * (src/main/java/uk/ac/ed/inf/LongLat.java).
 *
 * Coordinates are reals. The transcendental functions the Java code calls
 * (Math.sqrt, Math.cos, Math.sin and the rounded Math.atan2 in degrees) are
 * not defined here: they are passed in as a MathModel, and only the control
 * logic around them is modelled and proved.
 */
module Geo {
  import opened Common

  /** A LongLat: longitude (x) and latitude (y). */
  datatype Pos = Pos(lon: real, lat: real)

  /** A java.awt.geom.Line2D.Double from x to y. */
  datatype Segment = Segment(x: Pos, y: Pos)

  /** The floating-point library functions LongLat uses, as opaque values.
      cosDeg and sinDeg stand for Math.cos(Math.toRadians(a)) and
      Math.sin(Math.toRadians(a)); roundedAtan2Deg(dy, dx) stands for
      Math.round(Math.toDegrees(Math.atan2(dy, dx))). */
  datatype MathModel = MathModel(
    sqrt: real -> real,
    cosDeg: int -> real,
    sinDeg: int -> real,
    roundedAtan2Deg: (real, real) -> int)

  /** What the real library guarantees and the proofs below rely on:
      sqrt(0) = 0, sqrt of a positive number is positive, and atan2 in
      degrees, rounded, lies in [-180, 180]. */
  ghost predicate Sound(m: MathModel)
  {
    && m.sqrt(0.0) == 0.0
    && (forall x: real :: x > 0.0 ==> m.sqrt(x) > 0.0)
    && (forall dy: real, dx: real :: -180 <= m.roundedAtan2Deg(dy, dx) <= 180)
  }

  // The confinement box: Appleton Tower, KFC, Buccleuch St bus stop, top of the Meadows.
  const EAST_LONGITUDE: real := -3.184319
  const WEST_LONGITUDE: real := -3.192473
  const SOUTH_LATITUDE: real := 55.942617
  const NORTH_LATITUDE: real := 55.946233

  const DISTANCE_TOLERANCE: real := 0.00015
  const DRONE_MOVE_LENGTH: real := 0.00015
  const HOVERING_ANGLE: int := -999

  /** Strictly inside the confinement box; the box's edges are outside. */
  predicate IsConfined(p: Pos)
  {
    && WEST_LONGITUDE < p.lon
    && p.lon < EAST_LONGITUDE
    && SOUTH_LATITUDE < p.lat
    && NORTH_LATITUDE > p.lat
  }

  /** The four edges of the box are not confined: every inequality is strict. */
  lemma EdgesAreNotConfined(p: Pos)
    requires p.lon == WEST_LONGITUDE || p.lon == EAST_LONGITUDE
          || p.lat == SOUTH_LATITUDE || p.lat == NORTH_LATITUDE
    ensures !IsConfined(p)
  {
  }

  function Sq(x: real): real { x * x }

  /** Euclidean distance in coordinate space. */
  function Distance(m: MathModel, a: Pos, b: Pos): real
  {
    m.sqrt(Sq(a.lon - b.lon) + Sq(a.lat - b.lat))
  }

  lemma DistanceSymmetric(m: MathModel, a: Pos, b: Pos)
    ensures Distance(m, a, b) == Distance(m, b, a)
  {
    assert Sq(a.lon - b.lon) == Sq(b.lon - a.lon);
    assert Sq(a.lat - b.lat) == Sq(b.lat - a.lat);
  }

  lemma DistanceToSelf(m: MathModel, a: Pos)
    requires Sound(m)
    ensures Distance(m, a, a) == 0.0
  {
  }

  /** "Arrived": nearer than one move length. */
  predicate CloseTo(m: MathModel, a: Pos, b: Pos)
  {
    Distance(m, a, b) < DISTANCE_TOLERANCE
  }

  /** Every point is close to itself, so a router asked to go where it is
      makes no directional move. */
  lemma CloseToSelf(m: MathModel, a: Pos)
    requires Sound(m)
    ensures CloseTo(m, a, a)
  {
  }

  /** One of the 36 compass headings 0, 10, ..., 350. */
  predicate ValidAngle(a: int)
  {
    0 <= a <= 350 && a % 10 == 0
  }

  /** The position one move away in direction `angle`, before confinement. */
  function Displaced(m: MathModel, p: Pos, angle: int): Pos
  {
    Pos(p.lon + DRONE_MOVE_LENGTH * m.cosDeg(angle), p.lat + DRONE_MOVE_LENGTH * m.sinDeg(angle))
  }

  /** The drone's position after one move. Hovering and invalid headings do
      not move; neither does a move that would leave the box. */
  function NextPosition(m: MathModel, p: Pos, angle: int): (r: Pos)
    ensures angle == HOVERING_ANGLE ==> r == p
    ensures !ValidAngle(angle) ==> r == p
    ensures r == p || IsConfined(r)
    ensures r != p ==> ValidAngle(angle) && r == Displaced(m, p, angle)
    ensures ValidAngle(angle) && IsConfined(Displaced(m, p, angle)) ==> r == Displaced(m, p, angle)
  {
    if angle == HOVERING_ANGLE then p
    else
      var newPosition := if ValidAngle(angle) then Displaced(m, p, angle) else p;
      if IsConfined(newPosition) then newPosition else p
  }

  /** Java's `/` on integers, which truncates toward zero. */
  function JavaDiv(a: int, b: int): int
    requires b > 0
  {
    if a >= 0 then a / b else -((-a) / b)
  }

  /** LongLat.getAngle after the rounded atan2: truncate the degree d to a
      multiple of ten toward zero, then move negative headings into [0, 360). */
  function Quantise(d: int): (r: int)
    ensures -180 <= d <= 180 ==> ValidAngle(r)
    ensures 0 <= d ==> r <= d < r + 10
    ensures -180 <= d < 0 ==> if r == 0 then -10 < d else d <= r - 360 < d + 10
  {
    var angle := JavaDiv(d, 10) * 10;
    if angle < 0 then angle + 360 else angle
  }

  /** The heading from `from` towards `goal`. */
  function GetAngle(m: MathModel, from: Pos, goal: Pos): (r: int)
    ensures Sound(m) ==> ValidAngle(r)
  {
    Quantise(m.roundedAtan2Deg(goal.lat - from.lat, goal.lon - from.lon))
  }

  /** A quantised heading is always one that NextPosition accepts: the move
      it produces is either the full displacement or, outside the box, none. */
  lemma HeadingIsAccepted(m: MathModel, from: Pos, goal: Pos)
    requires Sound(m)
    ensures var a := GetAngle(m, from, goal);
            NextPosition(m, from, a) == (if IsConfined(Displaced(m, from, a)) then Displaced(m, from, a) else from)
  {
  }

  // ---------------------------------------------------------------------
  // Obstacle test (LongLat.isIntersectingPath)

  /** Reference definition: some perimeter is crossed by the path from
      `from` to `to`. The path is the receiver of intersectsLine. */
  predicate Crosses(intersects: (Segment, Segment) -> bool, from: Pos, to: Pos, perimeters: seq<Segment>)
  {
    exists i :: 0 <= i < |perimeters| && intersects(Segment(from, to), perimeters[i])
  }

  method IsIntersectingPath(intersects: (Segment, Segment) -> bool, from: Pos, to: Pos, perimeters: seq<Segment>)
    returns (b: bool)
    ensures b <==> exists i :: 0 <= i < |perimeters| && intersects(Segment(from, to), perimeters[i])
  {
    var line := Segment(from, to);
    var k := 0;
    while k < |perimeters|
      invariant 0 <= k <= |perimeters|
      invariant forall i :: 0 <= i < k ==> !intersects(line, perimeters[i])
    {
      if intersects(line, perimeters[k]) {
        return true;
      }
      k := k + 1;
    }
    return false;
  }

  // ---------------------------------------------------------------------
  // Proximity sort (LongLat.sortLongLats and getOrdering)

  /** The distances from p to each location, in input order. */
  function Distances(m: MathModel, p: Pos, ls: seq<Pos>): (ds: seq<real>)
    ensures |ds| == |ls|
    ensures forall i :: 0 <= i < |ls| ==> ds[i] == Distance(m, p, ls[i])
  {
    if |ls| == 0 then [] else Distances(m, p, ls[..|ls| - 1]) + [Distance(m, p, ls[|ls| - 1])]
  }

  /** The HashMap from distance to location: a later location at the same
      distance overwrites an earlier one. */
  function DistanceMap(m: MathModel, p: Pos, ls: seq<Pos>): (dm: map<real, Pos>)
  {
    if |ls| == 0 then map[]
    else DistanceMap(m, p, ls[..|ls| - 1])[Distance(m, p, ls[|ls| - 1]) := ls[|ls| - 1]]
  }

  /** The distance map's keys are exactly the distances of the locations. */
  lemma {:induction false} DistanceMapKeys(m: MathModel, p: Pos, ls: seq<Pos>, d: real)
    ensures d in DistanceMap(m, p, ls) <==> exists k :: 0 <= k < |ls| && Distance(m, p, ls[k]) == d
  {
    if |ls| > 0 {
      var init := ls[..|ls| - 1];
      DistanceMapKeys(m, p, init, d);
      if exists k :: 0 <= k < |ls| && Distance(m, p, ls[k]) == d {
        var k :| 0 <= k < |ls| && Distance(m, p, ls[k]) == d;
        if k < |ls| - 1 {
          assert init[k] == ls[k];
        }
      }
    }
  }

  /** Each distance key holds the LAST location in `ls` at that distance:
      equidistant locations collapse to the one inserted last. */
  lemma {:induction false} DistanceMapHoldsLast(m: MathModel, p: Pos, ls: seq<Pos>, d: real) returns (j: nat)
    requires d in DistanceMap(m, p, ls)
    ensures j < |ls| && DistanceMap(m, p, ls)[d] == ls[j] && Distance(m, p, ls[j]) == d
    ensures forall k :: j < k < |ls| ==> Distance(m, p, ls[k]) != d
  {
    var last := |ls| - 1;
    if Distance(m, p, ls[last]) == d {
      j := last;
    } else {
      var init := ls[..last];
      j := DistanceMapHoldsLast(m, p, init, d);
      assert init[j] == ls[j];
      forall k | j < k < |ls|
        ensures Distance(m, p, ls[k]) != d
      {
        if k < last {
          assert init[k] == ls[k];
        }
      }
    }
  }

  predicate SortedReals(s: seq<real>)
  {
    forall i, j :: 0 <= i < j < |s| ==> s[i] <= s[j]
  }

  /** Insert x before the first element not smaller than it. */
  function InsertReal(x: real, s: seq<real>): (r: seq<real>)
    requires SortedReals(s)
    ensures SortedReals(r)
    ensures multiset(r) == multiset(s) + multiset{x}
    ensures |r| == |s| + 1
  {
    if s == [] then [x]
    else if x <= s[0] then [x] + s
    else
      var rest := InsertReal(x, s[1..]);
      assert s == [s[0]] + s[1..];
      InsertRealKeepsHead(x, s, rest);
      [s[0]] + rest
  }

  /** The head of a sorted sequence stays first when x, larger than it, is
      inserted into the tail. */
  lemma InsertRealKeepsHead(x: real, s: seq<real>, rest: seq<real>)
    requires SortedReals(s) && s != [] && s[0] < x
    requires SortedReals(rest) && multiset(rest) == multiset(s[1..]) + multiset{x}
    ensures SortedReals([s[0]] + rest)
  {
    forall i | 0 <= i < |rest|
      ensures s[0] <= rest[i]
    {
      assert rest[i] in multiset(rest);
      if rest[i] != x {
        assert rest[i] in s[1..];
      }
    }
  }

  /** Collections.sort on a list of Doubles: ascending order. */
  function SortReals(s: seq<real>): (r: seq<real>)
    ensures SortedReals(r)
    ensures multiset(r) == multiset(s)
    ensures |r| == |s|
  {
    if s == [] then []
    else
      assert s == [s[0]] + s[1..];
      InsertReal(s[0], SortReals(s[1..]))
  }

  /** getOrdering: look every sorted distance up in the map. */
  function Ordering(sorted: seq<real>, dm: map<real, Pos>): (r: seq<Pos>)
    requires forall i :: 0 <= i < |sorted| ==> sorted[i] in dm
    ensures |r| == |sorted|
    ensures forall i :: 0 <= i < |sorted| ==> r[i] == dm[sorted[i]]
  {
    if |sorted| == 0 then []
    else Ordering(sorted[..|sorted| - 1], dm) + [dm[sorted[|sorted| - 1]]]
  }

  lemma SortedDistancesAreKeys(m: MathModel, p: Pos, ls: seq<Pos>)
    ensures forall i :: 0 <= i < |ls| ==> SortReals(Distances(m, p, ls))[i] in DistanceMap(m, p, ls)
  {
    var ds := Distances(m, p, ls);
    var sorted := SortReals(ds);
    forall i | 0 <= i < |ls|
      ensures sorted[i] in DistanceMap(m, p, ls)
    {
      assert sorted[i] in multiset(sorted);
      DistanceIsKey(m, p, ls, sorted[i]);
    }
  }

  lemma DistanceIsKey(m: MathModel, p: Pos, ls: seq<Pos>, d: real)
    requires d in multiset(SortReals(Distances(m, p, ls)))
    ensures d in DistanceMap(m, p, ls)
  {
    var ds := Distances(m, p, ls);
    assert d in multiset(ds);
    assert d in ds;
    var k :| 0 <= k < |ds| && ds[k] == d;
    assert Distance(m, p, ls[k]) == d;
    DistanceMapKeys(m, p, ls, d);
  }

  /** The specification of sortLongLats: the locations ordered by distance
      from p, each distance resolved through the distance map. */
  function ProximityOrder(m: MathModel, p: Pos, ls: seq<Pos>): (r: seq<Pos>)
    ensures |r| == |ls|
  {
    SortedDistancesAreKeys(m, p, ls);
    var ds := Distances(m, p, ls);
    Ordering(SortReals(ds), DistanceMap(m, p, ls))
  }

  /** sortLongLats keeps the length, takes every element from the input,
      puts at position i a location at the i-th smallest input distance,
      orders by non-decreasing distance, and resolves each distance to the
      last input location at that distance. */
  lemma ProximityOrderIsSorted(m: MathModel, p: Pos, ls: seq<Pos>)
    ensures |ProximityOrder(m, p, ls)| == |ls|
    ensures forall i :: 0 <= i < |ls| ==>
              Distance(m, p, ProximityOrder(m, p, ls)[i]) == SortReals(Distances(m, p, ls))[i]
    ensures forall i :: 0 <= i < |ls| ==> ProximityOrder(m, p, ls)[i] in ls
    ensures forall i, j :: 0 <= i < j < |ls| ==>
              Distance(m, p, ProximityOrder(m, p, ls)[i]) <= Distance(m, p, ProximityOrder(m, p, ls)[j])
    ensures forall i :: 0 <= i < |ls| ==>
              exists j :: 0 <= j < |ls| && ProximityOrder(m, p, ls)[i] == ls[j]
                          && forall k :: j < k < |ls| ==> Distance(m, p, ls[k]) != Distance(m, p, ls[j])
  {
    var ds := Distances(m, p, ls);
    var sorted := SortReals(ds);
    var dm := DistanceMap(m, p, ls);
    var r := ProximityOrder(m, p, ls);
    SortedDistancesAreKeys(m, p, ls);
    assert r == Ordering(sorted, dm);
    forall i | 0 <= i < |ls|
      ensures r[i] in ls
      ensures Distance(m, p, r[i]) == sorted[i]
      ensures exists j :: 0 <= j < |ls| && r[i] == ls[j]
                          && forall k :: j < k < |ls| ==> Distance(m, p, ls[k]) != Distance(m, p, ls[j])
    {
      var j := DistanceMapHoldsLast(m, p, ls, sorted[i]);
      assert r[i] == ls[j];
    }
  }

  /** The head of the proximity order is a nearest location. */
  lemma ProximityOrderHeadIsNearest(m: MathModel, p: Pos, ls: seq<Pos>)
    requires |ls| > 0
    ensures forall k :: 0 <= k < |ls| ==> Distance(m, p, ProximityOrder(m, p, ls)[0]) <= Distance(m, p, ls[k])
  {
    var ds := Distances(m, p, ls);
    var sorted := SortReals(ds);
    var r := ProximityOrder(m, p, ls);
    ProximityOrderIsSorted(m, p, ls);
    SortedDistancesAreKeys(m, p, ls);
    forall k | 0 <= k < |ls|
      ensures Distance(m, p, r[0]) <= Distance(m, p, ls[k])
    {
      assert ds[k] in multiset(sorted);
      var i :| 0 <= i < |sorted| && sorted[i] == ds[k];
      var j0 := DistanceMapHoldsLast(m, p, ls, sorted[0]);
      assert r[0] == ls[j0];
      assert Distance(m, p, r[0]) == sorted[0];
      assert sorted[0] <= sorted[i] by { if i > 0 { assert SortedReals(sorted); } }
    }
  }

  /** sortLongLats: fill the distance list and the distance map, sort the
      list, then read the locations back in sorted order. */
  method SortLongLats(m: MathModel, p: Pos, locationsToVisit: seq<Pos>) returns (r: seq<Pos>)
    ensures r == ProximityOrder(m, p, locationsToVisit)
  {
    var sortedLongLats: seq<real> := [];
    var distanceToLongLat: map<real, Pos> := map[];
    var i := 0;
    while i < |locationsToVisit|
      invariant 0 <= i <= |locationsToVisit|
      invariant sortedLongLats == Distances(m, p, locationsToVisit[..i])
      invariant distanceToLongLat == DistanceMap(m, p, locationsToVisit[..i])
    {
      var landmark := locationsToVisit[i];
      var distance := Distance(m, p, landmark);
      assert locationsToVisit[..i + 1][..i] == locationsToVisit[..i];
      distanceToLongLat := distanceToLongLat[distance := landmark];
      sortedLongLats := sortedLongLats + [distance];
      i := i + 1;
    }
    assert locationsToVisit[..i] == locationsToVisit;
    sortedLongLats := SortReals(sortedLongLats);
    SortedDistancesAreKeys(m, p, locationsToVisit);
    r := GetOrdering(sortedLongLats, distanceToLongLat);
  }

  method GetOrdering(sortedLongLats: seq<real>, distanceToLongLat: map<real, Pos>) returns (finalSorted: seq<Pos>)
    requires forall i :: 0 <= i < |sortedLongLats| ==> sortedLongLats[i] in distanceToLongLat
    ensures finalSorted == Ordering(sortedLongLats, distanceToLongLat)
  {
    finalSorted := [];
    var i := 0;
    while i < |sortedLongLats|
      invariant 0 <= i <= |sortedLongLats|
      invariant finalSorted == Ordering(sortedLongLats[..i], distanceToLongLat)
    {
      assert sortedLongLats[..i + 1][..i] == sortedLongLats[..i];
      finalSorted := finalSorted + [distanceToLongLat[sortedLongLats[i]]];
      i := i + 1;
    }
    assert sortedLongLats[..i] == sortedLongLats;
  }
}
