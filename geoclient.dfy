/**
 * GeoJSON to drone geometry (src/main/java/uk/ac/ed/inf/GeoClient.java):
 * the landmarks as positions and the no-fly zones as the segments of their
 * perimeters.
 *
 * The feature collection the web server returns is an argument; None stands
 * for a null collection or a null feature list, and a None entry for a null
 * feature. A mapbox Point always has a longitude and a latitude, and a
 * Polygon is represented by its outer ring, the only ring read here.
 */
module GeoData {
  import opened Common
  import opened Geo

  /** A feature's geometry. OtherGeometry stands for every other geometry
      kind and for a null geometry: both fail the instanceof tests. */
  datatype Geometry = Point(position: Pos) | Polygon(outer: seq<Pos>) | OtherGeometry

  datatype Feature = Feature(geometry: Geometry)

  datatype FeatureCollection = FeatureCollection(features: Option<seq<Option<Feature>>>)

  function PointOf(g: Geometry): Option<Pos>
  {
    if g.Point? then Some(g.position) else None
  }

  function PolygonOf(g: Geometry): Option<seq<Pos>>
  {
    if g.Polygon? then Some(g.outer) else None
  }

  /** What the for-each loops of findAllLandMarks and getNoFlyZones collect:
      the picked geometries in feature order, up to the first null feature,
      whose NullPointerException ends the loop and is caught, so that the
      list built so far is returned. */
  function Collect<X>(fs: seq<Option<Feature>>, pick: Geometry -> Option<X>): seq<X>
  {
    if |fs| == 0 || fs[0].None? then []
    else
      var g := pick(fs[0].value.geometry);
      (if g.Some? then [g.value] else []) + Collect(fs[1..], pick)
  }

  /** A null feature cuts the result off: nothing after it is collected. */
  lemma {:induction false} CollectStopsAtNull<X>(fs: seq<Option<Feature>>, pick: Geometry -> Option<X>, k: nat)
    requires k < |fs| && fs[k].None?
    ensures Collect(fs, pick) == Collect(fs[..k], pick)
  {
    if k > 0 && fs[0].Some? {
      CollectStopsAtNull(fs[1..], pick, k - 1);
      assert fs[..k][1..] == fs[1..][..k - 1];
    }
  }

  /** Without null features, exactly the picked geometries are collected. */
  lemma {:induction false} CollectWithoutNulls<X>(fs: seq<Option<Feature>>, pick: Geometry -> Option<X>, x: X)
    requires forall i :: 0 <= i < |fs| ==> fs[i].Some?
    ensures x in Collect(fs, pick) <==> exists i :: 0 <= i < |fs| && pick(fs[i].value.geometry) == Some(x)
  {
    if |fs| > 0 {
      CollectWithoutNulls(fs[1..], pick, x);
      if exists i :: 0 <= i < |fs| && pick(fs[i].value.geometry) == Some(x) {
        var i :| 0 <= i < |fs| && pick(fs[i].value.geometry) == Some(x);
        if i > 0 {
          assert fs[1..][i - 1] == fs[i];
        }
      }
      if x in Collect(fs[1..], pick) {
        var i :| 0 <= i < |fs[1..]| && pick(fs[1..][i].value.geometry) == Some(x);
        assert fs[i + 1] == fs[1..][i];
      }
    }
  }

  /** One more feature of the collecting loops: its picked geometry, if
      any, joins what has been collected. */
  lemma CollectAdvance<X>(fs: seq<Option<Feature>>, pick: Geometry -> Option<X>, acc: seq<X>, i: nat)
    requires i < |fs| && fs[i].Some?
    requires Collect(fs, pick) == acc + Collect(fs[i..], pick)
    ensures var g := pick(fs[i].value.geometry);
            Collect(fs, pick) == (if g.Some? then acc + [g.value] else acc) + Collect(fs[i + 1..], pick)
  {
    assert fs[i..][1..] == fs[i + 1..];
    var g := pick(fs[i].value.geometry);
    if g.Some? {
      assert acc + ([g.value] + Collect(fs[i + 1..], pick)) == (acc + [g.value]) + Collect(fs[i + 1..], pick);
    }
  }

  /** The collecting loops end at the end of the list or at a null feature,
      where nothing remains to be collected. */
  lemma CollectDone<X>(fs: seq<Option<Feature>>, pick: Geometry -> Option<X>, acc: seq<X>, i: nat)
    requires i <= |fs| && (i == |fs| || fs[i].None?)
    requires Collect(fs, pick) == acc + Collect(fs[i..], pick)
    ensures Collect(fs, pick) == acc
  {
    assert Collect(fs[i..], pick) == [];
    assert acc + [] == acc;
  }

  /** The for-each loop of findAllLandMarks and getNoFlyZones: the picked
      geometries in feature order; a null feature ends the loop, as the
      caught NullPointerException does. */
  method CollectFeatures<X>(features: seq<Option<Feature>>, pick: Geometry -> Option<X>) returns (picked: seq<X>)
    ensures picked == Collect(features, pick)
  {
    picked := [];
    var i := 0;
    while i < |features|
      invariant 0 <= i <= |features|
      invariant Collect(features, pick) == picked + Collect(features[i..], pick)
    {
      var feature := features[i];
      if feature.None? {
        break;
      }
      CollectAdvance(features, pick, picked, i);
      var data := pick(feature.value.geometry);
      if data.Some? {
        picked := picked + [data.value];
      }
      i := i + 1;
    }
    CollectDone(features, pick, picked, i);
  }

  /** findAllLandMarks: the positions of the Point features; a null
      collection or feature list throws. */
  method FindAllLandMarks(fc: Option<FeatureCollection>) returns (r: Outcome<seq<Pos>>)
    ensures (fc.None? || fc.value.features.None?) ==> r == Threw(NullPointer)
    ensures fc.Some? && fc.value.features.Some? ==> r == Returned(Collect(fc.value.features.value, PointOf))
  {
    if fc.None? || fc.value.features.None? {
      return Threw(NullPointer);
    }
    var coordinates := CollectFeatures(fc.value.features.value, PointOf);
    return Returned(coordinates);
  }

  /** getNoFlyZones: the outer rings of the Polygon features; a null
      collection or feature list throws. */
  method GetNoFlyZones(fc: Option<FeatureCollection>) returns (r: Outcome<seq<seq<Pos>>>)
    ensures (fc.None? || fc.value.features.None?) ==> r == Threw(NullPointer)
    ensures fc.Some? && fc.value.features.Some? ==> r == Returned(Collect(fc.value.features.value, PolygonOf))
  {
    if fc.None? || fc.value.features.None? {
      return Threw(NullPointer);
    }
    var protectedBuildings := CollectFeatures(fc.value.features.value, PolygonOf);
    return Returned(protectedBuildings);
  }

  /** The segments of one ring: one from each point to the next, so a ring
      of n >= 1 points has n - 1 of them. */
  function RingBorders(points: seq<Pos>): (r: seq<Segment>)
    ensures |r| == if |points| == 0 then 0 else |points| - 1
    ensures forall i :: 0 <= i < |r| ==> r[i] == Segment(points[i], points[i + 1])
  {
    if |points| < 2 then []
    else RingBorders(points[..|points| - 1]) + [Segment(points[|points| - 2], points[|points| - 1])]
  }

  /** The segments of all rings, ring after ring. */
  function Borders(rings: seq<seq<Pos>>): seq<Segment>
  {
    if |rings| == 0 then [] else Borders(rings[..|rings| - 1]) + RingBorders(rings[|rings| - 1])
  }

  /** Every side of every no-fly zone is among the borders. */
  lemma {:induction false} BordersHoldEverySide(rings: seq<seq<Pos>>, k: nat, i: nat)
    requires k < |rings| && i + 1 < |rings[k]|
    ensures Segment(rings[k][i], rings[k][i + 1]) in Borders(rings)
  {
    var last := |rings| - 1;
    if k == last {
      assert RingBorders(rings[k])[i] == Segment(rings[k][i], rings[k][i + 1]);
    } else {
      assert rings[..last][k] == rings[k];
      BordersHoldEverySide(rings[..last], k, i);
    }
  }

  /** Every border is a side of some no-fly zone. */
  lemma {:induction false} BordersAreSides(rings: seq<seq<Pos>>, s: Segment)
    requires s in Borders(rings)
    ensures exists k, i :: 0 <= k < |rings| && 0 <= i && i + 1 < |rings[k]|
                        && s == Segment(rings[k][i], rings[k][i + 1])
  {
    var last := |rings| - 1;
    if s in Borders(rings[..last]) {
      BordersAreSides(rings[..last], s);
      var k, i :| 0 <= k < |rings[..last]| && 0 <= i && i + 1 < |rings[..last][k]|
                  && s == Segment(rings[..last][k][i], rings[..last][k][i + 1]);
      assert rings[..last][k] == rings[k];
    } else {
      var r := RingBorders(rings[last]);
      var i :| 0 <= i < |r| && r[i] == s;
      assert s == Segment(rings[last][i], rings[last][i + 1]);
    }
  }

  lemma RingBordersStep(points: seq<Pos>, i: nat)
    requires 1 <= i < |points|
    ensures RingBorders(points[..i + 1]) == RingBorders(points[..i]) + [Segment(points[i - 1], points[i])]
  {
    assert points[..i + 1][..i] == points[..i];
  }

  /** The inner loop of getPolygonBorders: for every i from 1, the segment
      from point i - 1 to point i of one zone. */
  method AddRingBorders(acc: seq<Segment>, points: seq<Pos>) returns (polygonBorders: seq<Segment>)
    ensures polygonBorders == acc + RingBorders(points)
  {
    polygonBorders := acc;
    if |points| == 0 {
      return;
    }
    var i := 1;
    while i < |points|
      invariant 1 <= i <= |points|
      invariant polygonBorders == acc + RingBorders(points[..i])
    {
      RingBordersStep(points, i);
      polygonBorders := polygonBorders + [Segment(points[i - 1], points[i])];
      i := i + 1;
    }
    assert points[..i] == points;
  }

  /** getPolygonBorders: the sides of every no-fly zone, zone after zone;
      a null collection or feature list throws. */
  method GetPolygonBorders(fc: Option<FeatureCollection>) returns (r: Outcome<seq<Segment>>)
    ensures (fc.None? || fc.value.features.None?) ==> r == Threw(NullPointer)
    ensures fc.Some? && fc.value.features.Some?
            ==> r == Returned(Borders(Collect(fc.value.features.value, PolygonOf)))
  {
    var zones := GetNoFlyZones(fc);
    if zones.Threw? {
      return Threw(zones.fault);
    }
    var noFlyZones := zones.value;
    var polygonBorders: seq<Segment> := [];
    for k := 0 to |noFlyZones|
      invariant polygonBorders == Borders(noFlyZones[..k])
    {
      polygonBorders := AddRingBorders(polygonBorders, noFlyZones[k]);
      assert noFlyZones[..k + 1][..k] == noFlyZones[..k];
    }
    assert noFlyZones[..|noFlyZones|] == noFlyZones;
    return Returned(polygonBorders);
  }
}
