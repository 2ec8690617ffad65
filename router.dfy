/**
 * The router of src/main/java/uk/ac/ed/inf/Drone.java (travelToPosition),
 * as a specification over the drone's surroundings.
 *
 * travelToPosition is a while loop (fly towards the target) around a for
 * loop over the no-fly perimeters (is this step blocked?) around a second
 * while loop (detour from the start to the nearest landmark). Each loop is
 * a function below that carries the loop's variables in a Leg and recurses
 * once per iteration, so the Drone method that runs the loops is proved
 * equal to them. Neither while loop is guaranteed to terminate: each runs
 * at most `fuel` iterations and otherwise ends in the fault Diverged.
 */
module Routing {
  import opened Common
  import opened Geo
  import opened Client

  /** The drone's position when it starts and ends the day. */
  const APPLETON_TOWER: Pos := Pos(-3.186874, 55.944494)

  /** One move of the drone, before it is labelled with an order number. */
  datatype Step = Step(from: Pos, to: Pos, angle: int)

  /** A FlightpathMove: the order it serves, where it starts and ends, and
      its heading (HOVERING_ANGLE for a hover). */
  datatype FlightpathMove = FlightpathMove(orderNo: string, originalPosition: Pos, nextPosition: Pos, angle: int)

  /** What the drone knows about its surroundings: the LongLat arithmetic,
      Line2D.intersectsLine, the what3words lookup with the web server it
      asks, the landmarks and the no-fly perimeters, and the iteration bound
      of the router's while loops. */
  datatype Area = Area(
    math: MathModel,
    intersects: (Segment, Segment) -> bool,
    lookup: string -> Option<Pos>,
    machineName: string,
    webPort: string,
    landmarks: seq<Pos>,
    polygonPerimeters: seq<Segment>,
    fuel: nat)

  /** ClientIO.getW3WCoordinates against the area's web server. */
  function Geocode(a: Area, w3w: string): Pos
  {
    W3WCoordinates(a.lookup, a.machineName, a.webPort, w3w)
  }

  /** The router's loop variables: currentPosition, the moves so far,
      newPosition and clearedFlightpathCounter. */
  datatype Leg = Leg(cur: Pos, steps: seq<Step>, newPosition: Pos, counter: nat)

  /** The moves labelled with an order number. */
  function Tag(orderNo: string, steps: seq<Step>): (r: seq<FlightpathMove>)
    ensures |r| == |steps|
    ensures forall i :: 0 <= i < |steps| ==>
              r[i] == FlightpathMove(orderNo, steps[i].from, steps[i].to, steps[i].angle)
  {
    if |steps| == 0 then []
    else
      var s := steps[|steps| - 1];
      Tag(orderNo, steps[..|steps| - 1]) + [FlightpathMove(orderNo, s.from, s.to, s.angle)]
  }

  lemma TagAppend(orderNo: string, steps: seq<Step>, s: Step)
    ensures Tag(orderNo, steps + [s]) == Tag(orderNo, steps) + [FlightpathMove(orderNo, s.from, s.to, s.angle)]
  {
    assert (steps + [s])[..|steps|] == steps;
  }

  function TagOutcome(orderNo: string, o: Outcome<Option<seq<Step>>>): Outcome<Option<seq<FlightpathMove>>>
  {
    match o
    case Returned(Some(steps)) => Returned(Some(Tag(orderNo, steps)))
    case Returned(None) => Returned(None)
    case Threw(f) => Threw(f)
  }

  /** sortLongLats(landmarks).get(0), for a non-empty landmark list. */
  function NearestLandmark(a: Area, p: Pos): Pos
    requires |a.landmarks| > 0
  {
    ProximityOrder(a.math, p, a.landmarks)[0]
  }

  /** The detour loop: step towards the nearest landmark until close to it.
      It gives up (null) when the retry counter has reached the number of
      landmarks or when a step would cross a perimeter. */
  function Detour(a: Area, nearest: Pos, st: Leg, fuel: nat): Outcome<Option<Leg>>
    decreases fuel
  {
    if CloseTo(a.math, st.cur, nearest) then Returned(Some(st))
    else if st.counter >= |a.landmarks| then Returned(None)
    else if fuel == 0 then Threw(Diverged)
    else
      var newAngle := GetAngle(a.math, st.cur, nearest);
      var newPosition := NextPosition(a.math, st.cur, newAngle);
      if Crosses(a.intersects, st.cur, newPosition, a.polygonPerimeters) then Returned(None)
      else
        Detour(a, nearest, Leg(newPosition, st.steps + [Step(st.cur, newPosition, newAngle)], newPosition, st.counter), fuel - 1)
  }

  /** The for loop over the perimeters, from perimeter i on, for the
      candidate step `segment`. Every perimeter the step intersects (as the
      receiver of intersectsLine) wipes the moves, puts the drone back at
      the start, runs a detour and counts it. With no landmarks,
      get(0) on the empty proximity order throws. */
  function Scan(a: Area, start: Pos, segment: Segment, i: nat, st: Leg): Outcome<Option<Leg>>
    decreases |a.polygonPerimeters| - i
  {
    if i >= |a.polygonPerimeters| then Returned(Some(st))
    else if !a.intersects(a.polygonPerimeters[i], segment) then Scan(a, start, segment, i + 1, st)
    else if |a.landmarks| == 0 then Threw(IndexOutOfBounds)
    else
      match Detour(a, NearestLandmark(a, start), Leg(start, [], st.newPosition, st.counter), a.fuel)
      case Returned(Some(d)) => Scan(a, start, segment, i + 1, d.(counter := d.counter + 1))
      case other => other
  }

  /** The outer loop: until close to the target, head for it, let the
      perimeter scan rewrite the state, and record the move from where the
      drone then is to newPosition with the original heading. */
  function TravelLoop(a: Area, start: Pos, end: Pos, st: Leg, fuel: nat): Outcome<Option<Leg>>
    decreases fuel
  {
    if CloseTo(a.math, st.cur, end) then Returned(Some(st))
    else if fuel == 0 then Threw(Diverged)
    else
      var angle := GetAngle(a.math, st.cur, end);
      var newPosition := NextPosition(a.math, st.cur, angle);
      match Scan(a, start, Segment(st.cur, newPosition), 0, Leg(st.cur, st.steps, newPosition, st.counter))
      case Returned(Some(s)) =>
        TravelLoop(a, start, end, Leg(s.newPosition, s.steps + [Step(s.cur, s.newPosition, angle)], s.newPosition, s.counter), fuel - 1)
      case other => other
  }

  /** travelToPosition: the route from start to end, followed by a hover
      unless the target is Appleton Tower itself (isBase). */
  function Travel(a: Area, start: Pos, end: Pos, isBase: bool): Outcome<Option<seq<Step>>>
  {
    Landing(a, TravelLoop(a, start, end, Leg(start, [], start, 0), a.fuel), isBase)
  }

  /** What travelToPosition returns once its outer loop has ended. */
  function Landing(a: Area, loop: Outcome<Option<Leg>>, isBase: bool): Outcome<Option<seq<Step>>>
  {
    match loop
    case Returned(Some(f)) =>
      if isBase then Returned(Some(f.steps))
      else
        var hover := NextPosition(a.math, f.cur, HOVERING_ANGLE);
        Returned(Some(f.steps + [Step(hover, hover, HOVERING_ANGLE)]))
    case Returned(None) => Returned(None)
    case Threw(f) => Threw(f)
  }

  // ---------------------------------------------------------------------
  // Properties of the route

  /** Where a chain of steps from `start` ends. */
  function EndOf(start: Pos, steps: seq<Step>): Pos
  {
    if |steps| == 0 then start else steps[|steps| - 1].to
  }

  /** Each step starts where the previous one ended, the first at `start`. */
  predicate Chained(start: Pos, steps: seq<Step>)
  {
    && (|steps| > 0 ==> steps[0].from == start)
    && (forall i :: 0 < i < |steps| ==> steps[i].from == steps[i - 1].to)
  }

  /** The router's state is consistent: its moves chain from the start and
      the drone stands where they end. */
  predicate Consistent(start: Pos, st: Leg)
  {
    Chained(start, st.steps) && st.cur == EndOf(start, st.steps)
  }

  lemma ChainExtends(start: Pos, steps: seq<Step>, s: Step)
    requires Chained(start, steps) && s.from == EndOf(start, steps)
    ensures Chained(start, steps + [s]) && EndOf(start, steps + [s]) == s.to
  {
    var t := steps + [s];
    forall i | 0 < i < |t|
      ensures t[i].from == t[i - 1].to
    {
      if i < |steps| {
        assert t[i] == steps[i] && t[i - 1] == steps[i - 1];
      } else {
        assert t[i] == s && t[i - 1] == steps[|steps| - 1];
      }
    }
  }

  /** A detour keeps the state consistent and does not touch the counter. */
  lemma {:induction false} DetourConsistent(a: Area, start: Pos, nearest: Pos, st: Leg, fuel: nat)
    requires Consistent(start, st)
    ensures Detour(a, nearest, st, fuel).Returned? && Detour(a, nearest, st, fuel).value.Some? ==>
              var d := Detour(a, nearest, st, fuel).value.value;
              Consistent(start, d) && d.counter == st.counter && CloseTo(a.math, d.cur, nearest)
    decreases fuel
  {
    if !CloseTo(a.math, st.cur, nearest) && st.counter < |a.landmarks| && fuel > 0 {
      var newAngle := GetAngle(a.math, st.cur, nearest);
      var newPosition := NextPosition(a.math, st.cur, newAngle);
      var s := Step(st.cur, newPosition, newAngle);
      ChainExtends(start, st.steps, s);
      DetourConsistent(a, start, nearest, Leg(newPosition, st.steps + [s], newPosition, st.counter), fuel - 1);
    }
  }

  /** The perimeter scan keeps the state consistent. */
  lemma {:induction false} ScanConsistent(a: Area, start: Pos, segment: Segment, i: nat, st: Leg)
    requires Consistent(start, st)
    ensures Scan(a, start, segment, i, st).Returned? && Scan(a, start, segment, i, st).value.Some? ==>
              Consistent(start, Scan(a, start, segment, i, st).value.value)
    decreases |a.polygonPerimeters| - i
  {
    if i < |a.polygonPerimeters| {
      if !a.intersects(a.polygonPerimeters[i], segment) {
        ScanConsistent(a, start, segment, i + 1, st);
      } else if |a.landmarks| > 0 {
        var restart := Leg(start, [], st.newPosition, st.counter);
        var nearest := NearestLandmark(a, start);
        DetourConsistent(a, start, nearest, restart, a.fuel);
        var d := Detour(a, nearest, restart, a.fuel);
        if d.Returned? && d.value.Some? {
          ScanConsistent(a, start, segment, i + 1, d.value.value.(counter := d.value.value.counter + 1));
        }
      }
    }
  }

  /** The outer loop keeps the state consistent and stops only close to
      the target. */
  lemma {:induction false} TravelLoopArrives(a: Area, start: Pos, end: Pos, st: Leg, fuel: nat)
    requires Consistent(start, st)
    ensures TravelLoop(a, start, end, st, fuel).Returned? && TravelLoop(a, start, end, st, fuel).value.Some? ==>
              var f := TravelLoop(a, start, end, st, fuel).value.value;
              Consistent(start, f) && CloseTo(a.math, f.cur, end)
    decreases fuel
  {
    if !CloseTo(a.math, st.cur, end) && fuel > 0 {
      var angle := GetAngle(a.math, st.cur, end);
      var newPosition := NextPosition(a.math, st.cur, angle);
      var scanned := Scan(a, start, Segment(st.cur, newPosition), 0, Leg(st.cur, st.steps, newPosition, st.counter));
      ScanConsistent(a, start, Segment(st.cur, newPosition), 0, Leg(st.cur, st.steps, newPosition, st.counter));
      if scanned.Returned? && scanned.value.Some? {
        var s := scanned.value.value;
        var step := Step(s.cur, s.newPosition, angle);
        ChainExtends(start, s.steps, step);
        TravelLoopArrives(a, start, end, Leg(s.newPosition, s.steps + [step], s.newPosition, s.counter), fuel - 1);
      }
    }
  }

  /** A route that is found chains from the start; the flight part ends
      close to the target; and a hover (from == to, HOVERING_ANGLE) is
      appended exactly when the target is not the base. */
  lemma TravelChainsToTarget(a: Area, start: Pos, end: Pos, isBase: bool)
    requires Travel(a, start, end, isBase).Returned? && Travel(a, start, end, isBase).value.Some?
    ensures var steps := Travel(a, start, end, isBase).value.value;
            var flight := if isBase then steps else steps[..|steps| - 1];
            && (!isBase ==> |steps| >= 1)
            && Chained(start, steps)
            && CloseTo(a.math, EndOf(start, flight), end)
            && (!isBase ==> steps[|steps| - 1] == Step(EndOf(start, flight), EndOf(start, flight), HOVERING_ANGLE))
  {
    var init := Leg(start, [], start, 0);
    TravelLoopArrives(a, start, end, init, a.fuel);
    var f := TravelLoop(a, start, end, init, a.fuel).value.value;
    if !isBase {
      var hover := NextPosition(a.math, f.cur, HOVERING_ANGLE);
      ChainExtends(start, f.steps, Step(hover, hover, HOVERING_ANGLE));
      assert (f.steps + [Step(hover, hover, HOVERING_ANGLE)])[..|f.steps|] == f.steps;
    }
  }

  /** A drone already close to its target makes no flying move: the route
      is empty, or the hover alone. */
  lemma AlreadyThere(a: Area, start: Pos, end: Pos, isBase: bool)
    requires CloseTo(a.math, start, end)
    ensures Travel(a, start, end, isBase)
         == Returned(Some(if isBase then [] else [Step(start, start, HOVERING_ANGLE)]))
  {
    assert TravelLoop(a, start, end, Leg(start, [], start, 0), a.fuel) == Returned(Some(Leg(start, [], start, 0)));
    assert NextPosition(a.math, start, HOVERING_ANGLE) == start;
    assert [] + [Step(start, start, HOVERING_ANGLE)] == [Step(start, start, HOVERING_ANGLE)];
  }

  lemma {:induction false} ScanWithoutPerimeters(a: Area, start: Pos, segment: Segment, i: nat, st: Leg)
    requires |a.polygonPerimeters| == 0
    ensures Scan(a, start, segment, i, st) == Returned(Some(st))
  {
  }

  /** Without no-fly perimeters the router never gives up and never throws
      an index error: it finds a route or runs out of iterations. */
  lemma {:induction false} NoPerimetersNoDetour(a: Area, start: Pos, end: Pos, st: Leg, fuel: nat)
    requires |a.polygonPerimeters| == 0
    ensures TravelLoop(a, start, end, st, fuel).Returned? ==> TravelLoop(a, start, end, st, fuel).value.Some?
    ensures TravelLoop(a, start, end, st, fuel).Threw? ==> TravelLoop(a, start, end, st, fuel).fault == Diverged
    decreases fuel
  {
    if !CloseTo(a.math, st.cur, end) && fuel > 0 {
      var angle := GetAngle(a.math, st.cur, end);
      var newPosition := NextPosition(a.math, st.cur, angle);
      var leg := Leg(st.cur, st.steps, newPosition, st.counter);
      ScanWithoutPerimeters(a, start, Segment(st.cur, newPosition), 0, leg);
      NoPerimetersNoDetour(a, start, end, Leg(newPosition, st.steps + [Step(st.cur, newPosition, angle)], newPosition, st.counter), fuel - 1);
    }
  }

  // ---------------------------------------------------------------------
  // When the router gives up
  //
  // Every detour starts at the router's start and heads for the same
  // landmark, so every detour walks the same positions. Whether a detour
  // arrives or is blocked therefore depends on the start alone; the retry
  // counter decides only whether the walk is allowed to begin.

  /** Where a detour towards `nearest` has got after k steps from p. */
  function WalkFrom(a: Area, nearest: Pos, p: Pos, k: nat): Pos
    decreases k
  {
    if k == 0 then p
    else WalkFrom(a, nearest, NextPosition(a.math, p, GetAngle(a.math, p, nearest)), k - 1)
  }

  /** The detour's next step from p would cross a no-fly perimeter. */
  predicate StepBlocked(a: Area, nearest: Pos, p: Pos)
  {
    Crosses(a.intersects, p, NextPosition(a.math, p, GetAngle(a.math, p, nearest)), a.polygonPerimeters)
  }

  /** The walk from p takes k free steps, none of them from a point close to
      the landmark, and is then blocked short of the landmark. */
  ghost predicate BlockedAfter(a: Area, nearest: Pos, p: Pos, k: nat)
  {
    && (forall j :: 0 <= j < k ==>
          !CloseTo(a.math, WalkFrom(a, nearest, p, j), nearest) && !StepBlocked(a, nearest, WalkFrom(a, nearest, p, j)))
    && !CloseTo(a.math, WalkFrom(a, nearest, p, k), nearest)
    && StepBlocked(a, nearest, WalkFrom(a, nearest, p, k))
  }

  /** The walk from p takes k free steps and is then close to the landmark. */
  ghost predicate ArrivesAfter(a: Area, nearest: Pos, p: Pos, k: nat)
  {
    && (forall j :: 0 <= j < k ==>
          !CloseTo(a.math, WalkFrom(a, nearest, p, j), nearest) && !StepBlocked(a, nearest, WalkFrom(a, nearest, p, j)))
    && CloseTo(a.math, WalkFrom(a, nearest, p, k), nearest)
  }

  /** A walk that is blocked never arrives: the two reasons for a null
      route are distinct. */
  lemma BlockedNeverArrives(a: Area, nearest: Pos, p: Pos, k1: nat, k2: nat)
    requires BlockedAfter(a, nearest, p, k1)
    ensures !ArrivesAfter(a, nearest, p, k2)
  {
    if k1 < k2 {
      assert StepBlocked(a, nearest, WalkFrom(a, nearest, p, k1));
    } else {
      assert !CloseTo(a.math, WalkFrom(a, nearest, p, k2), nearest);
    }
  }

  /** One step of the walk from p is the walk from the position it reaches. */
  lemma WalkShift(a: Area, nearest: Pos, p: Pos, k: nat)
    ensures WalkFrom(a, nearest, p, k + 1)
         == WalkFrom(a, nearest, NextPosition(a.math, p, GetAngle(a.math, p, nearest)), k)
  {
  }

  /** A detour returns null only from a point not close to the landmark,
      and either because the counter has reached the number of landmarks
      (line 408) or because its walk is blocked within the bound (line 417). */
  lemma {:induction false} DetourNull(a: Area, nearest: Pos, st: Leg, fuel: nat)
    requires Detour(a, nearest, st, fuel) == Returned(None)
    ensures !CloseTo(a.math, st.cur, nearest)
    ensures st.counter >= |a.landmarks| || exists k: nat :: k < fuel && BlockedAfter(a, nearest, st.cur, k)
    decreases fuel
  {
    var q := NextPosition(a.math, st.cur, GetAngle(a.math, st.cur, nearest));
    if st.counter < |a.landmarks| && !StepBlocked(a, nearest, st.cur) {
      var next := Leg(q, st.steps + [Step(st.cur, q, GetAngle(a.math, st.cur, nearest))], q, st.counter);
      assert Detour(a, nearest, st, fuel) == Detour(a, nearest, next, fuel - 1);
      DetourNull(a, nearest, next, fuel - 1);
      var k: nat :| k < fuel - 1 && BlockedAfter(a, nearest, q, k);
      forall j | 0 <= j <= k + 1
        ensures WalkFrom(a, nearest, st.cur, j) == if j == 0 then st.cur else WalkFrom(a, nearest, q, j - 1)
      {
        if j > 0 {
          WalkShift(a, nearest, st.cur, j - 1);
        }
      }
      assert BlockedAfter(a, nearest, st.cur, k + 1);
    } else if st.counter < |a.landmarks| {
      assert WalkFrom(a, nearest, st.cur, 0) == st.cur;
      assert BlockedAfter(a, nearest, st.cur, 0);
    }
  }

  /** A detour that finds its landmark has walked there within the bound. */
  lemma {:induction false} DetourArrives(a: Area, nearest: Pos, st: Leg, fuel: nat)
    requires Detour(a, nearest, st, fuel).Returned? && Detour(a, nearest, st, fuel).value.Some?
    ensures exists k: nat :: k <= fuel && ArrivesAfter(a, nearest, st.cur, k)
    decreases fuel
  {
    if CloseTo(a.math, st.cur, nearest) {
      assert ArrivesAfter(a, nearest, st.cur, 0);
    } else {
      var q := NextPosition(a.math, st.cur, GetAngle(a.math, st.cur, nearest));
      var next := Leg(q, st.steps + [Step(st.cur, q, GetAngle(a.math, st.cur, nearest))], q, st.counter);
      assert Detour(a, nearest, st, fuel) == Detour(a, nearest, next, fuel - 1);
      DetourArrives(a, nearest, next, fuel - 1);
      var k: nat :| k <= fuel - 1 && ArrivesAfter(a, nearest, q, k);
      forall j | 0 <= j <= k + 1
        ensures WalkFrom(a, nearest, st.cur, j) == if j == 0 then st.cur else WalkFrom(a, nearest, q, j - 1)
      {
        if j > 0 {
          WalkShift(a, nearest, st.cur, j - 1);
        }
      }
      assert ArrivesAfter(a, nearest, st.cur, k + 1);
    }
  }

  /** A walk blocked within the bound makes a detour that may begin null. */
  lemma {:induction false} DetourBlocked(a: Area, nearest: Pos, st: Leg, fuel: nat, k: nat)
    requires st.counter < |a.landmarks| && k < fuel && BlockedAfter(a, nearest, st.cur, k)
    ensures Detour(a, nearest, st, fuel) == Returned(None)
    decreases k
  {
    assert WalkFrom(a, nearest, st.cur, 0) == st.cur;
    if k > 0 {
      var q := NextPosition(a.math, st.cur, GetAngle(a.math, st.cur, nearest));
      var next := Leg(q, st.steps + [Step(st.cur, q, GetAngle(a.math, st.cur, nearest))], q, st.counter);
      assert !CloseTo(a.math, st.cur, nearest) && !StepBlocked(a, nearest, st.cur);
      assert Detour(a, nearest, st, fuel) == Detour(a, nearest, next, fuel - 1);
      forall j | 0 <= j <= k - 1
        ensures WalkFrom(a, nearest, q, j) == WalkFrom(a, nearest, st.cur, j + 1)
      {
        WalkShift(a, nearest, st.cur, j);
      }
      assert BlockedAfter(a, nearest, q, k - 1);
      DetourBlocked(a, nearest, next, fuel - 1, k - 1);
    }
  }

  /** Every retry so far was a detour from the start that found its
      landmark: the counter is 0, or the walk from the start arrives. */
  ghost predicate Retried(a: Area, start: Pos, st: Leg)
  {
    || st.counter == 0
    || (|a.landmarks| > 0 && exists k: nat :: k <= a.fuel && ArrivesAfter(a, NearestLandmark(a, start), start, k))
  }

  /** Why travelToPosition from `start` can return null: there are
      landmarks and perimeters, the start is not close to its nearest
      landmark, and the walk from the start towards it is either blocked
      within the bound (line 417) or arrives, so that the null came from
      the counter check after every allowed retry had been used (line 408). */
  ghost predicate NullReason(a: Area, start: Pos)
  {
    && |a.landmarks| > 0
    && |a.polygonPerimeters| > 0
    && !CloseTo(a.math, start, NearestLandmark(a, start))
    && ((exists k: nat :: k < a.fuel && BlockedAfter(a, NearestLandmark(a, start), start, k))
        || (exists k: nat :: k <= a.fuel && ArrivesAfter(a, NearestLandmark(a, start), start, k)))
  }

  /** The perimeter scan keeps every retry accounted for, and returns null
      only for a NullReason. */
  lemma {:induction false} ScanNull(a: Area, start: Pos, segment: Segment, i: nat, st: Leg)
    requires Retried(a, start, st)
    ensures var o := Scan(a, start, segment, i, st);
            o.Returned? && o.value.Some? ==> Retried(a, start, o.value.value)
    ensures Scan(a, start, segment, i, st) == Returned(None) ==> NullReason(a, start)
    decreases |a.polygonPerimeters| - i
  {
    if i < |a.polygonPerimeters| {
      if !a.intersects(a.polygonPerimeters[i], segment) {
        ScanNull(a, start, segment, i + 1, st);
      } else if |a.landmarks| > 0 {
        var nearest := NearestLandmark(a, start);
        var restart := Leg(start, [], st.newPosition, st.counter);
        var d := Detour(a, nearest, restart, a.fuel);
        if d == Returned(None) {
          DetourNull(a, nearest, restart, a.fuel);
        } else if d.Returned? {
          DetourArrives(a, nearest, restart, a.fuel);
          ScanNull(a, start, segment, i + 1, d.value.value.(counter := d.value.value.counter + 1));
        }
      }
    }
  }

  /** The outer loop returns null only for a NullReason. */
  lemma {:induction false} TravelLoopNull(a: Area, start: Pos, end: Pos, st: Leg, fuel: nat)
    requires Retried(a, start, st)
    requires TravelLoop(a, start, end, st, fuel) == Returned(None)
    ensures NullReason(a, start)
    decreases fuel
  {
    var angle := GetAngle(a.math, st.cur, end);
    var newPosition := NextPosition(a.math, st.cur, angle);
    var leg := Leg(st.cur, st.steps, newPosition, st.counter);
    var scanned := Scan(a, start, Segment(st.cur, newPosition), 0, leg);
    ScanNull(a, start, Segment(st.cur, newPosition), 0, leg);
    if scanned.Returned? && scanned.value.Some? {
      var s := scanned.value.value;
      TravelLoopNull(a, start, end, Leg(s.newPosition, s.steps + [Step(s.cur, s.newPosition, angle)], s.newPosition, s.counter), fuel - 1);
    }
  }

  /** travelToPosition returns null only when there are landmarks and
      no-fly perimeters, the start is not close to its nearest landmark,
      and the detour walk from the start towards it is either blocked by a
      perimeter within the bound (lines 415-418) or reaches the landmark,
      in which case the null came from the counter check once the counter
      had reached the number of landmarks (lines 407-409). BlockedNeverArrives
      shows the two cases exclude each other. */
  lemma TravelNull(a: Area, start: Pos, end: Pos, isBase: bool)
    requires Travel(a, start, end, isBase) == Returned(None)
    ensures |a.landmarks| > 0 && |a.polygonPerimeters| > 0
    ensures var n := NearestLandmark(a, start);
            && !CloseTo(a.math, start, n)
            && ((exists k: nat :: k < a.fuel && BlockedAfter(a, n, start, k))
                || (exists k: nat :: k <= a.fuel && ArrivesAfter(a, n, start, k)))
  {
    TravelLoopNull(a, start, end, Leg(start, [], start, 0), a.fuel);
  }

  /** The scan from perimeter i on is null when one of the remaining
      perimeters meets the step and the walk from the start is blocked. */
  lemma {:induction false} ScanBlocked(a: Area, start: Pos, segment: Segment, i: nat, st: Leg, k: nat)
    requires |a.landmarks| > 0 && st.counter < |a.landmarks|
    requires exists j :: i <= j < |a.polygonPerimeters| && a.intersects(a.polygonPerimeters[j], segment)
    requires k < a.fuel && BlockedAfter(a, NearestLandmark(a, start), start, k)
    ensures Scan(a, start, segment, i, st) == Returned(None)
    decreases |a.polygonPerimeters| - i
  {
    if a.intersects(a.polygonPerimeters[i], segment) {
      DetourBlocked(a, NearestLandmark(a, start), Leg(start, [], st.newPosition, st.counter), a.fuel, k);
    } else {
      ScanBlocked(a, start, segment, i + 1, st, k);
    }
  }

  /** Conversely, a first step that meets a perimeter, with the detour walk
      from the start blocked within the bound, makes travelToPosition
      return null. */
  lemma TravelBlocked(a: Area, start: Pos, end: Pos, isBase: bool, k: nat)
    requires |a.landmarks| > 0 && !CloseTo(a.math, start, end)
    requires exists j :: 0 <= j < |a.polygonPerimeters|
               && a.intersects(a.polygonPerimeters[j], Segment(start, NextPosition(a.math, start, GetAngle(a.math, start, end))))
    requires k < a.fuel && BlockedAfter(a, NearestLandmark(a, start), start, k)
    ensures Travel(a, start, end, isBase) == Returned(None)
  {
    var newPosition := NextPosition(a.math, start, GetAngle(a.math, start, end));
    ScanBlocked(a, start, Segment(start, newPosition), 0, Leg(start, [], newPosition, 0), k);
  }
}
