/** OsrmApiResponse.ToProto: cutting a route's polyline into legs, one per pair of consecutive waypoints. */
module Route {

  /** A point as OSRM gives it: [longitude, latitude]. */
  type Point = seq<real>

  datatype OsrmRoute = OsrmRoute(distance: real, duration: real, coordinates: seq<Point>)

  /** The locations of the snapped waypoints, and the routes found. */
  datatype Osrm = Osrm(waypoints: seq<Point>, routes: seq<OsrmRoute>)

  datatype Coordinate = Coordinate(latitude: real, longitude: real)

  datatype Geometry = Geometry(coordinates: seq<Coordinate>)

  datatype ProtoRoute = ProtoRoute(geometry: seq<Geometry>, distance: real, duration: real)

  const FAR := 1_000_000_000.0

  /** What ToProto demands: it indexes the first route, both numbers of every point and, unless the geometry
      is empty, both numbers of every waypoint but the first. */
  predicate WellFormed(o: Osrm) {
    && o.routes != []
    && (forall j :: 0 <= j < |o.routes[0].coordinates| ==> |o.routes[0].coordinates[j]| >= 2)
    && (o.routes[0].coordinates != [] ==> forall i :: 1 <= i < |o.waypoints| ==> |o.waypoints[i]| >= 2)
  }

  function Path(o: Osrm): (g: seq<Point>)
    requires WellFormed(o)
    ensures forall j :: 0 <= j < |g| ==> |g[j]| >= 2
  {
    o.routes[0].coordinates
  }

  predicate Points(g: seq<Point>) { forall j :: 0 <= j < |g| ==> |g[j]| >= 2 }

  function Dist(p: Point, w: Point): real
    requires |p| >= 2 && |w| >= 2
  {
    (p[0] - w[0]) * (p[0] - w[0]) + (p[1] - w[1]) * (p[1] - w[1])
  }

  function Swap(g: seq<Point>): (s: seq<Coordinate>)
    requires Points(g)
    ensures |s| == |g|
    ensures forall j :: 0 <= j < |g| ==> s[j].longitude == g[j][0] && s[j].latitude == g[j][1]
  {
    if g == [] then [] else Swap(g[..|g| - 1]) + [Coordinate(g[|g| - 1][1], g[|g| - 1][0])]
  }

  /** The first of the points nearest to w, from position `from` on; `from` itself if all are farther than FAR. */
  ghost predicate FirstNearest(g: seq<Point>, w: Point, from: nat, e: nat)
    requires Points(g) && |w| >= 2
  {
    && from <= e < |g|
    && (forall j :: from <= j < |g| && Dist(g[j], w) < FAR ==> Dist(g[e], w) <= Dist(g[j], w))
    && (forall j :: from <= j < e ==> Dist(g[e], w) < Dist(g[j], w))
    && (e == from || Dist(g[e], w) < FAR)
  }

  /** There is only one such point. */
  lemma FirstNearestIsUnique(g: seq<Point>, w: Point, from: nat, e: nat, f: nat)
    requires Points(g) && |w| >= 2
    requires FirstNearest(g, w, from, e) && FirstNearest(g, w, from, f)
    ensures e == f
  {
  }

  /** In coordinates: no remaining point less than FAR away is nearer than the one found, and none before it is as
      near. */
  lemma NearestInCoordinates(g: seq<Point>, w: Point, from: nat, e: nat, j: nat, dx: real, dy: real, ex: real, ey: real)
    requires Points(g) && |w| >= 2 && FirstNearest(g, w, from, e) && from <= j < |g|
    requires dx == g[j][0] - w[0] && dy == g[j][1] - w[1] && ex == g[e][0] - w[0] && ey == g[e][1] - w[1]
    ensures dx * dx + dy * dy < 1_000_000_000.0 ==> ex * ex + ey * ey <= dx * dx + dy * dy
    ensures j < e ==> ex * ex + ey * ey < dx * dx + dy * dy
  {
    assert Dist(g[j], w) == dx * dx + dy * dy;
    assert Dist(g[e], w) == ex * ex + ey * ey;
  }

  /** The (i+1)-th cut is the first nearest point to the (i+1)-th waypoint, not before the i-th cut. */
  ghost predicate CutFollows(g: seq<Point>, waypoints: seq<Point>, cuts: seq<nat>, i: nat)
    requires Points(g)
    requires g != [] ==> forall k :: 1 <= k < |waypoints| ==> |waypoints[k]| >= 2
  {
    && i + 1 < |cuts| && i + 1 < |waypoints|
    && if g == [] then cuts[i + 1] == 0 else FirstNearest(g, waypoints[i + 1], cuts[i], cuts[i + 1])
  }

  /** The positions where the legs of a route meet: the start, then one cut for each further waypoint. */
  ghost predicate IsCuts(g: seq<Point>, waypoints: seq<Point>, cuts: seq<nat>)
    requires Points(g)
    requires g != [] ==> forall i :: 1 <= i < |waypoints| ==> |waypoints[i]| >= 2
  {
    && |cuts| == |waypoints| && (cuts != [] ==> cuts[0] == 0)
    && forall i :: 0 <= i < |cuts| - 1 ==> CutFollows(g, waypoints, cuts, i)
  }

  function Leg(g: seq<Point>, from: nat, to: nat): seq<Coordinate>
    requires Points(g) && from <= to && (g != [] ==> to < |g|)
  {
    if g == [] then [] else Swap(g[from..to + 1])
  }

  /** The i-th leg runs from the i-th cut to the next, both ends included. */
  predicate LegSpans(g: seq<Point>, legs: seq<Geometry>, cuts: seq<nat>, i: nat)
    requires Points(g)
  {
    && i < |legs| && i + 1 < |cuts|
    && cuts[i] <= cuts[i + 1] && (g != [] ==> cuts[i + 1] < |g|)
    && legs[i].coordinates == Leg(g, cuts[i], cuts[i + 1])
  }

  /** What ToProto makes of a route: the whole path if there are fewer than two waypoints, else the legs between
      the cuts. */
  ghost predicate IsCutAt(o: Osrm, r: ProtoRoute, cuts: seq<nat>)
    requires WellFormed(o)
  {
    var g := Path(o);
    && r.distance == o.routes[0].distance && r.duration == o.routes[0].duration
    && if |o.waypoints| < 2 then r.geometry == [Geometry(Swap(g))]
       else
         && IsCuts(g, o.waypoints, cuts)
         && |r.geometry| == |o.waypoints| - 1
         && forall i :: 0 <= i < |r.geometry| ==> LegSpans(g, r.geometry, cuts, i)
  }

  /** r is the protobuf form of o; there is only one, as ProtoIsUnique shows. */
  ghost predicate IsProto(o: Osrm, r: ProtoRoute)
    requires WellFormed(o)
  {
    exists cuts :: IsCutAt(o, r, cuts)
  }

  method ToProto(o: Osrm) returns (r: ProtoRoute)
    requires WellFormed(o)
    ensures IsProto(o, r)
    ensures r.distance == o.routes[0].distance && r.duration == o.routes[0].duration
  {
    var g := o.routes[0].coordinates;
    var geometries: seq<Geometry> := [];
    ghost var cuts: seq<nat> := [];
    if |o.waypoints| >= 2 {
      var currentIdx: nat := 0;
      cuts := [0];
      for i := 0 to |o.waypoints| - 1
        invariant |geometries| == i && |cuts| == i + 1 && cuts[0] == 0 && cuts[i] == currentIdx
        invariant if g == [] then currentIdx == 0 else currentIdx < |g|
        invariant forall k :: 0 <= k < i ==> CutFollows(g, o.waypoints, cuts, k)
        invariant forall k :: 0 <= k < i ==> LegSpans(g, geometries, cuts, k)
      {
        var startIdx := currentIdx;
        var endIdx := ClosestFrom(g, o.waypoints[i + 1], currentIdx);
        var segment := Segment(g, startIdx, endIdx);
        ghost var cuts0, legs0 := cuts, geometries;
        geometries := geometries + [Geometry(segment)];
        cuts := cuts + [endIdx];
        currentIdx := endIdx;
        forall k | 0 <= k < i + 1
          ensures CutFollows(g, o.waypoints, cuts, k) && LegSpans(g, geometries, cuts, k)
        {
          if k < i {
            assert CutFollows(g, o.waypoints, cuts0, k) && LegSpans(g, legs0, cuts0, k);
          }
        }
      }
    } else {
      geometries := [Geometry(Swap(g))];
    }
    r := ProtoRoute(geometries, o.routes[0].distance, o.routes[0].duration);
    assert IsCutAt(o, r, cuts);
  }

  /** The inner search loop. */
  method ClosestFrom(g: seq<Point>, w: Point, currentIdx: nat) returns (endIdx: nat)
    requires Points(g) && (g != [] ==> |w| >= 2 && currentIdx < |g|)
    ensures if g == [] then endIdx == currentIdx else FirstNearest(g, w, currentIdx, endIdx)
  {
    endIdx := currentIdx;
    var minDistEnd := FAR;
    var j := currentIdx;
    while j < |g|
      invariant g == [] ==> j >= currentIdx == endIdx
      invariant g != [] ==> currentIdx <= endIdx < |g| && currentIdx <= j <= |g| && (endIdx < j || endIdx == currentIdx)
      invariant minDistEnd <= FAR
      invariant g != [] ==> forall k :: currentIdx <= k < j ==> minDistEnd <= Dist(g[k], w)
      invariant g != [] ==> forall k :: currentIdx <= k < endIdx ==> minDistEnd < Dist(g[k], w)
      invariant g != [] && minDistEnd < FAR ==> endIdx < j && Dist(g[endIdx], w) == minDistEnd
      invariant minDistEnd == FAR ==> endIdx == currentIdx
    {
      var d := (g[j][0] - w[0]) * (g[j][0] - w[0]) + (g[j][1] - w[1]) * (g[j][1] - w[1]);
      if d < minDistEnd {
        minDistEnd := d;
        endIdx := j;
      }
      j := j + 1;
    }
  }

  /** The inner copy loop. */
  method Segment(g: seq<Point>, startIdx: nat, endIdx: nat) returns (segment: seq<Coordinate>)
    requires Points(g) && startIdx <= endIdx && (g != [] ==> endIdx < |g|)
    ensures segment == Leg(g, startIdx, endIdx)
  {
    segment := [];
    var j := startIdx;
    while j <= endIdx && j < |g|
      invariant startIdx <= j
      invariant g == [] ==> segment == []
      invariant g != [] ==> j <= endIdx + 1 && segment == Swap(g[startIdx..j])
    {
      assert g[startIdx..j + 1][..j - startIdx] == g[startIdx..j];
      segment := segment + [Coordinate(g[j][1], g[j][0])];
      j := j + 1;
    }
  }

  lemma {:induction false} CutsAreUnique(g: seq<Point>, waypoints: seq<Point>, a: seq<nat>, b: seq<nat>, i: nat)
    requires Points(g) && (g != [] ==> forall k :: 1 <= k < |waypoints| ==> |waypoints[k]| >= 2)
    requires IsCuts(g, waypoints, a) && IsCuts(g, waypoints, b) && i < |waypoints|
    ensures a[i] == b[i]
  {
    if i > 0 {
      CutsAreUnique(g, waypoints, a, b, i - 1);
      assert CutFollows(g, waypoints, a, i - 1) && CutFollows(g, waypoints, b, i - 1);
      if g != [] {
        FirstNearestIsUnique(g, waypoints[i], a[i - 1], a[i], b[i]);
      }
    }
  }

  /** A route has one protobuf form only: the contract of ToProto fixes its result. */
  lemma ProtoIsUnique(o: Osrm, r: ProtoRoute, s: ProtoRoute)
    requires WellFormed(o) && IsProto(o, r) && IsProto(o, s)
    ensures r == s
  {
    var a :| IsCutAt(o, r, a);
    var b :| IsCutAt(o, s, b);
    if |o.waypoints| >= 2 {
      forall i | 0 <= i < |r.geometry| ensures r.geometry[i] == s.geometry[i] {
        CutsAreUnique(Path(o), o.waypoints, a, b, i);
        CutsAreUnique(Path(o), o.waypoints, a, b, i + 1);
        assert LegSpans(Path(o), r.geometry, a, i) && LegSpans(Path(o), s.geometry, b, i);
      }
    }
  }

  // --- The legs stitch back together --------------------------------------------

  /** The legs laid end to end, each further leg without its first point. */
  function Stitch(legs: seq<Geometry>): seq<Coordinate> {
    if legs == [] then []
    else if |legs| == 1 then legs[0].coordinates
    else
      var last := legs[|legs| - 1].coordinates;
      Stitch(legs[..|legs| - 1]) + if last == [] then [] else last[1..]
  }

  lemma SwapSlice(g: seq<Point>, a: nat, b: nat)
    requires Points(g) && a <= b <= |g|
    ensures Swap(g[a..b]) == Swap(g)[a..b]
  {
  }

  lemma StitchSnoc(legs: seq<Geometry>, init: seq<Geometry>, all: seq<Coordinate>, a: nat, b: nat)
    requires |legs| > 1 && init == legs[..|legs| - 1] && a <= b < |all|
    requires Stitch(init) == all[..a + 1] && legs[|legs| - 1].coordinates == all[a..b + 1]
    ensures Stitch(legs) == all[..b + 1]
  {
    assert all[a..b + 1][1..] == all[a + 1..b + 1];
    assert all[..b + 1] == all[..a + 1] + all[a + 1..b + 1];
  }

  lemma LegsOfInit(g: seq<Point>, legs: seq<Geometry>, cuts: seq<nat>, init: seq<Geometry>, cuts0: seq<nat>)
    requires Points(g) && g != [] && |legs| > 1 && |cuts| == |legs| + 1
    requires init == legs[..|legs| - 1] && cuts0 == cuts[..|legs|]
    requires forall i :: 0 <= i < |legs| ==> LegSpans(g, legs, cuts, i)
    ensures forall i :: 0 <= i < |init| ==> LegSpans(g, init, cuts0, i)
  {
    forall i | 0 <= i < |init| ensures LegSpans(g, init, cuts0, i) {
      assert LegSpans(g, legs, cuts, i);
    }
  }

  lemma {:induction false} StitchLegs(g: seq<Point>, legs: seq<Geometry>, cuts: seq<nat>)
    requires Points(g) && g != [] && legs != [] && |cuts| == |legs| + 1 && cuts[0] == 0
    requires forall i :: 0 <= i < |legs| ==> LegSpans(g, legs, cuts, i)
    ensures cuts[|legs|] < |g| && Stitch(legs) == Swap(g)[..cuts[|legs|] + 1]
  {
    var n := |legs|;
    assert LegSpans(g, legs, cuts, n - 1);
    SwapSlice(g, cuts[n - 1], cuts[n] + 1);
    if n > 1 {
      LegsOfInit(g, legs, cuts, legs[..n - 1], cuts[..n]);
      StitchLegs(g, legs[..n - 1], cuts[..n]);
      StitchSnoc(legs, legs[..n - 1], Swap(g), cuts[n - 1], cuts[n]);
    }
  }

  lemma LegEnds(g: seq<Point>, legs: seq<Geometry>, cuts: seq<nat>, i: nat)
    requires Points(g) && g != [] && LegSpans(g, legs, cuts, i)
    ensures var leg := legs[i].coordinates;
            leg != [] && leg[0] == Swap(g)[cuts[i]] && leg[|leg| - 1] == Swap(g)[cuts[i + 1]]
  {
    SwapSlice(g, cuts[i], cuts[i + 1] + 1);
  }

  function LastOf(leg: Geometry): Coordinate
    requires leg.coordinates != []
  {
    leg.coordinates[|leg.coordinates| - 1]
  }

  /** Leg i is not empty, and the next one, if any, starts where it ends. */
  predicate LegMeets(legs: seq<Geometry>, i: nat) {
    && i < |legs| && legs[i].coordinates != []
    && (i + 1 < |legs| ==> legs[i + 1].coordinates != [] && legs[i + 1].coordinates[0] == LastOf(legs[i]))
  }

  lemma LegMeetsNext(g: seq<Point>, legs: seq<Geometry>, cuts: seq<nat>, i: nat)
    requires Points(g) && g != [] && i < |legs|
    requires forall k :: 0 <= k < |legs| ==> LegSpans(g, legs, cuts, k)
    ensures LegMeets(legs, i)
  {
    LegEnds(g, legs, cuts, i);
    if i + 1 < |legs| {
      LegEnds(g, legs, cuts, i + 1);
    }
  }

  /** With two or more waypoints and a non-empty geometry: one non-empty leg for each pair of consecutive
      waypoints, each starting where the one before it ends; stitched together they give a prefix of the
      geometry with longitude and latitude swapped. */
  lemma LegsCoverAPrefix(o: Osrm, r: ProtoRoute)
    requires WellFormed(o) && |o.waypoints| >= 2 && Path(o) != []
    requires IsProto(o, r)
    ensures |r.geometry| == |o.waypoints| - 1
    ensures forall i :: 0 <= i < |r.geometry| ==> LegMeets(r.geometry, i)
    ensures 0 < |Stitch(r.geometry)| && Stitch(r.geometry) <= Swap(Path(o))
  {
    var g := Path(o);
    var cuts :| IsCutAt(o, r, cuts);
    StitchLegs(g, r.geometry, cuts);
    forall i | 0 <= i < |r.geometry| ensures LegMeets(r.geometry, i) {
      LegMeetsNext(g, r.geometry, cuts, i);
    }
  }

  /** Each leg ends at the first nearest, to its waypoint, of the points not passed before the leg. */
  lemma LegEndsNearItsWaypoint(o: Osrm, r: ProtoRoute, cuts: seq<nat>, i: nat)
    requires WellFormed(o) && |o.waypoints| >= 2 && Path(o) != []
    requires IsCutAt(o, r, cuts) && i < |r.geometry|
    ensures var leg := r.geometry[i].coordinates;
            && leg != [] && i + 1 < |cuts| && cuts[i] <= cuts[i + 1] < |Path(o)|
            && leg == Swap(Path(o))[cuts[i]..cuts[i + 1] + 1]
            && FirstNearest(Path(o), o.waypoints[i + 1], cuts[i], cuts[i + 1])
  {
    var g := Path(o);
    assert LegSpans(g, r.geometry, cuts, i) && CutFollows(g, o.waypoints, cuts, i);
    LegEnds(g, r.geometry, cuts, i);
    SwapSlice(g, cuts[i], cuts[i + 1] + 1);
  }
}
