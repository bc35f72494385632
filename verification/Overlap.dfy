/** The carpool overlap heuristic: the dispatcher's check on an OSRM route and the driver app's check on the
    same route in protobuf form. */
module Overlap {
  import opened Prelude
  import opened Route

  const TOLERANCE := 0.005

  datatype Box = Box(minLat: real, maxLat: real, minLon: real, maxLon: real)

  predicate Inside(b: Box, c: Coordinate) {
    b.minLat <= c.latitude <= b.maxLat && b.minLon <= c.longitude <= b.maxLon
  }

  function Widen(b: Box): Box {
    Box(b.minLat - TOLERANCE, b.maxLat + TOLERANCE, b.minLon - TOLERANCE, b.maxLon + TOLERANCE)
  }

  function Min(a: real, b: real): real { if b < a then b else a }

  function Max(a: real, b: real): real { if b > a then b else a }

  /** The box grown to hold one more point. */
  function Grow(b: Box, c: Coordinate): Box {
    Box(Min(b.minLat, c.latitude), Max(b.maxLat, c.latitude), Min(b.minLon, c.longitude), Max(b.maxLon, c.longitude))
  }

  function BoxFrom(start: Box, cs: seq<Coordinate>): Box {
    if cs == [] then start else Grow(BoxFrom(start, cs[..|cs| - 1]), cs[|cs| - 1])
  }

  /** The dispatcher starts from a box turned inside out. */
  const NOWHERE := Box(FAR, -FAR, FAR, -FAR)

  /** The points the dispatcher looks at: those with two numbers or more. */
  function Usable(g: seq<Point>): seq<Coordinate> {
    if g == [] then []
    else
      var p := g[|g| - 1];
      Usable(g[..|g| - 1]) + if |p| < 2 then [] else [Coordinate(p[1], p[0])]
  }

  predicate AllInside(b: Box, r: ProtoRoute) {
    forall i :: 0 <= i < |r.geometry| ==> AllLegInside(b, r.geometry[i].coordinates)
  }

  predicate AllLegInside(b: Box, cs: seq<Coordinate>) {
    forall k :: 0 <= k < |cs| ==> Inside(b, cs[k])
  }

  predicate FirstLegNonEmpty(r: ProtoRoute) {
    r.geometry != [] && r.geometry[0].coordinates != []
  }

  /** What the dispatcher decides; missing data counts as a match. */
  predicate Dispatchable(active: Option<Osrm>, r: Option<ProtoRoute>) {
    active.None? || active.value.routes == [] || r.None? ||
    var cs := Usable(active.value.routes[0].coordinates);
    cs == [] || (FirstLegNonEmpty(r.value) && AllInside(Widen(BoxFrom(NOWHERE, cs)), r.value))
  }

  lemma UsableNext(g: seq<Point>, i: nat)
    requires i < |g|
    ensures var cs := Usable(g[..i]);
            if |g[i]| < 2 then Usable(g[..i + 1]) == cs
            else
              && |Usable(g[..i + 1])| == |cs| + 1
              && BoxFrom(NOWHERE, Usable(g[..i + 1])) == Grow(BoxFrom(NOWHERE, cs), Coordinate(g[i][1], g[i][0]))
  {
    var cs := Usable(g[..i]);
    assert g[..i + 1][..i] == g[..i];
    if |g[i]| < 2 {
      assert cs + [] == cs;
    } else {
      assert (cs + [Coordinate(g[i][1], g[i][0])])[..|cs|] == cs;
    }
  }

  // --- The decision in degrees ---------------------------------------------------

  predicate UsableAt(g: seq<Point>, a: nat) { a < |g| && |g[a]| >= 2 }

  /** Some point of the path has at most, or at least, this longitude (axis 0) or latitude (axis 1). */
  ghost predicate HasAtMost(g: seq<Point>, axis: nat, x: real)
    requires axis < 2
  {
    exists a: nat :: UsableAt(g, a) && g[a][axis] <= x
  }

  ghost predicate HasAtLeast(g: seq<Point>, axis: nat, x: real)
    requires axis < 2
  {
    exists a: nat :: UsableAt(g, a) && g[a][axis] >= x
  }

  /** No farther than 0.005 degrees outside the extent of the path, in either direction. */
  ghost predicate NearExtent(g: seq<Point>, c: Coordinate) {
    && HasAtMost(g, 0, c.longitude + 0.005) && HasAtLeast(g, 0, c.longitude - 0.005)
    && HasAtMost(g, 1, c.latitude + 0.005) && HasAtLeast(g, 1, c.latitude - 0.005)
  }

  predicate InDegrees(c: Coordinate) { -360.0 <= c.latitude <= 360.0 && -360.0 <= c.longitude <= 360.0 }

  lemma BoundsSnoc(g: seq<Point>, axis: nat, x: real)
    requires g != [] && axis < 2
    ensures var last := g[|g| - 1];
            && (HasAtMost(g, axis, x) <==> HasAtMost(g[..|g| - 1], axis, x) || (|last| >= 2 && last[axis] <= x))
            && (HasAtLeast(g, axis, x) <==> HasAtLeast(g[..|g| - 1], axis, x) || (|last| >= 2 && last[axis] >= x))
  {
    var n := |g| - 1;
    if a: nat :| UsableAt(g[..n], a) && g[..n][a][axis] <= x { assert UsableAt(g, a); }
    if a: nat :| UsableAt(g[..n], a) && g[..n][a][axis] >= x { assert UsableAt(g, a); }
    if a: nat :| UsableAt(g, a) && g[a][axis] <= x { assert a < n ==> UsableAt(g[..n], a); }
    if a: nat :| UsableAt(g, a) && g[a][axis] >= x { assert a < n ==> UsableAt(g[..n], a); }
    assert |g[n]| >= 2 ==> UsableAt(g, n);
  }

  lemma {:induction false} BoxBounds(g: seq<Point>, x: real)
    requires -FAR < x < FAR
    ensures var b := BoxFrom(NOWHERE, Usable(g));
            && (b.minLon <= x <==> HasAtMost(g, 0, x)) && (b.maxLon >= x <==> HasAtLeast(g, 0, x))
            && (b.minLat <= x <==> HasAtMost(g, 1, x)) && (b.maxLat >= x <==> HasAtLeast(g, 1, x))
  {
    if g != [] {
      var n := |g| - 1;
      BoxBounds(g[..n], x);
      BoundsSnoc(g, 0, x);
      BoundsSnoc(g, 1, x);
      UsableNext(g, n);
      assert g[..n + 1] == g;
    }
  }

  lemma {:induction false} UsableMeans(g: seq<Point>)
    ensures Usable(g) != [] <==> exists a: nat :: UsableAt(g, a)
  {
    if g != [] {
      var n := |g| - 1;
      UsableMeans(g[..n]);
      if a: nat :| UsableAt(g[..n], a) { assert UsableAt(g, a); }
      if a: nat :| UsableAt(g, a) { assert a < n ==> UsableAt(g[..n], a); }
      assert |g[n]| >= 2 ==> UsableAt(g, n);
    }
  }

  lemma InsideMeans(g: seq<Point>, c: Coordinate)
    requires InDegrees(c)
    ensures Inside(Widen(BoxFrom(NOWHERE, Usable(g))), c) <==> NearExtent(g, c)
  {
    BoxBounds(g, c.longitude + 0.005);
    BoxBounds(g, c.longitude - 0.005);
    BoxBounds(g, c.latitude + 0.005);
    BoxBounds(g, c.latitude - 0.005);
  }

  /** For any path with a usable point, and a route in degrees: it is let through exactly if its first leg is not
      empty and none of its points is farther than 0.005 degrees outside the extent of the path. */
  lemma DispatchableMeans(o: Osrm, r: ProtoRoute)
    requires o.routes != [] && exists a: nat :: UsableAt(o.routes[0].coordinates, a)
    requires forall i, k :: 0 <= i < |r.geometry| && 0 <= k < |r.geometry[i].coordinates| ==> InDegrees(r.geometry[i].coordinates[k])
    ensures Dispatchable(Some(o), Some(r)) <==>
            && r.geometry != [] && r.geometry[0].coordinates != []
            && forall i, k :: 0 <= i < |r.geometry| && 0 <= k < |r.geometry[i].coordinates| ==>
                                NearExtent(o.routes[0].coordinates, r.geometry[i].coordinates[k])
  {
    var g := o.routes[0].coordinates;
    var box := Widen(BoxFrom(NOWHERE, Usable(g)));
    UsableMeans(g);
    forall i, k | 0 <= i < |r.geometry| && 0 <= k < |r.geometry[i].coordinates|
      ensures Inside(box, r.geometry[i].coordinates[k]) <==> NearExtent(g, r.geometry[i].coordinates[k])
    {
      InsideMeans(g, r.geometry[i].coordinates[k]);
    }
    assert AllInside(box, r) <==> forall i :: 0 <= i < |r.geometry| ==> AllLegInside(box, r.geometry[i].coordinates);
  }

  /** Without a stored route, without a usable point in it, or without a route to compare it to, it is let through. */
  lemma MissingDataMatches(o: Option<Osrm>, r: Option<ProtoRoute>)
    requires o.None? || r.None? || o.value.routes == [] || forall a: nat :: !UsableAt(o.value.routes[0].coordinates, a)
    ensures Dispatchable(o, r)
  {
    if o.Some? && o.value.routes != [] {
      UsableMeans(o.value.routes[0].coordinates);
    }
  }

  method RoutesOverlap(active: Option<Osrm>, newRoute: Option<ProtoRoute>) returns (overlap: bool)
    ensures overlap <==> Dispatchable(active, newRoute)
  {
    if active.None? || |active.value.routes| == 0 || newRoute.None? {
      return true;
    }
    var g := active.value.routes[0].coordinates;
    var minLat, minLon := FAR, FAR;
    var maxLat, maxLon := -FAR, -FAR;
    var pointsCount := 0;
    for i := 0 to |g|
      invariant pointsCount == |Usable(g[..i])|
      invariant Box(minLat, maxLat, minLon, maxLon) == BoxFrom(NOWHERE, Usable(g[..i]))
    {
      var coord := g[i];
      UsableNext(g, i);
      if |coord| < 2 {
        continue;
      }
      var lon, lat := coord[0], coord[1];
      pointsCount := pointsCount + 1;
      if lat < minLat { minLat := lat; }
      if lat > maxLat { maxLat := lat; }
      if lon < minLon { minLon := lon; }
      if lon > maxLon { maxLon := lon; }
    }
    assert g[..|g|] == g;
    if pointsCount == 0 {
      return true;
    }
    minLat, maxLat := minLat - TOLERANCE, maxLat + TOLERANCE;
    minLon, maxLon := minLon - TOLERANCE, maxLon + TOLERANCE;
    var route := newRoute.value;
    if !(|route.geometry| > 0 && |route.geometry[0].coordinates| > 0) {
      return false;
    }
    overlap := AllRoutePointsWithinBounds(route, Box(minLat, maxLat, minLon, maxLon));
  }

  method AllRoutePointsWithinBounds(route: ProtoRoute, b: Box) returns (all: bool)
    ensures all <==> AllInside(b, route)
  {
    for i := 0 to |route.geometry|
      invariant forall j :: 0 <= j < i ==> AllLegInside(b, route.geometry[j].coordinates)
    {
      var cs := route.geometry[i].coordinates;
      if |cs| == 0 {
        continue;
      }
      for k := 0 to |cs|
        invariant forall j :: 0 <= j < k ==> Inside(b, cs[j])
      {
        var c := cs[k];
        if c.latitude < b.minLat || c.latitude > b.maxLat || c.longitude < b.minLon || c.longitude > b.maxLon {
          assert !AllLegInside(b, cs);
          return false;
        }
      }
    }
    return true;
  }

  // --- The driver app ------------------------------------------------------------

  /** geometry.flatMap(g => g.coordinates) */
  function AllCoordinates(legs: seq<Geometry>): seq<Coordinate> {
    if legs == [] then [] else AllCoordinates(legs[..|legs| - 1]) + legs[|legs| - 1].coordinates
  }

  function PointBox(c: Coordinate): Box { Box(c.latitude, c.latitude, c.longitude, c.longitude) }

  /** routesOverlap in DriverTripOverview.tsx. */
  predicate AppOverlap(accepted: Option<ProtoRoute>, r: Option<ProtoRoute>) {
    accepted.None? || r.None? ||
    var all := AllCoordinates(accepted.value.geometry);
    all == [] ||
    (r.value.geometry != []
     && (exists i :: 0 <= i < |r.value.geometry| && r.value.geometry[i].coordinates != [])
     && AllInside(Widen(BoxFrom(PointBox(all[0]), all)), r.value))
  }

  // --- How the checks relate --------------------------------------------------------

  predicate Within(a: Box, b: Box) {
    b.minLat <= a.minLat && a.maxLat <= b.maxLat && b.minLon <= a.minLon && a.maxLon <= b.maxLon
  }

  /** A box holds the points it was grown by, and is the smallest such box around its start. */
  lemma {:induction false} BoxFromIsLeast(start: Box, cs: seq<Coordinate>, other: Box)
    ensures Within(start, BoxFrom(start, cs))
    ensures forall k :: 0 <= k < |cs| ==> Inside(BoxFrom(start, cs), cs[k])
    ensures Within(start, other) && AllLegInside(other, cs) ==> Within(BoxFrom(start, cs), other)
  {
    if cs != [] {
      BoxFromIsLeast(start, cs[..|cs| - 1], other);
    }
  }

  lemma {:induction false} UsableOfWellFormed(g: seq<Point>)
    requires Points(g)
    ensures Usable(g) == Swap(g)
  {
    if g != [] {
      UsableOfWellFormed(g[..|g| - 1]);
    }
  }

  /** Every point of the protobuf form is a point of the path. */
  lemma {:induction false} LegPointsAreOnPath(g: seq<Point>, legs: seq<Geometry>, cuts: seq<nat>, c: Coordinate)
    requires Points(g)
    requires forall i :: 0 <= i < |legs| ==> LegSpans(g, legs, cuts, i)
    ensures c in AllCoordinates(legs) ==> c in Swap(g)
  {
    if legs != [] {
      var n := |legs| - 1;
      forall i | 0 <= i < n ensures LegSpans(g, legs[..n], cuts, i) {
        assert LegSpans(g, legs, cuts, i);
      }
      LegPointsAreOnPath(g, legs[..n], cuts, c);
      assert LegSpans(g, legs, cuts, n);
      if g != [] && c in legs[n].coordinates {
        SwapSlice(g, cuts[n], cuts[n + 1] + 1);
      }
    }
  }

  lemma ProtoPointsAreOnPath(o: Osrm, r: ProtoRoute, c: Coordinate)
    requires WellFormed(o) && IsProto(o, r)
    ensures c in AllCoordinates(r.geometry) ==> c in Swap(Path(o))
  {
    var cuts :| IsCutAt(o, r, cuts);
    if |o.waypoints| < 2 {
      assert AllCoordinates(r.geometry) == AllCoordinates([]) + Swap(Path(o));
    } else {
      LegPointsAreOnPath(Path(o), r.geometry, cuts, c);
    }
  }

  lemma {:induction false} LegPointsAreAmongAll(legs: seq<Geometry>, i: nat, k: nat)
    requires i < |legs| && k < |legs[i].coordinates|
    ensures legs[i].coordinates[k] in AllCoordinates(legs)
  {
    if i < |legs| - 1 {
      LegPointsAreAmongAll(legs[..|legs| - 1], i, k);
    }
  }

  lemma FirstLegOfProto(o: Osrm, r: ProtoRoute)
    requires WellFormed(o) && IsProto(o, r) && Path(o) != []
    ensures FirstLegNonEmpty(r)
  {
    if |o.waypoints| >= 2 {
      LegsCoverAPrefix(o, r);
      assert LegMeets(r.geometry, 0);
    }
  }

  lemma OwnPointsInside(o: Osrm, r: ProtoRoute, box: Box)
    requires WellFormed(o) && IsProto(o, r) && AllLegInside(box, Swap(Path(o)))
    ensures AllInside(Widen(box), r)
  {
    forall i | 0 <= i < |r.geometry| ensures AllLegInside(Widen(box), r.geometry[i].coordinates) {
      forall k | 0 <= k < |r.geometry[i].coordinates| ensures Inside(Widen(box), r.geometry[i].coordinates[k]) {
        LegPointsAreAmongAll(r.geometry, i, k);
        ProtoPointsAreOnPath(o, r, r.geometry[i].coordinates[k]);
      }
    }
  }

  /** A route always overlaps its own protobuf form. */
  lemma OwnRouteOverlaps(o: Osrm, r: ProtoRoute)
    requires WellFormed(o) && IsProto(o, r)
    ensures Dispatchable(Some(o), Some(r))
  {
    UsableOfWellFormed(Path(o));
    if Path(o) != [] {
      FirstLegOfProto(o, r);
      var box := BoxFrom(NOWHERE, Swap(Path(o)));
      BoxFromIsLeast(NOWHERE, Swap(Path(o)), box);
      OwnPointsInside(o, r, box);
    }
  }

  /** The app's box around the legs lies within the dispatcher's box around the whole path. */
  lemma AppBoxWithin(o: Osrm, r: ProtoRoute)
    requires WellFormed(o) && IsProto(o, r) && AllCoordinates(r.geometry) != []
    ensures var all := AllCoordinates(r.geometry);
            Within(BoxFrom(PointBox(all[0]), all), BoxFrom(NOWHERE, Swap(Path(o))))
  {
    var all := AllCoordinates(r.geometry);
    var box := BoxFrom(NOWHERE, Swap(Path(o)));
    BoxFromIsLeast(NOWHERE, Swap(Path(o)), box);
    forall k | 0 <= k < |all| ensures Inside(box, all[k]) {
      assert all[k] in all;
      ProtoPointsAreOnPath(o, r, all[k]);
    }
    BoxFromIsLeast(PointBox(all[0]), all, box);
  }

  lemma InsideLarger(a: Box, b: Box, r: ProtoRoute)
    requires Within(a, b) && AllInside(Widen(a), r)
    ensures AllInside(Widen(b), r)
  {
    forall i | 0 <= i < |r.geometry| ensures AllLegInside(Widen(b), r.geometry[i].coordinates) {
      assert AllLegInside(Widen(a), r.geometry[i].coordinates);
    }
  }

  lemma ProtoOfEmptyPath(o: Osrm, r: ProtoRoute)
    requires WellFormed(o) && IsProto(o, r)
    ensures AllCoordinates(r.geometry) == [] <==> Path(o) == []
  {
    if Path(o) == [] {
      if AllCoordinates(r.geometry) != [] {
        ProtoPointsAreOnPath(o, r, AllCoordinates(r.geometry)[0]);
      }
    } else {
      FirstLegOfProto(o, r);
      LegPointsAreAmongAll(r.geometry, 0, 0);
    }
  }

  lemma AppBoxIsStricter(o: Osrm, r: ProtoRoute, new_: ProtoRoute)
    requires WellFormed(o) && IsProto(o, r) && AllCoordinates(r.geometry) != []
    requires var all := AllCoordinates(r.geometry); AllInside(Widen(BoxFrom(PointBox(all[0]), all)), new_)
    ensures AllInside(Widen(BoxFrom(NOWHERE, Swap(Path(o)))), new_)
  {
    AppBoxWithin(o, r);
    var all := AllCoordinates(r.geometry);
    InsideLarger(BoxFrom(PointBox(all[0]), all), BoxFrom(NOWHERE, Swap(Path(o))), new_);
  }

  /** Where the app lets a new route through against a trip's protobuf route, the dispatcher lets it through
      against the OSRM route exactly if the new route's first leg is non-empty or the trip's path is empty. */
  lemma AppImpliesDispatcher(o: Osrm, r: ProtoRoute, new_: ProtoRoute)
    requires WellFormed(o) && IsProto(o, r)
    requires AppOverlap(Some(r), Some(new_))
    ensures Dispatchable(Some(o), Some(new_)) <==> FirstLegNonEmpty(new_) || Path(o) == []
  {
    UsableOfWellFormed(Path(o));
    ProtoOfEmptyPath(o, r);
    if Path(o) != [] {
      AppBoxIsStricter(o, r, new_);
    }
  }

  /** Every route a driver is asked about is itself some route's protobuf form, and for those the app never lets
      through what the dispatcher turns away. */
  lemma AppImpliesDispatcherOnTrips(o: Osrm, r: ProtoRoute, asked: Osrm, new_: ProtoRoute)
    requires WellFormed(o) && IsProto(o, r) && WellFormed(asked) && IsProto(asked, new_)
    requires AppOverlap(Some(r), Some(new_))
    ensures Dispatchable(Some(o), Some(new_))
  {
    AppImpliesDispatcher(o, r, new_);
    ProtoOfEmptyPath(o, r);
    ProtoOfEmptyPath(asked, new_);
    if Path(asked) != [] {
      FirstLegOfProto(asked, new_);
    } else if Path(o) != [] {
      var i :| 0 <= i < |new_.geometry| && new_.geometry[i].coordinates != [];
      LegPointsAreAmongAll(new_.geometry, i, 0);
    }
  }

  // --- Routes that do not overlap ---------------------------------------------------

  /** A route that stays where it starts, and its protobuf form. */
  function OnePoint(lon: real, lat: real): Osrm { Osrm([[lon, lat]], [OsrmRoute(1.0, 1.0, [[lon, lat]])]) }

  function OnePointProto(lon: real, lat: real): ProtoRoute {
    ProtoRoute([Geometry([Coordinate(lat, lon)])], 1.0, 1.0)
  }

  lemma SwapOne(p: Point)
    requires |p| >= 2
    ensures Points([p]) && Swap([p]) == [Coordinate(p[1], p[0])]
  {
    assert [p][..0] == [];
  }

  lemma OnePathIsProto(o: Osrm, r: ProtoRoute)
    requires WellFormed(o) && |o.waypoints| < 2 && r.geometry == [Geometry(Swap(Path(o)))]
    requires r.distance == o.routes[0].distance && r.duration == o.routes[0].duration
    ensures IsProto(o, r)
  {
    assert IsCutAt(o, r, []);
  }

  lemma OnePointHasProto(lon: real, lat: real)
    ensures WellFormed(OnePoint(lon, lat)) && IsProto(OnePoint(lon, lat), OnePointProto(lon, lat))
  {
    SwapOne([lon, lat]);
    OnePathIsProto(OnePoint(lon, lat), OnePointProto(lon, lat));
  }

  lemma OnePointBox(lon: real, lat: real)
    requires -FAR < lon < FAR && -FAR < lat < FAR
    ensures WellFormed(OnePoint(lon, lat))
    ensures var cs := Usable(OnePoint(lon, lat).routes[0].coordinates);
            cs != [] && BoxFrom(NOWHERE, cs) == Box(lat, lat, lon, lon)
  {
    var g: seq<Point> := [[lon, lat]];
    var c := Coordinate(lat, lon);
    assert g[..0] == [] && [c][..0] == [];
    assert Usable(g) == [c];
    assert BoxFrom(NOWHERE, []) == NOWHERE;
    assert BoxFrom(NOWHERE, [c]) == Grow(NOWHERE, c);
  }

  lemma OutsideIsNotDispatchable(o: Osrm, r: ProtoRoute, b: Box)
    requires o.routes != [] && FirstLegNonEmpty(r)
    requires var cs := Usable(o.routes[0].coordinates); cs != [] && BoxFrom(NOWHERE, cs) == b
    requires !Inside(Widen(b), r.geometry[0].coordinates[0])
    ensures !Dispatchable(Some(o), Some(r))
  {
    assert !AllLegInside(Widen(b), r.geometry[0].coordinates);
  }

  predicate OnEarth(cs: seq<Coordinate>) {
    forall k :: 0 <= k < |cs| ==> -FAR <= cs[k].latitude <= FAR && -FAR <= cs[k].longitude <= FAR
  }

  lemma {:induction false} StitchedPointsAreAmongAll(legs: seq<Geometry>, c: Coordinate)
    requires c in Stitch(legs)
    ensures c in AllCoordinates(legs)
  {
    var n := |legs| - 1;
    if c !in legs[n].coordinates {
      StitchedPointsAreAmongAll(legs[..n], c);
    }
  }

  /** The two checks agree when the legs stitch back to the whole path and coordinates stay within the
      dispatcher's initial bounds. */
  lemma ChecksAgree(o: Osrm, r: ProtoRoute, new_: ProtoRoute)
    requires WellFormed(o) && IsProto(o, r)
    requires FirstLegNonEmpty(new_) && OnEarth(Swap(Path(o)))
    requires Stitch(r.geometry) == Swap(Path(o))
    ensures AppOverlap(Some(r), Some(new_)) <==> Dispatchable(Some(o), Some(new_))
  {
    UsableOfWellFormed(Path(o));
    ProtoOfEmptyPath(o, r);
    if Path(o) != [] {
      AppBoxWithin(o, r);
      forall c | c in Swap(Path(o)) ensures c in AllCoordinates(r.geometry) {
        StitchedPointsAreAmongAll(r.geometry, c);
      }
      DispatcherBoxWithin(Swap(Path(o)), AllCoordinates(r.geometry));
      var all := AllCoordinates(r.geometry);
      var app, dispatcher := BoxFrom(PointBox(all[0]), all), BoxFrom(NOWHERE, Swap(Path(o)));
      if AllInside(Widen(app), new_) { InsideLarger(app, dispatcher, new_); }
      if AllInside(Widen(dispatcher), new_) { InsideLarger(dispatcher, app, new_); }
    }
  }

  lemma DispatcherBoxWithin(path: seq<Coordinate>, all: seq<Coordinate>)
    requires path != [] && all != [] && OnEarth(path)
    requires forall c :: c in path ==> c in all
    ensures Within(BoxFrom(NOWHERE, path), BoxFrom(PointBox(all[0]), all))
  {
    var app := BoxFrom(PointBox(all[0]), all);
    BoxFromIsLeast(PointBox(all[0]), all, app);
    forall k | 0 <= k < |path| ensures Inside(app, path[k]) {
      assert path[k] in all;
    }
    // On earth, growing from the inside-out box or from the first point is the same.
    assert path[0] in path;
    FirstPointAbsorbsNowhere(path);
    BoxFromIsLeast(PointBox(path[0]), path, app);
  }

  lemma {:induction false} FirstPointAbsorbsNowhere(path: seq<Coordinate>)
    requires path != [] && OnEarth(path)
    ensures BoxFrom(NOWHERE, path) == BoxFrom(PointBox(path[0]), path)
  {
    if |path| == 1 {
      assert path[..0] == [];
    } else {
      FirstPointAbsorbsNowhere(path[..|path| - 1]);
    }
  }
}
