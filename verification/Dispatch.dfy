/** handleFindAndNotifyDrivers: one attempt at finding a driver, and the chain of retries the timer drives. */
module Dispatch {
  import opened Prelude
  import opened Seats
  import opened DriverRegistry
  import TripStore
  import Route
  import Overlap

  /** Limit on the tried list: 120 s at 10 s intervals. */
  const MAX_TRIED := 12

  /** The selected fare in a search message. */
  datatype FareInfo = FareInfo(slug: string, cents: real, seats: int)

  datatype TripInfo = TripInfo(id: string, fare: Option<FareInfo>, route: Option<Route.ProtoRoute>)

  /** A search message: the trip, and the drivers it has been offered to. */
  datatype Search = Search(trip: Option<TripInfo>, tried: seq<string>)

  datatype Offer = Offer(driver: string, payload: Search)

  /** What the trip service answers when asked for the trip's status. */
  datatype StatusReply =
    | Unreachable
    | NotOk
    | Undecodable
    | Answer(status: TripStore.Status, hasDriver: bool, cents: Option<real>)

  /** What one attempt meets besides the registry: the status reply, the random pick, and the fate of the two
      publishes. */
  datatype Env = Env(reply: StatusReply, pick: nat, offerIo: Io, retryIo: Io)

  /** The check of one listed driver: the registry as his active trips are read, and the routes that could be
      fetched for them. */
  datatype Check = Check(ds: seq<DriverRec>, routes: map<string, Route.Osrm>)

  /** What one attempt reads of the registry. The lock is taken once to list the drivers and again for the check
      of each, so the registry may differ from one read to the next. */
  datatype View = View(listing: seq<DriverRec>, checks: seq<Check>)

  /** The check of the k-th listed driver. */
  function CheckAt(v: View, k: nat): Check {
    if k < |v.checks| then v.checks[k] else Check(v.listing, map[])
  }

  datatype SearchError = OutdatedFare | Exhausted | PublishFailed | MaxTriedReached

  datatype Result = Result(error: Option<SearchError>, offer: Option<Offer>, retry: Option<Search>)

  const NOTHING := Result(None, None, None)

  // --- Which drivers are eligible ------------------------------------------------------------

  /** The carpool rule: idle, or some active trip whose route is known overlaps the new one. */
  predicate Overlapping(ds: seq<DriverRec>, id: string, route: Option<Route.ProtoRoute>, routes: map<string, Route.Osrm>) {
    var active := ActiveTrips(ds, id);
    active == [] || exists i :: 0 <= i < |active| && active[i] in routes && Overlap.Dispatchable(Some(routes[active[i]]), route)
  }

  /** An idle driver passes the carpool rule, and a busy one exactly with one known route that overlaps. */
  lemma OverlappingMeans(ds: seq<DriverRec>, id: string, route: Option<Route.ProtoRoute>, routes: map<string, Route.Osrm>)
    ensures ActiveTrips(ds, id) == [] ==> Overlapping(ds, id, route, routes)
    ensures ActiveTrips(ds, id) != [] ==>
              (Overlapping(ds, id, route, routes) <==>
               exists trip :: trip in ActiveTrips(ds, id) && trip in routes && Overlap.Dispatchable(Some(routes[trip]), route))
  {
    var active := ActiveTrips(ds, id);
    if trip :| trip in active && trip in routes && Overlap.Dispatchable(Some(routes[trip]), route) {
      var i :| 0 <= i < |active| && active[i] == trip;
    }
  }

  predicate Free(c: Check, t: TripInfo, id: string)
    requires t.fare.Some?
  {
    if t.fare.value.slug == CARPOOL then Overlapping(c.ds, id, t.route, c.routes) else ActiveTrips(c.ds, id) == []
  }

  function Listed(v: View, t: TripInfo): seq<string>
    requires t.fare.Some?
  {
    AvailableDrivers(v.listing, t.fare.value.slug, t.fare.value.seats)
  }

  ghost predicate HasRoomIn(ds: seq<DriverRec>, t: TripInfo, id: string)
    requires t.fare.Some?
  {
    exists d :: d in ds && d.id == id && HasRoom(d, t.fare.value.slug, t.fare.value.seats)
  }

  /** The k-th of the listed drivers is this one, and he passes his check. */
  ghost predicate PassesAt(ids: seq<string>, k: nat, v: View, t: TripInfo, id: string)
    requires t.fare.Some?
  {
    k < |ids| && ids[k] == id && Free(CheckAt(v, k), t, id)
  }

  /** Not tried yet, with the package and the seats when the drivers were listed, and free for this trip when he
      was checked. */
  ghost predicate Eligible(v: View, t: TripInfo, tried: seq<string>, id: string)
    requires t.fare.Some?
  {
    id !in tried && exists k: nat :: PassesAt(Listed(v, t), k, v, t, id)
  }

  function Suitable(ids: seq<string>, v: View, t: TripInfo, tried: seq<string>): seq<string>
    requires t.fare.Some?
  {
    if ids == [] then []
    else
      var k := |ids| - 1;
      Suitable(ids[..k], v, t, tried) + if ids[k] !in tried && Free(CheckAt(v, k), t, ids[k]) then [ids[k]] else []
  }

  function Candidates(v: View, t: TripInfo, tried: seq<string>): seq<string>
    requires t.fare.Some?
  {
    Suitable(Listed(v, t), v, t, tried)
  }

  lemma PassesInInit(ids: seq<string>, v: View, t: TripInfo, id: string, k: nat)
    requires t.fare.Some? && ids != []
    ensures var n := |ids| - 1;
            PassesAt(ids, k, v, t, id) <==>
            PassesAt(ids[..n], k, v, t, id) || (k == n && ids[n] == id && Free(CheckAt(v, n), t, id))
  {
  }

  lemma {:induction false} SuitableMeans(ids: seq<string>, v: View, t: TripInfo, tried: seq<string>, id: string)
    requires t.fare.Some?
    ensures id in Suitable(ids, v, t, tried) <==> id !in tried && exists k: nat :: PassesAt(ids, k, v, t, id)
  {
    if ids != [] {
      var n := |ids| - 1;
      SuitableMeans(ids[..n], v, t, tried, id);
      forall k: nat ensures PassesAt(ids, k, v, t, id) <==>
        PassesAt(ids[..n], k, v, t, id) || (k == n && ids[n] == id && Free(CheckAt(v, n), t, id)) {
        PassesInInit(ids, v, t, id, k);
      }
      assert PassesAt(ids, n, v, t, id) <==> ids[n] == id && Free(CheckAt(v, n), t, id);
    }
  }

  /** xs are the elements of `ids` at the increasing positions ks. */
  predicate IsSelection(ks: seq<nat>, ids: seq<string>, xs: seq<string>) {
    && |ks| == |xs|
    && (forall i :: 0 <= i < |ks| ==> ks[i] < |ids| && xs[i] == ids[ks[i]])
    && (forall i, j :: 0 <= i < j < |ks| ==> ks[i] < ks[j])
  }

  lemma SelectionSnoc(ks: seq<nat>, ids: seq<string>, xs: seq<string>, id: string)
    requires IsSelection(ks, ids, xs)
    ensures IsSelection(ks, ids + [id], xs) && IsSelection(ks + [|ids|], ids + [id], xs + [id])
  {
  }

  /** The drivers that pass come in the order they were listed, each as often as he passes. */
  lemma {:induction false} SuitableInOrder(ids: seq<string>, v: View, t: TripInfo, tried: seq<string>) returns (ks: seq<nat>)
    requires t.fare.Some?
    ensures IsSelection(ks, ids, Suitable(ids, v, t, tried))
    ensures forall k: nat :: k in ks <==> k < |ids| && ids[k] !in tried && Free(CheckAt(v, k), t, ids[k])
  {
    if ids == [] {
      ks := [];
    } else {
      var n := |ids| - 1;
      var init := SuitableInOrder(ids[..n], v, t, tried);
      SelectionSnoc(init, ids[..n], Suitable(ids[..n], v, t, tried), ids[n]);
      assert ids == ids[..n] + [ids[n]];
      ks := if ids[n] !in tried && Free(CheckAt(v, n), t, ids[n]) then init + [n] else init;
    }
  }

  /** The candidates are exactly the eligible drivers. */
  lemma CandidatesAreTheEligible(v: View, t: TripInfo, tried: seq<string>, id: string)
    requires t.fare.Some?
    ensures id in Candidates(v, t, tried) <==> Eligible(v, t, tried, id)
  {
    SuitableMeans(Listed(v, t), v, t, tried, id);
  }

  /** An eligible driver had room when the drivers were listed. */
  lemma EligibleHasRoom(v: View, t: TripInfo, tried: seq<string>, id: string)
    requires t.fare.Some? && Eligible(v, t, tried, id)
    ensures HasRoomIn(v.listing, t, id)
  {
    AvailableDriversMeans(v.listing, t.fare.value.slug, t.fare.value.seats, id);
  }

  /** With room and free in one and the same state of the registry. */
  ghost predicate FitIn(c: Check, t: TripInfo, id: string)
    requires t.fare.Some?
  {
    HasRoomIn(c.ds, t, id) && Free(c, t, id)
  }

  /** Nothing changes between the reads of the attempt. */
  predicate Steady(v: View, t: TripInfo, routes: map<string, Route.Osrm>)
    requires t.fare.Some?
  {
    forall k :: 0 <= k < |Listed(v, t)| ==> CheckAt(v, k) == Check(v.listing, routes)
  }

  /** If the registry stays as it is during the attempt, eligible means untried, with room and free at once. */
  lemma SteadyEligible(v: View, t: TripInfo, routes: map<string, Route.Osrm>, tried: seq<string>, id: string)
    requires t.fare.Some? && Steady(v, t, routes)
    ensures Eligible(v, t, tried, id) <==>
            id !in tried && FitIn(Check(v.listing, routes), t, id)
  {
    AvailableDriversMeans(v.listing, t.fare.value.slug, t.fare.value.seats, id);
    if FitIn(Check(v.listing, routes), t, id) {
      var k :| 0 <= k < |Listed(v, t)| && Listed(v, t)[k] == id;
      assert PassesAt(Listed(v, t), k, v, t, id);
    }
  }

  /** The drivers were listed from `listing`, and the same routes could be fetched at every check; what the
      registry holds at each check is open. */
  ghost predicate ListedFrom(v: View, listing: seq<DriverRec>, t: TripInfo, routes: map<string, Route.Osrm>)
    requires t.fare.Some?
  {
    && v.listing == listing && |v.checks| >= |Listed(v, t)|
    && forall k :: 0 <= k < |v.checks| ==> v.checks[k].routes == routes
  }

  /** The k-th listed driver, if he becomes a candidate, was fit when the drivers were listed or is at his check. */
  ghost predicate FitIfPicked(v: View, k: nat, t: TripInfo, tried: seq<string>, routes: map<string, Route.Osrm>)
    requires t.fare.Some?
  {
    k < |Listed(v, t)| && Listed(v, t)[k] !in tried && Free(CheckAt(v, k), t, Listed(v, t)[k]) ==>
      var id := Listed(v, t)[k]; FitIn(Check(v.listing, routes), t, id) || FitIn(CheckAt(v, k), t, id)
  }

  /** Whatever happens to the registry between the reads, every candidate was fit at one of his two. */
  ghost predicate CandidatesAreFit(listing: seq<DriverRec>, t: TripInfo, tried: seq<string>, routes: map<string, Route.Osrm>)
    requires t.fare.Some?
  {
    forall v, k: nat :: ListedFrom(v, listing, t, routes) ==> FitIfPicked(v, k, t, tried, routes)
  }

  predicate ListedAreFree(listing: seq<DriverRec>, t: TripInfo, tried: seq<string>, routes: map<string, Route.Osrm>)
    requires t.fare.Some?
  {
    forall id :: id in Listed(View(listing, []), t) && id !in tried ==> Free(Check(listing, routes), t, id)
  }

  lemma FreeWhenListedIsFit(v: View, k: nat, t: TripInfo, tried: seq<string>, routes: map<string, Route.Osrm>)
    requires t.fare.Some? && ListedAreFree(v.listing, t, tried, routes)
    ensures FitIfPicked(v, k, t, tried, routes)
  {
    if k < |Listed(v, t)| {
      AvailableDriversMeans(v.listing, t.fare.value.slug, t.fare.value.seats, Listed(v, t)[k]);
      assert Listed(v, t)[k] in Listed(View(v.listing, []), t);
    }
  }

  /** A listed driver who is busy and unregisters before his check is free there, without any room. */
  lemma GoneAtTheCheck(listing: seq<DriverRec>, k: nat, t: TripInfo, tried: seq<string>, routes: map<string, Route.Osrm>)
    returns (v: View)
    requires t.fare.Some? && k < |Listed(View(listing, []), t)|
    requires var id := Listed(View(listing, []), t)[k]; id !in tried && !Free(Check(listing, routes), t, id)
    ensures ListedFrom(v, listing, t, routes) && !FitIfPicked(v, k, t, tried, routes)
  {
    var gone := Check([], routes);
    v := View(listing, seq(|Listed(View(listing, []), t)|, i => gone));
    assert CheckAt(v, k) == gone && ActiveTrips([], Listed(v, t)[k]) == [];
  }

  /** Exactly when no change of the registry between the reads can get an offer to a driver who was fit at
      neither of them: every listed, untried driver was free already when the drivers were listed. */
  lemma CandidatesAreFitIff(listing: seq<DriverRec>, t: TripInfo, tried: seq<string>, routes: map<string, Route.Osrm>)
    requires t.fare.Some?
    ensures CandidatesAreFit(listing, t, tried, routes) <==> ListedAreFree(listing, t, tried, routes)
  {
    if ListedAreFree(listing, t, tried, routes) {
      forall v, k: nat | ListedFrom(v, listing, t, routes) ensures FitIfPicked(v, k, t, tried, routes) {
        FreeWhenListedIsFit(v, k, t, tried, routes);
      }
    } else {
      var ids := Listed(View(listing, []), t);
      var k :| 0 <= k < |ids| && ids[k] !in tried && !Free(Check(listing, routes), t, ids[k]);
      var v := GoneAtTheCheck(listing, k, t, tried, routes);
    }
  }

  /** One such change, with real routes: a driver on a trip that leads elsewhere is listed with room, and before his
      check he is given another along the very route asked for, which fills his seats. */
  lemma ReadsApartOfferTheUnfit(id: string, a: string, b: string, away: Route.Osrm, o: Route.Osrm, r: Route.ProtoRoute)
    returns (v: View, t: TripInfo)
    requires a != b && Route.WellFormed(away) && Route.WellFormed(o) && Route.IsProto(o, r)
    requires !Overlap.Dispatchable(Some(away), Some(r))
    ensures t.fare.Some? && t.route == Some(r) && Candidates(v, t, []) == [id]
    ensures |v.checks| == 1 && v.checks[0].routes == map[a := away, b := o]
    ensures !FitIn(v.checks[0], t, id) && !FitIn(Check(v.listing, v.checks[0].routes), t, id)
  {
    var listed := DriverRec(id, CARPOOL, 2, 1, [a]);
    var checked := DriverRec(id, CARPOOL, 2, 0, [a, b]);
    var routes := map[a := away, b := o];
    t := TripInfo("trip", Some(FareInfo(CARPOOL, 100.0, 1)), Some(r));
    v := View([listed], [Check([checked], routes)]);
    OneListed(listed, CARPOOL, 1);
    Overlap.OwnRouteOverlaps(o, r);
    BusyElsewhere(listed, a, Some(r), routes);
    OverlapsOn(checked, [a, b], 1, Some(r), routes);
    OneSuitable(id, v, t);
    assert !HasRoomIn([checked], t, id);
  }

  lemma BusyElsewhere(d: DriverRec, a: string, route: Option<Route.ProtoRoute>, routes: map<string, Route.Osrm>)
    requires d.active == [a] && a in routes && !Overlap.Dispatchable(Some(routes[a]), route)
    ensures !Overlapping([d], d.id, route, routes)
  {
    assert ActiveTrips([d], d.id) == [a];
  }

  lemma OverlapsOn(d: DriverRec, active: seq<string>, i: nat, route: Option<Route.ProtoRoute>, routes: map<string, Route.Osrm>)
    requires d.active == active && i < |active| && active[i] in routes && Overlap.Dispatchable(Some(routes[active[i]]), route)
    ensures Overlapping([d], d.id, route, routes)
  {
    assert ActiveTrips([d], d.id) == active;
  }

  /** Such routes: one at (0, 0), the other at (10, 10). */
  lemma RoutesApart() returns (away: Route.Osrm, o: Route.Osrm, r: Route.ProtoRoute)
    ensures Route.WellFormed(away) && Route.WellFormed(o) && Route.IsProto(o, r)
    ensures !Overlap.Dispatchable(Some(away), Some(r))
  {
    o, away := Overlap.OnePoint(0.0, 0.0), Overlap.OnePoint(10.0, 10.0);
    r := Overlap.OnePointProto(0.0, 0.0);
    Overlap.OnePointHasProto(0.0, 0.0);
    Overlap.OnePointBox(10.0, 10.0);
    assert r.geometry[0].coordinates[0] == Route.Coordinate(0.0, 0.0);
    Overlap.OutsideIsNotDispatchable(away, r, Overlap.Box(10.0, 10.0, 10.0, 10.0));
  }

  lemma OneListed(d: DriverRec, slug: string, n: int)
    requires HasRoom(d, slug, n)
    ensures AvailableDrivers([d], slug, n) == [d.id]
  {
    assert [d][..0] == [] && AvailableDrivers([], slug, n) == [];
  }

  lemma OneSuitable(id: string, v: View, t: TripInfo)
    requires t.fare.Some? && Listed(v, t) == [id] && Free(CheckAt(v, 0), t, id)
    ensures Candidates(v, t, []) == [id]
  {
    assert [id][..0] == [] && Suitable([], v, t, []) == [];
  }

  // --- One attempt -----------------------------------------------------------------------------

  predicate Malformed(s: Search) {
    s.trip.None? || s.trip.value.id == "" || s.trip.value.fare.None?
  }

  /** The trip needs no driver any more, or its status cannot be had. */
  predicate Stops(reply: StatusReply) {
    || reply.Unreachable? || reply.NotOk?
    || (reply.Answer? && (reply.hasDriver || reply.status in {TripStore.Completed, TripStore.Cancelled, TripStore.Accepted}))
  }

  predicate Outdated(reply: StatusReply, fare: FareInfo) {
    reply.Answer? && reply.cents.Some? && reply.cents.value > fare.cents
  }

  function Attempt(v: View, s: Search, env: Env): Result {
    if Malformed(s) || Stops(env.reply) then NOTHING
    else if Outdated(env.reply, s.trip.value.fare.value) then Result(Some(OutdatedFare), None, None)
    else
      var ids := Candidates(v, s.trip.value, s.tried);
      if ids == [] then Result(Some(Exhausted), None, None)
      else
        var driver := ids[env.pick % |ids|];
        var next := s.(tried := s.tried + [driver]);
        if env.offerIo.Failed? then Result(Some(PublishFailed), None, None)
        else if env.offerIo.Unconfirmed? then Result(Some(PublishFailed), Some(Offer(driver, next)), None)
        else if |next.tried| < MAX_TRIED then
          Result(None, Some(Offer(driver, next)), if env.retryIo.Failed? then None else Some(next))
        else Result(Some(MaxTriedReached), Some(Offer(driver, next)), None)
  }

  method CheckDriverOverlap(service: Service, driverID: string, newRoute: Option<Route.ProtoRoute>, routes: map<string, Route.Osrm>)
    returns (overlap: bool)
    requires service.Valid()
    ensures overlap <==> Overlapping(service.Contents(), driverID, newRoute, routes)
  {
    var activeTrips := service.GetDriverActiveTrips(driverID);
    if |activeTrips| == 0 {
      return true;
    }
    overlap := SomeOverlaps(activeTrips, newRoute, routes);
  }

  /** The loop over the active trips; a trip whose route cannot be fetched is passed over. */
  method SomeOverlaps(activeTrips: seq<string>, newRoute: Option<Route.ProtoRoute>, routes: map<string, Route.Osrm>)
    returns (overlap: bool)
    ensures overlap <==> exists i :: 0 <= i < |activeTrips| && activeTrips[i] in routes
                                     && Overlap.Dispatchable(Some(routes[activeTrips[i]]), newRoute)
  {
    for i := 0 to |activeTrips|
      invariant forall j :: 0 <= j < i && activeTrips[j] in routes ==> !Overlap.Dispatchable(Some(routes[activeTrips[j]]), newRoute)
    {
      if activeTrips[i] in routes {
        var match_ := Overlap.RoutesOverlap(Some(routes[activeTrips[i]]), newRoute);
        if match_ {
          return true;
        }
      }
    }
    return false;
  }

  /** The registry as one locked read finds it, and what can be fetched after it. Other requests may change the
      registry in between, so each read has an object of its own; it is the same one if nothing changed. */
  datatype Reading = Reading(service: Service, routes: map<string, Route.Osrm>)

  ghost function Found(r: Reading): Check
    requires r.service.Valid()
    reads r.service, r.service.drivers, set d | d in r.service.drivers :: d.ids
  {
    Check(r.service.Contents(), r.routes)
  }

  /** The overlap rule for carpool, the idle rule for every other package. */
  method IsFree(reading: Reading, id: string, t: TripInfo) returns (free: bool)
    requires reading.service.Valid() && t.fare.Some?
    ensures free <==> Free(Check(reading.service.Contents(), reading.routes), t, id)
    ensures ActiveTrips(reading.service.Contents(), id) == [] ==> free
    ensures t.fare.value.slug != "carpool" && ActiveTrips(reading.service.Contents(), id) != [] ==> !free
  {
    if t.fare.value.slug == CARPOOL {
      free := CheckDriverOverlap(reading.service, id, t.route, reading.routes);
    } else {
      var activeTrips := reading.service.GetDriverActiveTrips(id);
      free := |activeTrips| == 0;
    }
  }

  method TriedSet(tried: seq<string>) returns (triedMap: map<string, bool>)
    ensures forall id :: id in triedMap <==> id in tried
  {
    triedMap := map[];
    for i := 0 to |tried|
      invariant forall id :: id in triedMap <==> id in tried[..i]
    {
      triedMap := triedMap[tried[i] := true];
    }
    assert tried[..|tried|] == tried;
  }

  method FilterSuitable(listing: Service, checks: seq<Reading>, ghost v: View, all: seq<string>, t: TripInfo, tried: seq<string>)
    returns (suitable: seq<string>)
    requires listing.Valid() && v.listing == listing.Contents() && |v.checks| == |checks|
    requires forall k :: 0 <= k < |checks| ==> checks[k].service.Valid() && v.checks[k] == Found(checks[k])
    requires t.fare.Some?
    ensures suitable == Suitable(all, v, t, tried)
  {
    suitable := [];
    var triedMap := TriedSet(tried);
    for i := 0 to |all|
      invariant suitable == Suitable(all[..i], v, t, tried)
    {
      NextSuitable(all, i, v, t, tried);
      if all[i] !in triedMap {
        var free := PassesCheck(listing, checks, v, i, all[i], t);
        if free {
          suitable := suitable + [all[i]];
        }
      }
    }
    assert all[..|all|] == all;
  }

  /** The check of the i-th listed driver. */
  method PassesCheck(listing: Service, checks: seq<Reading>, ghost v: View, i: nat, id: string, t: TripInfo)
    returns (free: bool)
    requires listing.Valid() && v.listing == listing.Contents() && |v.checks| == |checks|
    requires forall k :: 0 <= k < |checks| ==> checks[k].service.Valid() && v.checks[k] == Found(checks[k])
    requires t.fare.Some?
    ensures free <==> Free(CheckAt(v, i), t, id)
  {
    if i < |checks| {
      free := IsFree(checks[i], id, t);
    } else {
      free := IsFree(Reading(listing, map[]), id, t);
    }
  }

  lemma NextSuitable(ids: seq<string>, i: nat, v: View, t: TripInfo, tried: seq<string>)
    requires t.fare.Some? && i < |ids|
    ensures Suitable(ids[..i + 1], v, t, tried) ==
            Suitable(ids[..i], v, t, tried) + if ids[i] !in tried && Free(CheckAt(v, i), t, ids[i]) then [ids[i]] else []
  {
    assert ids[..i + 1][..i] == ids[..i];
  }

  method FindCandidates(listing: Service, checks: seq<Reading>, ghost v: View, t: TripInfo, tried: seq<string>)
    returns (suitable: seq<string>)
    requires listing.Valid() && v.listing == listing.Contents() && |v.checks| == |checks|
    requires forall k :: 0 <= k < |checks| ==> checks[k].service.Valid() && v.checks[k] == Found(checks[k])
    requires t.fare.Some?
    ensures suitable == Candidates(v, t, tried)
  {
    var reqSeats := 1;
    if t.fare.value.seats > 0 {
      reqSeats := t.fare.value.seats;
    }
    var all := listing.FindAvailableDrivers(t.fare.value.slug, reqSeats);
    SameSeats(v.listing, t.fare.value.slug, t.fare.value.seats, reqSeats);
    suitable := FilterSuitable(listing, checks, v, all, t, tried);
  }

  method HandleFindAndNotifyDrivers(listing: Service, checks: seq<Reading>, ghost v: View, payload: Search, env: Env)
    returns (error: Option<SearchError>, offer: Option<Offer>, retry: Option<Search>)
    requires listing.Valid() && v.listing == listing.Contents() && |v.checks| == |checks|
    requires forall k :: 0 <= k < |checks| ==> checks[k].service.Valid() && v.checks[k] == Found(checks[k])
    ensures Result(error, offer, retry) == Attempt(v, payload, env)
    ensures env.reply.Answer? && (env.reply.hasDriver || env.reply.status == TripStore.Accepted
                                  || env.reply.status == TripStore.Completed || env.reply.status == TripStore.Cancelled) ==>
              error == None && offer == None && retry == None
    ensures env.reply.Unreachable? || env.reply.NotOk? ==> error == None && offer == None && retry == None
    ensures payload.trip.None? || payload.trip.value.id == "" || payload.trip.value.fare.None? ==>
              error == None && offer == None && retry == None
    ensures offer.Some? && env.reply.Answer? && env.reply.cents.Some? ==>
              env.reply.cents.value <= payload.trip.value.fare.value.cents
    ensures retry.Some? ==> offer.Some? && retry.value == offer.value.payload && |retry.value.tried| < 12
  {
    error, offer, retry := None, None, None;
    if payload.trip.None? || payload.trip.value.id == "" || payload.trip.value.fare.None? {
      return;
    }
    var t := payload.trip.value;
    match env.reply {
      case Unreachable => return;
      case NotOk => return;
      case Undecodable =>
      case Answer(status, hasDriver, cents) =>
        if hasDriver {
          return;
        }
        if status == TripStore.Completed || status == TripStore.Cancelled || status == TripStore.Accepted {
          return;
        }
        if cents.Some? && cents.value > t.fare.value.cents {
          error := Some(OutdatedFare);
          return;
        }
    }
    var suitable := FindCandidates(listing, checks, v, t, payload.tried);
    if |suitable| == 0 {
      error := Some(Exhausted);
      return;
    }
    var driver := suitable[env.pick % |suitable|];
    var next := payload.(tried := payload.tried + [driver]);
    if !env.offerIo.Failed? {
      offer := Some(Offer(driver, next));
    }
    if !env.offerIo.Done? {
      error := Some(PublishFailed);
      return;
    }
    if |next.tried| < MAX_TRIED {
      if !env.retryIo.Failed? {
        retry := Some(next);
      }
    } else {
      error := Some(MaxTriedReached);
    }
  }

  /** The trip is not known to be taken, gone or dearer, or nothing at all can be learnt from the answer. */
  predicate Open(s: Search, reply: StatusReply) {
    && s.trip.Some? && s.trip.value.id != "" && s.trip.value.fare.Some?
    && match reply
       case Unreachable => false
       case NotOk => false
       case Undecodable => true
       case Answer(status, hasDriver, cents) =>
         && !hasDriver && (status == TripStore.Pending || status == TripStore.Payed)
         && (cents.Some? ==> cents.value <= s.trip.value.fare.value.cents)
  }

  /** A trip that has a driver, or is accepted, completed or cancelled, is left alone, and so is a message without
      a trip, an id or a fare, and a trip whose status cannot be had; any other is either open or turned away as
      outdated, and never is anything sent unless it is open. */
  lemma NothingIsSentUnlessOpen(v: View, s: Search, env: Env)
    ensures env.reply.Answer? && (env.reply.hasDriver || env.reply.status == TripStore.Accepted
                                  || env.reply.status == TripStore.Completed || env.reply.status == TripStore.Cancelled) ==>
              Attempt(v, s, env) == NOTHING
    ensures env.reply.Unreachable? || env.reply.NotOk? ==> Attempt(v, s, env) == NOTHING
    ensures s.trip.None? || s.trip.value.id == "" || s.trip.value.fare.None? ==> Attempt(v, s, env) == NOTHING
    ensures !Open(s, env.reply) ==>
              Attempt(v, s, env) == NOTHING || Attempt(v, s, env) == Result(Some(OutdatedFare), None, None)
    ensures Attempt(v, s, env).error == Some(OutdatedFare) <==>
              && s.trip.Some? && s.trip.value.id != "" && s.trip.value.fare.Some?
              && env.reply.Answer? && !env.reply.hasDriver
              && (env.reply.status == TripStore.Pending || env.reply.status == TripStore.Payed)
              && env.reply.cents.Some? && env.reply.cents.value > s.trip.value.fare.value.cents
  {
  }

  /** The search is exhausted exactly if an open trip has no eligible driver. */
  lemma ExhaustedIffNoneEligible(v: View, s: Search, env: Env)
    ensures Attempt(v, s, env).error == Some(Exhausted) <==>
            Open(s, env.reply) && forall id :: !Eligible(v, s.trip.value, s.tried, id)
  {
    if !Open(s, env.reply) {
      NothingIsSentUnlessOpen(v, s, env);
      return;
    }
    var ids := Candidates(v, s.trip.value, s.tried);
    if ids == [] {
      forall id ensures !Eligible(v, s.trip.value, s.tried, id) {
        CandidatesAreTheEligible(v, s.trip.value, s.tried, id);
      }
    } else {
      CandidatesAreTheEligible(v, s.trip.value, s.tried, ids[0]);
    }
  }

  /** An offer goes out if and only if the trip is open, someone is eligible and the publish takes effect; a
      retry follows it if and only if the publish is confirmed, the limit is not reached and the retry's own
      publish takes effect. */
  lemma OfferedIff(v: View, s: Search, env: Env)
    ensures var r := Attempt(v, s, env);
            && (r.offer.Some? <==>
                  Open(s, env.reply) && !env.offerIo.Failed? && exists id :: Eligible(v, s.trip.value, s.tried, id))
            && (r.retry.Some? <==> r.offer.Some? && env.offerIo.Done? && |s.tried| + 1 < 12 && !env.retryIo.Failed?)
            && (r.error == Some(MaxTriedReached) <==> r.offer.Some? && env.offerIo.Done? && |s.tried| + 1 >= 12)
  {
    ExhaustedIffNoneEligible(v, s, env);
  }

  /** Every eligible driver of an open trip can be the one picked. */
  lemma EveryEligibleCanBePicked(v: View, s: Search, env: Env, id: string) returns (pick: nat)
    requires Open(s, env.reply) && !env.offerIo.Failed? && Eligible(v, s.trip.value, s.tried, id)
    ensures Attempt(v, s, env.(pick := pick)).offer == Some(Offer(id, s.(tried := s.tried + [id])))
  {
    var ids := Candidates(v, s.trip.value, s.tried);
    CandidatesAreTheEligible(v, s.trip.value, s.tried, id);
    pick :| 0 <= pick < |ids| && ids[pick] == id;
    PickInRange(pick, |ids|);
  }

  lemma PickInRange(k: nat, n: nat)
    requires k < n
    ensures k % n == k
  {
  }

  lemma {:induction false} SameSeats(ds: seq<DriverRec>, slug: string, n: int, m: int)
    requires AtLeastOne(n) == AtLeastOne(m)
    ensures AvailableDrivers(ds, slug, n) == AvailableDrivers(ds, slug, m)
  {
    if ds != [] {
      SameSeats(ds[..|ds| - 1], slug, n, m);
    }
  }

  // --- A delivery, and the chain the timer drives ---------------------------------------------------

  /** Everything one attempt meets. */
  datatype Turn = Turn(view: View, env: Env)

  /** What a delivery sends: its offers, and the retry it schedules. */
  datatype Sent = Sent(offers: seq<Offer>, retry: Option<Search>)

  /** ConsumeMessages runs the handler on the same message until it succeeds or the turns are used up. */
  function Deliver(s: Search, turns: seq<Turn>): Sent {
    if turns == [] then Sent([], None)
    else
      After(Attempt(turns[0].view, s, turns[0].env), Deliver(s, turns[1..]))
  }

  /** A publish that reports an error was not made. */
  predicate Clean(turns: seq<Turn>) {
    forall i :: 0 <= i < |turns| ==> !turns[i].env.offerIo.Unconfirmed?
  }

  /** All that a message and the retries scheduled after it send, when nobody answers an offer. */
  datatype ChainSent = ChainSent(offers: seq<Offer>, retries: seq<Search>)

  function Chain(s: Search, hops: seq<seq<Turn>>): ChainSent
    decreases |hops|
  {
    if hops == [] then ChainSent([], [])
    else
      var sent := Deliver(s, hops[0]);
      if sent.retry.None? then ChainSent(sent.offers, [])
      else
        var rest := Chain(sent.retry.value, hops[1..]);
        ChainSent(sent.offers + rest.offers, [sent.retry.value] + rest.retries)
  }

  /** What an attempt on s may leave behind. */
  predicate AttemptOk(s: Search, env: Env, r: Result) {
    && (r.offer.Some? ==> ExtendsBy(s, r.offer.value))
    && (r.retry.Some? ==> r.error.None? && r.offer.Some? && r.retry.value == r.offer.value.payload && |s.tried| + 1 < MAX_TRIED)
    && (r.error.Some? && r.offer.Some? ==> env.offerIo.Unconfirmed? || |s.tried| + 1 >= MAX_TRIED)
  }

  predicate ExtendsBy(s: Search, o: Offer) {
    o.payload == s.(tried := s.tried + [o.driver]) && o.driver !in s.tried
  }

  /** An offer goes to an eligible driver of an open trip, and carries the tried list with that driver added. */
  lemma OfferIsToEligible(v: View, s: Search, env: Env)
    ensures var r := Attempt(v, s, env);
            && AttemptOk(s, env, r)
            && (r.offer.Some? ==> Open(s, env.reply) && Eligible(v, s.trip.value, s.tried, r.offer.value.driver))
  {
    if Open(s, env.reply) {
      var ids := Candidates(v, s.trip.value, s.tried);
      if ids != [] {
        CandidatesAreTheEligible(v, s.trip.value, s.tried, ids[env.pick % |ids|]);
      }
    }
  }

  /** What a delivery of s may send in n attempts. */
  predicate SentOk(s: Search, sent: Sent, n: nat, clean: bool) {
    && (forall i :: 0 <= i < |sent.offers| ==> ExtendsBy(s, sent.offers[i]))
    && |sent.offers| <= n
    && (clean && |s.tried| + 1 < MAX_TRIED ==> |sent.offers| <= 1)
    && (sent.retry.Some? ==> |s.tried| + 1 < MAX_TRIED && sent.offers != []
                             && sent.retry.value == sent.offers[|sent.offers| - 1].payload)
  }

  function After(r: Result, rest: Sent): Sent {
    var first := if r.offer.Some? then [r.offer.value] else [];
    if r.error.None? then Sent(first, r.retry) else Sent(first + rest.offers, rest.retry)
  }

  lemma AfterIsOk(s: Search, env: Env, r: Result, rest: Sent, n: nat, clean: bool)
    requires AttemptOk(s, env, r) && SentOk(s, rest, n, clean) && (clean ==> !env.offerIo.Unconfirmed?)
    ensures SentOk(s, After(r, rest), n + 1, clean)
  {
  }

  /** One delivery: every offer adds one new driver to the tried list; below the limit it is a single offer
      unless a publish is made but not confirmed, at the limit there may be one for each attempt. */
  lemma {:induction false} DeliverBounds(s: Search, turns: seq<Turn>)
    ensures SentOk(s, Deliver(s, turns), |turns|, Clean(turns))
  {
    if turns != [] {
      OfferIsToEligible(turns[0].view, s, turns[0].env);
      DeliverBounds(s, turns[1..]);
      assert Clean(turns) ==> Clean(turns[1..]);
      AfterIsOk(s, turns[0].env, Attempt(turns[0].view, s, turns[0].env), Deliver(s, turns[1..]), |turns| - 1, Clean(turns));
    }
  }

  function HopsLeft(s: Search): nat { if |s.tried| + 1 >= MAX_TRIED then 0 else MAX_TRIED - 1 - |s.tried| }

  predicate FourAttempts(hops: seq<seq<Turn>>) {
    forall i :: 0 <= i < |hops| ==> |hops[i]| <= ATTEMPTS
  }

  predicate AllClean(hops: seq<seq<Turn>>) {
    forall i :: 0 <= i < |hops| ==> Clean(hops[i])
  }

  /** Along a chain driven by the timer alone the tried list never repeats a driver; retries and offers are bounded
      by the hops left. Publishes that report an error not being made, there is a single offer per hop below the
      limit and up to four where the limit is hit. */
  lemma {:induction false} TimerChainBounds(s: Search, hops: seq<seq<Turn>>)
    requires FourAttempts(hops) && Distinct(s.tried)
    ensures var c := Chain(s, hops);
            && |c.retries| <= HopsLeft(s)
            && |c.offers| <= ATTEMPTS * (HopsLeft(s) + 1)
            && (AllClean(hops) ==> |c.offers| <= HopsLeft(s) + 4)
            && (forall o :: o in c.offers ==> Distinct(o.payload.tried) && s.tried < o.payload.tried)
            && (forall r :: r in c.retries ==> Distinct(r.tried) && |r.tried| < MAX_TRIED)
    decreases |hops|
  {
    if hops != [] {
      DeliverBounds(s, hops[0]);
      var sent := Deliver(s, hops[0]);
      assert FourAttempts(hops[1..]) && (AllClean(hops) ==> AllClean(hops[1..]) && Clean(hops[0]));
      forall o | o in sent.offers ensures Distinct(o.payload.tried) && s.tried < o.payload.tried {
        var i :| 0 <= i < |sent.offers| && sent.offers[i] == o;
        assert ExtendsBy(s, sent.offers[i]);
      }
      if sent.retry.Some? {
        assert sent.offers[|sent.offers| - 1] in sent.offers;
        TimerChainBounds(sent.retry.value, hops[1..]);
      }
    }
  }

  // --- The bounds are met -----------------------------------------------------------------------------

  /** Some driver is left for the trip, whichever eleven have been tried. */
  ghost predicate Abundant(turn: Turn, t: TripInfo)
    requires t.fare.Some?
  {
    forall tried: seq<string> :: |tried| < MAX_TRIED ==> Candidates(turn.view, t, tried) != []
  }

  predicate AllGoesWell(turn: Turn, t: TripInfo)
    requires t.fare.Some?
  {
    turn.env.offerIo.Done? && turn.env.retryIo.Done? && !Stops(turn.env.reply) && !Outdated(turn.env.reply, t.fare.value)
  }

  /** The search can go on for as long as the limit allows. */
  ghost predicate Ready(s: Search, turn: Turn) {
    !Malformed(s) && |s.tried| < MAX_TRIED && Abundant(turn, s.trip.value) && AllGoesWell(turn, s.trip.value)
  }

  predicate OffersAndRetries(s: Search, r: Result) {
    && r.offer.Some? && r.offer.value.payload == s.(tried := s.tried + [r.offer.value.driver])
    && (|s.tried| + 1 < MAX_TRIED ==> r.error.None? && r.retry == Some(r.offer.value.payload))
    && (|s.tried| + 1 >= MAX_TRIED ==> r.error.Some? && r.retry.None?)
  }

  lemma WellAttempt(s: Search, turn: Turn)
    requires Ready(s, turn)
    ensures OffersAndRetries(s, Attempt(turn.view, s, turn.env))
  {
  }

  lemma {:induction false} WellDelivery(s: Search, turn: Turn, turns: seq<Turn>, r: Result)
    requires r == Attempt(turn.view, s, turn.env) && OffersAndRetries(s, r)
    requires turns != [] && forall i :: 0 <= i < |turns| ==> turns[i] == turn
    ensures var sent := Deliver(s, turns);
            if |s.tried| + 1 < MAX_TRIED then sent == Sent([r.offer.value], r.retry) else |sent.offers| == |turns| && sent.retry.None?
  {
    assert Deliver(s, turns) == After(r, Deliver(s, turns[1..]));
    if |turns| > 1 {
      WellDelivery(s, turn, turns[1..], r);
    } else {
      assert turns[1..] == [];
    }
  }

  lemma RetryIsReady(s: Search, turn: Turn, r: Result)
    requires Ready(s, turn) && OffersAndRetries(s, r) && HopsLeft(s) > 0
    ensures r.retry.Some? && Ready(r.retry.value, turn) && HopsLeft(r.retry.value) == HopsLeft(s) - 1
  {
    assert r.retry.value.trip == s.trip;
  }

  lemma ChainStep(s: Search, hops: seq<seq<Turn>>, sent: Sent, rest: seq<seq<Turn>>)
    requires hops != [] && sent == Deliver(s, hops[0]) && rest == hops[1..]
    ensures sent.retry.None? ==> Chain(s, hops) == ChainSent(sent.offers, [])
    ensures sent.retry.Some? ==>
              var c := Chain(sent.retry.value, rest);
              Chain(s, hops) == ChainSent(sent.offers + c.offers, [sent.retry.value] + c.retries)
  {
  }

  /** One hop of a search that can go on: a single offer and a retry, or at the limit four offers. */
  lemma WellHop(s: Search, turn: Turn, four: seq<Turn>, sent: Sent)
    requires Ready(s, turn) && four == [turn, turn, turn, turn] && sent == Deliver(s, four)
    ensures HopsLeft(s) == 0 ==> |sent.offers| == 4 && sent.retry.None?
    ensures HopsLeft(s) > 0 ==> |sent.offers| == 1 && sent.retry.Some?
                                && Ready(sent.retry.value, turn) && HopsLeft(sent.retry.value) == HopsLeft(s) - 1
  {
    var r := Attempt(turn.view, s, turn.env);
    WellAttempt(s, turn);
    WellDelivery(s, turn, four, r);
    if HopsLeft(s) > 0 {
      RetryIsReady(s, turn, r);
    }
  }

  /** Every hop runs the attempt up to four times, always in the same surroundings. */
  predicate SameTurns(hops: seq<seq<Turn>>, turn: Turn) {
    forall i :: 0 <= i < |hops| ==> hops[i] == [turn, turn, turn, turn]
  }

  /** With enough drivers and nobody answering, the chain makes all its retries and offers. */
  lemma {:induction false} TimerChainReachesBounds(s: Search, turn: Turn, hops: seq<seq<Turn>>)
    requires Ready(s, turn) && |hops| == HopsLeft(s) + 1 && SameTurns(hops, turn)
    ensures var c := Chain(s, hops); |c.retries| == HopsLeft(s) && |c.offers| == HopsLeft(s) + 4
    decreases |hops|
  {
    var sent := Deliver(s, hops[0]);
    WellHop(s, turn, hops[0], sent);
    ChainStep(s, hops, sent, hops[1..]);
    if HopsLeft(s) > 0 {
      TimerChainReachesBounds(sent.retry.value, turn, hops[1..]);
    }
  }

  /** For a fresh message and four attempts at each hop: at most 11 retries and, publishes that report an error not
      being made, at most 15 offers. */
  lemma FreshChainBounds(s: Search, hops: seq<seq<Turn>>)
    requires s.tried == [] && forall i :: 0 <= i < |hops| ==> |hops[i]| <= 4
    ensures |Chain(s, hops).retries| <= 11
    ensures AllClean(hops) ==> |Chain(s, hops).offers| <= 15
  {
    TimerChainBounds(s, hops);
  }

  /** And with enough drivers and nobody answering it comes to exactly 11 retries and 15 offers. */
  lemma FreshChainReachesBounds(s: Search, turn: Turn, hops: seq<seq<Turn>>)
    requires s.tried == [] && Ready(s, turn)
    requires |hops| == 12 && forall i :: 0 <= i < |hops| ==> hops[i] == [turn, turn, turn, turn]
    ensures |Chain(s, hops).retries| == 11 && |Chain(s, hops).offers| == 15
  {
    TimerChainReachesBounds(s, turn, hops);
  }

  lemma {:induction false} FewerInSet(xs: seq<string>)
    ensures |set x | x in xs| <= |xs|
  {
    if xs != [] {
      var init := xs[..|xs| - 1];
      FewerInSet(init);
      assert (set x | x in xs) == (set x | x in init) + {xs[|xs| - 1]};
    }
  }

  /** Twelve drivers of the package, each with the seats and, at every check, no trip, are enough. */
  lemma TwelveIdleDriversAreAbundant(turn: Turn, t: TripInfo, idle: set<string>)
    requires t.fare.Some? && |idle| >= MAX_TRIED
    requires forall id :: id in idle ==> HasRoomIn(turn.view.listing, t, id)
    requires forall id, k: nat :: id in idle ==> ActiveTrips(CheckAt(turn.view, k).ds, id) == []
    ensures Abundant(turn, t)
  {
    forall tried: seq<string> | |tried| < MAX_TRIED ensures Candidates(turn.view, t, tried) != [] {
      FewerInSet(tried);
      var used := set x | x in tried;
      if idle <= used {
        SubsetIsSmaller(idle, used);
      }
      var id :| id in idle && id !in used;
      AvailableDriversMeans(turn.view.listing, t.fare.value.slug, t.fare.value.seats, id);
      var k :| 0 <= k < |Listed(turn.view, t)| && Listed(turn.view, t)[k] == id;
      assert PassesAt(Listed(turn.view, t), k, turn.view, t, id);
      CandidatesAreTheEligible(turn.view, t, tried, id);
    }
  }

  lemma {:induction false} SubsetIsSmaller(a: set<string>, b: set<string>)
    requires a <= b
    ensures |a| <= |b|
  {
    if a != {} {
      var x :| x in a;
      SubsetIsSmaller(a - {x}, b - {x});
    }
  }
}
