/** The driver service's in-memory registry: a list of driver objects updated in place. */
module DriverRegistry {
  import opened Seats

  /** A registered driver; its active trips are the first `count` slots of `ids`, as in a Go slice. */
  class Driver {
    const id: string
    const slug: string
    const capacity: int
    var available: int
    var ids: array<string>
    var count: nat

    constructor (id: string, slug: string, capacity: int)
      ensures this.id == id && this.slug == slug && this.capacity == capacity && available == capacity
      ensures count == 0 && fresh(ids)
    {
      this.id, this.slug, this.capacity := id, slug, capacity;
      available, count := capacity, 0;
      ids := new string[0];
    }

    ghost predicate Valid()
      reads this
    {
      count <= ids.Length
    }

    ghost function Rec(): DriverRec
      requires Valid()
      reads this, ids
    {
      DriverRec(id, slug, capacity, available, ids[..count])
    }

    /** append(d.ActiveTripIds, trip): in place if there is room, else into a larger array. */
    method AppendTrip(trip: string)
      requires Valid()
      modifies this`ids, this`count, ids
      ensures Valid() && (ids == old(ids) || fresh(ids))
      ensures ids[..count] == old(ids[..count]) + [trip]
    {
      if count == ids.Length {
        var larger := new string[2 * count + 1];
        for i := 0 to count
          invariant unchanged(this) && unchanged(ids)
          invariant forall k :: 0 <= k < i ==> larger[k] == ids[k]
        {
          larger[i] := ids[i];
        }
        ids := larger;
      }
      ids[count] := trip;
      count := count + 1;
    }

    /** Drops every occurrence of a trip, compacting the array in place. */
    method DropTrip(trip: string)
      requires Valid()
      modifies this`count, ids
      ensures Valid()
      ensures ids[..count] == Without(old(ids[..count]), trip)
    {
      var out := 0;
      ghost var was := ids[..count];
      for i := 0 to count
        invariant out <= i && count == old(count)
        invariant ids[..out] == Without(was[..i], trip)
        invariant forall k :: i <= k < count ==> ids[k] == was[k]
      {
        assert was[..i + 1][..i] == was[..i];
        if ids[i] != trip {
          ids[out] := ids[i];
          out := out + 1;
        }
      }
      assert was[..count] == was;
      count := out;
    }

    /** Takes seats for a trip; a driver who does not carpool gives all of them. */
    method Take(trip: string, seats: int)
      requires Valid()
      modifies this, ids
      ensures Valid() && (ids == old(ids) || fresh(ids))
      ensures Rec() == Reserve(old(Rec()), trip, seats)
    {
      if slug != CARPOOL {
        available := 0;
      } else {
        available := available - seats;
      }
      AppendTrip(trip);
    }

    /** Gives seats back, up to the capacity. */
    method GiveBack(trip: string, seats: int)
      requires Valid()
      modifies this, ids
      ensures Valid() && ids == old(ids)
      ensures Rec() == Release(old(Rec()), trip, seats)
    {
      if slug != CARPOOL {
        available := capacity;
      } else {
        available := Wrap32(available + seats);
        if available > capacity {
          available := capacity;
        }
      }
      DropTrip(trip);
    }
  }

  class Service {
    var drivers: seq<Driver>

    constructor ()
      ensures drivers == [] && Valid()
    {
      drivers := [];
    }

    /** No two entries share an object or an array. */
    ghost predicate Valid()
      reads this, drivers
    {
      && (forall i :: 0 <= i < |drivers| ==> drivers[i].Valid())
      && (forall i, j :: 0 <= i < j < |drivers| ==> drivers[i] != drivers[j] && drivers[i].ids != drivers[j].ids)
    }

    ghost function Contents(): (ds: seq<DriverRec>)
      requires Valid()
      reads this, drivers, set d | d in drivers :: d.ids
      ensures |ds| == |drivers|
      ensures forall i :: 0 <= i < |ds| ==> ds[i] == drivers[i].Rec()
    {
      seq(|drivers|, i requires 0 <= i < |drivers| && drivers[i].Valid() reads this, drivers, set d | d in drivers :: d.ids => drivers[i].Rec())
    }

    method RegisterDriver(driverID: string, packageSlug: string, capacity: int) returns (driver: Driver)
      requires Valid()
      modifies this
      ensures Valid() && fresh(driver) && drivers == old(drivers) + [driver]
      ensures Contents() == AfterRegistered(old(Contents()), driverID, packageSlug, capacity)
      ensures driver.id == driverID && driver.slug == packageSlug && driver.count == 0
      ensures driver.available == driver.capacity
              == if capacity > 0 then capacity else if packageSlug == "carpool" then 4 else 1
    {
      var cap := DefaultCapacity(packageSlug, capacity);
      driver := new Driver(driverID, packageSlug, cap);
      drivers := drivers + [driver];
      assert driver.ids[..driver.count] == [];
    }

    method UnregisterDriver(driverID: string)
      requires Valid()
      modifies this
      ensures Valid()
      ensures Contents() == AfterUnregistered(old(Contents()), driverID)
    {
      var i := FindDriver(driverID);
      UnregisteredAt(Contents(), driverID, i);
      if i < |drivers| {
        drivers := drivers[..i] + drivers[i + 1..];
        EntryRemoved(i);
      }
    }

    /** Removing one entry keeps the others, in order. */
    twostate lemma EntryRemoved(i: nat)
      requires old(Valid()) && i < |old(drivers)|
      requires drivers == old(drivers)[..i] + old(drivers)[i + 1..]
      requires forall k :: 0 <= k < |old(drivers)| ==> unchanged(old(drivers)[k]) && unchanged(old(drivers[k].ids))
      ensures Valid()
      ensures Contents() == old(Contents())[..i] + old(Contents())[i + 1..]
    {
      var was := old(drivers);
      assert forall k :: 0 <= k < |drivers| ==> drivers[k] == was[if k < i then k else k + 1];
      RecordsKept(i);
      var now, before := Contents(), old(Contents());
      assert |now| == |before| - 1;
      assert forall k :: 0 <= k < |now| ==> now[k] == before[if k < i then k else k + 1];
    }

    twostate lemma RecordsKept(i: nat)
      requires old(Valid()) && i < |old(drivers)| == |drivers| + 1
      requires forall k :: 0 <= k < |drivers| ==> drivers[k] == old(drivers)[if k < i then k else k + 1]
      requires forall k :: 0 <= k < |old(drivers)| ==> unchanged(old(drivers)[k]) && unchanged(old(drivers[k].ids))
      ensures Valid()
      ensures forall k :: 0 <= k < |drivers| ==> drivers[k].Rec() == old(drivers[if k < i then k else k + 1].Rec())
    {
    }

    /** findDriverLocked; |drivers| stands for nil. */
    method FindDriver(driverID: string) returns (i: nat)
      requires Valid()
      ensures i == Find(Contents(), driverID)
    {
      i := 0;
      while i < |drivers| && drivers[i].id != driverID
        invariant i <= |drivers|
        invariant forall j :: 0 <= j < i ==> drivers[j].id != driverID
      {
        i := i + 1;
      }
      FindIsFirst(Contents(), driverID, i);
    }

    /** Changing one driver and its array leaves every other entry as it was. */
    twostate lemma OthersUntouched(i: nat)
      requires old(Valid()) && drivers == old(drivers) && i < |drivers|
      requires drivers[i].Valid() && (drivers[i].ids == old(drivers[i].ids) || fresh(drivers[i].ids))
      requires forall j :: 0 <= j < |drivers| && j != i ==> unchanged(drivers[j]) && unchanged(old(drivers[j].ids))
      ensures Valid()
      ensures forall j :: 0 <= j < |drivers| && j != i ==> drivers[j].Rec() == old(drivers[j].Rec())
    {
    }

    method NotifyTripAccepted(driverID: string, tripID: string, requestedSeats: int) returns (ok: bool)
      requires Valid()
      modifies drivers, set d | d in drivers :: d.ids
      ensures Valid() && drivers == old(drivers)
      ensures forall d :: d in drivers ==> d.ids == old(d.ids) || fresh(d.ids)
      ensures ok <==> CanReserve(old(Contents()), driverID, requestedSeats)
      ensures Contents() == AfterAccepted(old(Contents()), driverID, tripID, requestedSeats)
    {
      var seats := if requestedSeats < 1 then 1 else requestedSeats;
      var i := FindDriver(driverID);
      if i == |drivers| {
        return false;
      }
      var d := drivers[i];
      if d.available < seats {
        return false;
      }
      ghost var ds := Contents();
      d.Take(tripID, seats);
      ok := true;
      OthersUntouched(i);
      assert Contents() == ds[i := Reserve(ds[i], tripID, seats)];
    }

    method NotifyTripCompleted(driverID: string, tripID: string, releasedSeats: int) returns (ok: bool)
      requires Valid()
      modifies drivers, set d | d in drivers :: d.ids
      ensures Valid() && drivers == old(drivers) && forall d :: d in drivers ==> d.ids == old(d.ids)
      ensures ok <==> Find(old(Contents()), driverID) < |drivers|
      ensures Contents() == AfterCompleted(old(Contents()), driverID, tripID, releasedSeats)
    {
      var seats := if releasedSeats < 1 then 1 else releasedSeats;
      var i := FindDriver(driverID);
      if i == |drivers| {
        return false;
      }
      var d := drivers[i];
      ghost var ds := Contents();
      d.GiveBack(tripID, seats);
      ok := true;
      OthersUntouched(i);
      assert Contents() == ds[i := Release(ds[i], tripID, seats)];
    }

    /** A copy, so that the caller never holds the driver's own array. */
    method GetDriverActiveTrips(driverID: string) returns (out: seq<string>)
      requires Valid()
      ensures out == ActiveTrips(Contents(), driverID)
      ensures (forall d :: d in drivers ==> d.id != driverID) ==> out == []
      ensures forall i :: 0 <= i < |drivers| && drivers[i].id == driverID && (forall j :: 0 <= j < i ==> drivers[j].id != driverID) ==>
                            out == drivers[i].ids[..drivers[i].count]
    {
      var i := FindDriver(driverID);
      if i < |drivers| && drivers[i].count > 0 {
        out := drivers[i].ids[..drivers[i].count];
      } else {
        out := [];
      }
    }

    method FindAvailableDrivers(packageType: string, requestedSeats: int) returns (matching: seq<string>)
      requires Valid()
      ensures matching == AvailableDrivers(Contents(), packageType, requestedSeats)
    {
      var seats := if requestedSeats < 1 then 1 else requestedSeats;
      matching := [];
      ghost var ds := Contents();
      for i := 0 to |drivers|
        invariant matching == AvailableDrivers(ds[..i], packageType, requestedSeats)
      {
        assert ds[..i + 1][..i] == ds[..i];
        var d := drivers[i];
        if d.slug != packageType {
          continue;
        }
        if d.available < seats {
          continue;
        }
        matching := matching + [d.id];
      }
      assert ds[..|ds|] == ds;
    }
  }

  lemma UnregisteredAt(ds: seq<DriverRec>, id: string, i: nat)
    requires i == Find(ds, id)
    ensures AfterUnregistered(ds, id) == if i < |ds| then ds[..i] + ds[i + 1..] else ds
  {
  }

  lemma FindIsFirst(ds: seq<DriverRec>, id: string, i: nat)
    requires i <= |ds| && (i < |ds| ==> ds[i].id == id) && forall j :: 0 <= j < i ==> ds[j].id != id
    ensures Find(ds, id) == i
  {
  }

  function ActiveTrips(ds: seq<DriverRec>, id: string): seq<string> {
    if Find(ds, id) < |ds| then ds[Find(ds, id)].active else []
  }

  predicate HasRoom(d: DriverRec, slug: string, requested: int) {
    d.slug == slug && d.available >= AtLeastOne(requested)
  }

  function AvailableDrivers(ds: seq<DriverRec>, slug: string, requested: int): seq<string> {
    if ds == [] then []
    else
      var d := ds[|ds| - 1];
      AvailableDrivers(ds[..|ds| - 1], slug, requested) + if HasRoom(d, slug, requested) then [d.id] else []
  }

  /** The ids come in the order of registration, each as often as a registration under it fits. */
  lemma {:induction false} AvailableInOrder(ds: seq<DriverRec>, slug: string, requested: int) returns (ks: seq<nat>)
    ensures |ks| == |AvailableDrivers(ds, slug, requested)|
    ensures forall i :: 0 <= i < |ks| ==> ks[i] < |ds| && AvailableDrivers(ds, slug, requested)[i] == ds[ks[i]].id
    ensures forall i, j :: 0 <= i < j < |ks| ==> ks[i] < ks[j]
    ensures forall k: nat :: k in ks <==> k < |ds| && ds[k].slug == slug && ds[k].available >= (if requested < 1 then 1 else requested)
  {
    if ds == [] {
      ks := [];
    } else {
      var n := |ds| - 1;
      var init := AvailableInOrder(ds[..n], slug, requested);
      assert forall k :: 0 <= k < n ==> ds[..n][k] == ds[k];
      ks := init + if HasRoom(ds[n], slug, requested) then [n] else [];
    }
  }

  /** An id is offered exactly if some registration under it has the package and the seats. */
  lemma {:induction false} AvailableDriversMeans(ds: seq<DriverRec>, slug: string, requested: int, id: string)
    ensures id in AvailableDrivers(ds, slug, requested) <==>
            exists d :: d in ds && d.id == id && d.slug == slug && d.available >= (if requested < 1 then 1 else requested)
  {
    if ds != [] {
      var init, last := ds[..|ds| - 1], ds[|ds| - 1];
      AvailableDriversMeans(init, slug, requested, id);
      assert ds == init + [last];
    }
  }
}
