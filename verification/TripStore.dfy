/** The trip service's documents and the repository that changes them by conditional update. */
module TripStore {
  import opened Prelude
  import Route

  datatype Status = Pending | Accepted | Payed | Completed | Cancelled

  datatype TripDriver = TripDriver(id: string, name: string, picture: string, plate: string)

  /** A fare document, also embedded in the trip at creation. */
  datatype Fare = Fare(id: string, rider: string, slug: string, totalCents: real, seats: int, route: Route.Osrm)

  datatype Trip = Trip(rider: string, status: Status, fare: Fare, driver: Option<TripDriver>)

  /** service.CreateTrip */
  function NewTrip(fare: Fare): Trip { Trip(fare.rider, Pending, fare, None) }

  // --- UpdateTrip on one document --------------------------------------------------

  /** The filter: assigning a driver requires the status to be pending, a status-only update does not. */
  predicate FilterMatches(t: Trip, driver: Option<TripDriver>) {
    driver.Some? ==> t.status == Pending
  }

  /** The $set. */
  function SetFields(t: Trip, status: Status, driver: Option<TripDriver>): Trip {
    t.(status := status, driver := if driver.Some? then driver else t.driver)
  }

  /** ModifiedCount == 1: the filter matches and the document really changes. */
  predicate Modifies(t: Trip, status: Status, driver: Option<TripDriver>) {
    FilterMatches(t, driver) && SetFields(t, status, driver) != t
  }

  function AfterUpdate(t: Trip, status: Status, driver: Option<TripDriver>): Trip {
    if FilterMatches(t, driver) then SetFields(t, status, driver) else t
  }

  function Rank(s: Status): nat {
    match s
    case Pending => 0
    case Accepted => 1
    case Payed => 2
    case Completed => 3
    case Cancelled => 3
  }

  /** The lifecycle the services rely on: pending with no driver, then accepted with the driver who won, then
      payed with the same driver; nothing else about the trip moves. */
  predicate Orderly(before: Trip, after: Trip) {
    || after == before
    || (before.status == Pending && before.driver.None? && after.driver.Some?
        && after == before.(status := Accepted, driver := after.driver))
    || (before.status == Accepted && before.driver.Some? && after == before.(status := Payed))
  }

  predicate WellKept(t: Trip) {
    && t.status in {Pending, Accepted, Payed}
    && (t.status == Pending <==> t.driver.None?)
  }

  /** An accept keeps the lifecycle exactly if it names a driver or finds the trip already accepted. */
  lemma AcceptIsOrderlyIff(t: Trip, driver: Option<TripDriver>)
    requires WellKept(t)
    ensures Orderly(t, AfterUpdate(t, Accepted, driver)) <==> driver.Some? || t.status == Accepted
  {
  }

  /** A payment keeps the lifecycle exactly if the trip has been accepted. */
  lemma PaymentIsOrderlyIff(t: Trip)
    requires WellKept(t)
    ensures Orderly(t, AfterUpdate(t, Payed, None)) <==> t.status != Pending
  {
  }

  /** A driver's update is reported as a success exactly once: it finds the trip pending and leaves it otherwise. */
  lemma AssignmentSucceedsOnce(t: Trip, status: Status, driver: Option<TripDriver>)
    requires driver.Some? && status != Pending
    ensures Modifies(t, status, driver) <==> t.status == Pending
    ensures forall other: Option<TripDriver> :: other.Some? ==> !Modifies(AfterUpdate(t, status, driver), status, other)
    ensures !Modifies(t, status, driver) ==> AfterUpdate(t, status, driver) == t
  {
  }

  /** The checks of IncreaseTripFare: a positive price for the rider's own trip, pending and without a driver. */
  predicate Raisable(t: Trip, userID: string, cents: real) {
    cents > 0.0 && t.rider == userID && t.status == Pending && t.driver.None?
  }

  function WithTotal(t: Trip, cents: real): Trip { t.(fare := t.fare.(totalCents := cents)) }

  /** The fate of each operation of IncreaseTripFare. */
  datatype RaiseIo = RaiseIo(read: Io, fare: Io, trip: Io, reread: Io)

  /** The two documents afterwards, and the trip returned, if any. */
  datatype Raise = Raise(trip: Trip, doc: Fare, result: Option<Trip>)

  function RaiseEffect(t: Trip, doc: Fare, userID: string, cents: real, io: RaiseIo): Raise {
    if !io.read.Done? || !Raisable(t, userID, cents) then Raise(t, doc, None)
    else
      var doc' := if io.fare.Failed? then doc else doc.(totalCents := cents);
      if !io.fare.Done? then Raise(t, doc', None)
      else
        var t' := if io.trip.Failed? then t else WithTotal(t, cents);
        Raise(t', doc', if io.trip.Done? && io.reread.Done? then Some(t') else None)
  }

  // --- The repository --------------------------------------------------------------

  class MongoRepository {
    var trips: map<string, Trip>
    var fares: map<string, Fare>

    constructor ()
      ensures trips == map[] && fares == map[]
    {
      trips, fares := map[], map[];
    }

    method CreateTrip(id: string, t: Trip, io: Io) returns (ok: bool)
      modifies this`trips
      ensures ok <==> io.Done?
      ensures trips == if io.Failed? then old(trips) else old(trips)[id := t]
    {
      if !io.Failed? {
        trips := trips[id := t];
      }
      ok := io.Done?;
    }

    method GetTripByID(id: string, io: Io) returns (t: Option<Trip>)
      ensures t == if io.Done? && id in trips then Some(trips[id]) else None
    {
      t := if io.Done? && id in trips then Some(trips[id]) else None;
    }

    /** Succeeds only if the database answers and reports a modified document. */
    method UpdateTrip(id: string, status: Status, driver: Option<TripDriver>, io: Io) returns (ok: bool)
      modifies this`trips
      ensures ok <==> io.Done? && id in old(trips) && Modifies(old(trips)[id], status, driver)
      ensures trips == if io.Failed? || id !in old(trips) then old(trips)
                       else old(trips)[id := AfterUpdate(old(trips)[id], status, driver)]
      ensures id in old(trips) && driver.Some? && old(trips)[id].status != Pending ==> !ok && trips == old(trips)
      ensures id in old(trips) && driver.Some? && old(trips)[id].status == Pending && !io.Failed? ==>
                trips == old(trips)[id := old(trips)[id].(status := status, driver := driver)]
      ensures id in old(trips) && driver.None? && !io.Failed? ==> trips == old(trips)[id := old(trips)[id].(status := status)]
      ensures ok ==> id in old(trips) && trips[id] != old(trips)[id] && io.Done?
      ensures io.Done? && trips != old(trips) ==> ok
    {
      var modifiedCount := 0;
      if !io.Failed? && id in trips {
        var t := trips[id];
        var matches := if driver.Some? then t.status == Pending else true;
        if matches {
          var set_ := t.(status := status);
          if driver.Some? {
            set_ := set_.(driver := driver);
          }
          modifiedCount := if set_ != t then 1 else 0;
          trips := trips[id := set_];
        }
      }
      ok := io.Done? && modifiedCount != 0;
    }

    method UpdateRideFareTotal(fareID: string, cents: real, io: Io) returns (ok: bool)
      modifies this`fares
      ensures ok <==> io.Done? && fareID in old(fares)
      ensures fares == if io.Failed? || fareID !in old(fares) then old(fares)
                       else old(fares)[fareID := old(fares)[fareID].(totalCents := cents)]
    {
      if !io.Failed? && fareID in fares {
        fares := fares[fareID := fares[fareID].(totalCents := cents)];
      }
      ok := io.Done? && fareID in fares;
    }

    method UpdateTripRideFareTotal(id: string, cents: real, io: Io) returns (ok: bool)
      modifies this`trips
      ensures ok <==> io.Done? && id in old(trips)
      ensures trips == if io.Failed? || id !in old(trips) then old(trips)
                       else old(trips)[id := old(trips)[id].(fare := old(trips)[id].fare.(totalCents := cents))]
    {
      if !io.Failed? && id in trips {
        trips := trips[id := WithTotal(trips[id], cents)];
      }
      ok := io.Done? && id in trips;
    }

    /** Edits the fares collection only; the copy embedded in a trip keeps its seats. */
    method UpdateRideFareSeats(fareID: string, seats: int, io: Io) returns (ok: bool)
      modifies this`fares
      ensures ok <==> io.Done? && fareID in old(fares)
      ensures fares == if io.Failed? || fareID !in old(fares) then old(fares)
                       else old(fares)[fareID := old(fares)[fareID].(seats := seats)]
    {
      if !io.Failed? && fareID in fares {
        fares := fares[fareID := fares[fareID].(seats := seats)];
      }
      ok := io.Done? && fareID in fares;
    }

    /** Non-atomic in the source: the status is checked on a read, the writes then match by id only. For anyone but
        the rider, at no positive price, and once the trip is not pending or has a driver, it does nothing. */
    method IncreaseTripFare(id: string, userID: string, cents: real, io: RaiseIo) returns (result: Option<Trip>)
      modifies this
      ensures id in old(trips) && old(trips)[id].fare.id in old(fares) ==>
                var t := old(trips)[id];
                var e := RaiseEffect(t, old(fares)[t.fare.id], userID, cents, io);
                && trips == old(trips)[id := e.trip] && fares == old(fares)[t.fare.id := e.doc] && result == e.result
      ensures id !in old(trips) || old(trips)[id].fare.id !in old(fares) ==>
                trips == old(trips) && fares == old(fares) && result == None
      ensures id in old(trips) &&
              (old(trips)[id].rider != userID || cents <= 0.0 || old(trips)[id].status != Pending || old(trips)[id].driver.Some?) ==>
                trips == old(trips) && fares == old(fares) && result == None
      ensures result.Some? <==>
                && id in old(trips) && old(trips)[id].fare.id in old(fares)
                && old(trips)[id].rider == userID && cents > 0.0
                && old(trips)[id].status == Pending && old(trips)[id].driver.None?
                && io == RaiseIo(Done, Done, Done, Done)
      ensures result.Some? ==>
                var t := old(trips)[id];
                && result.value == t.(fare := t.fare.(totalCents := cents)) && trips == old(trips)[id := result.value]
                && fares == old(fares)[t.fare.id := old(fares)[t.fare.id].(totalCents := cents)]
    {
      if cents <= 0.0 {
        return None;
      }
      var t := GetTripByID(id, io.read);
      if t.None? || t.value.rider != userID || t.value.status != Pending || t.value.driver.Some? {
        return None;
      }
      var ok := UpdateRideFareTotal(t.value.fare.id, cents, io.fare);
      if !ok {
        return None;
      }
      ok := UpdateTripRideFareTotal(id, cents, io.trip);
      if !ok {
        return None;
      }
      result := GetTripByID(id, io.reread);
    }
  }
}
