/** The whole system: any number of trips, each running its protocol, one driver registry, one ledger table. */
module World {
  import opened Prelude
  import opened TripStore
  import opened TripProtocol
  import Seats
  import Ledger
  import DoubleEntry
  import TripSafety
  import RevenueViews
  import Selections

  datatype World = World(trips: map<string, State>, drivers: seq<Seats.DriverRec>, table: seq<Ledger.Row>)

  datatype WStep =
    | CreateTrip(id: string, fare: Fare)
    | TripStep(id: string, step: Step)
    | RegisterDriver(driver: string, slug: string, requested: int)
    | UnregisterDriver(driver: string)

  /** Seats asked for and capacities offered leave room in the 32-bit counter for their sum. */
  const SEAT_LIMIT := 0x3FFF_FFFF

  predicate Possible(w: World, step: WStep) {
    match step
    case CreateTrip(id, fare) => id !in w.trips && fare.seats <= SEAT_LIMIT
    case TripStep(id, st) => id in w.trips && Enabled(w.trips[id], st) && NamesDriver(st)
    case RegisterDriver(_, _, requested) => requested <= SEAT_LIMIT
    case UnregisterDriver(_) => true
  }

  /** Is the step the insert of a ledger row? */
  predicate Inserts(s: State, st: Step) {
    st.PostStep? && st.p in s.posts && !Ledger.Skipped(s.posts[st.p].event)
  }

  /** The seat call of a step reaches the driver service unless its RPC fails. */
  function DriversAfter(drivers: seq<Seats.DriverRec>, s: State, st: Step): seq<Seats.DriverRec>
    requires Enabled(s, st)
  {
    var t := Apply(s, st);
    if st.AcceptStep? && !st.io.Failed? && |t.reserved| > |s.reserved| then
      var call := t.reserved[|s.reserved|];
      Seats.AfterAccepted(drivers, call.driver, s.id, call.seats)
    else if st.PaidStep? && !st.io.Failed? && |t.released| > |s.released| then
      var call := t.released[|s.released|];
      Seats.AfterCompleted(drivers, call.driver, s.id, call.seats)
    else drivers
  }

  function TableAfter(table: seq<Ledger.Row>, s: State, st: Step): seq<Ledger.Row> {
    if Inserts(s, st) then Ledger.AfterInsert(table, RowToPost(s.posts[st.p], st.now), st.io) else table
  }

  function WApply(w: World, step: WStep): World
    requires Possible(w, step)
  {
    match step
    case CreateTrip(id, fare) => w.(trips := w.trips[id := InitialState(id, fare)])
    case TripStep(id, st) =>
      var s := w.trips[id];
      World(w.trips[id := Apply(s, st)], DriversAfter(w.drivers, s, st), TableAfter(w.table, s, st))
    case RegisterDriver(driver, slug, requested) => w.(drivers := Seats.AfterRegistered(w.drivers, driver, slug, requested))
    case UnregisterDriver(driver) => w.(drivers := Seats.AfterUnregistered(w.drivers, driver))
  }

  const EMPTY := World(map[], [], [])

  predicate ValidHistory(steps: seq<WStep>)
    decreases |steps|, 0
  {
    steps != [] ==> ValidHistory(steps[..|steps| - 1]) && Possible(After(steps[..|steps| - 1]), steps[|steps| - 1])
  }

  function After(steps: seq<WStep>): World
    requires ValidHistory(steps)
    decreases |steps|, 1
  {
    if steps == [] then EMPTY else WApply(After(steps[..|steps| - 1]), steps[|steps| - 1])
  }

  // --- The invariant -----------------------------------------------------------------------

  function SeatMap(trips: map<string, State>): map<string, int> {
    map t | t in trips :: SeatsOf(trips[t].trip)
  }

  predicate TripsHold(trips: map<string, State>) {
    forall t :: t in trips ==> TripHolds(t, trips[t])
  }

  predicate TripHolds(id: string, s: State) {
    Inv(s) && s.id == id && s.trip.fare.seats <= SEAT_LIMIT
  }

  predicate TableHolds(table: seq<Ledger.Row>, trips: map<string, State>) {
    && Ledger.UniqueKeys(table)
    && (forall r :: r in table ==> r.trip.Some? && r.trip.value in trips)
    && (forall t :: t in trips ==> DoubleEntry.RowsOf(table, t) == trips[t].rows)
  }

  /** A driver's seats are conserved, and he is only on trips that were given to him and asked for his seats. */
  predicate DriverHolds(d: Seats.DriverRec, trips: map<string, State>, seats: map<string, int>) {
    && Seats.Sound(d, seats) && d.capacity <= SEAT_LIMIT
    && forall t :: t in d.active ==> t in trips && GivenTo(trips[t], d.id)
  }

  predicate GivenTo(s: State, driver: string) {
    s.reserved != [] && s.trip.driver.Some? && s.trip.driver.value.id == driver
  }

  predicate DriversHold(drivers: seq<Seats.DriverRec>, trips: map<string, State>) {
    && (forall i :: 0 <= i < |drivers| ==> DriverHolds(drivers[i], trips, SeatMap(trips)))
    && (forall i, j, t :: 0 <= i < j < |drivers| && t in drivers[i].active ==> t !in drivers[j].active)
  }

  predicate WInv(w: World) {
    TripsHold(w.trips) && TableHolds(w.table, w.trips) && DriversHold(w.drivers, w.trips)
  }

  // --- Preservation ------------------------------------------------------------------------

  lemma {:induction false} BookedAgrees(active: seq<string>, m: map<string, int>, n: map<string, int>)
    requires forall t :: t in active ==> Seats.SeatsFor(m, t) == Seats.SeatsFor(n, t)
    ensures Seats.Booked(active, m) == Seats.Booked(active, n)
  {
    if active != [] {
      var init := active[..|active| - 1];
      assert forall t :: t in init ==> t in active;
      assert active[|active| - 1] in active;
      BookedAgrees(init, m, n);
    }
  }

  /** What the drivers need of a trip's later states. */
  predicate Outlives(s: State, t: State) {
    && SeatsOf(t.trip) == SeatsOf(s.trip) && s.reserved <= t.reserved
    && (s.trip.driver.Some? ==> t.trip.driver == s.trip.driver)
  }

  /** Drivers are unaffected when trips are added or move forward. */
  lemma DriverCarriesOver(d: Seats.DriverRec, before: map<string, State>, after: map<string, State>)
    requires DriverHolds(d, before, SeatMap(before))
    requires forall t :: t in before ==> t in after && Outlives(before[t], after[t])
    ensures DriverHolds(d, after, SeatMap(after))
  {
    forall t | t in d.active ensures Seats.SeatsFor(SeatMap(before), t) == Seats.SeatsFor(SeatMap(after), t) {
      assert t in before;
    }
    BookedAgrees(d.active, SeatMap(before), SeatMap(after));
  }

  lemma DriversCarryOver(drivers: seq<Seats.DriverRec>, before: map<string, State>, after: map<string, State>)
    requires DriversHold(drivers, before)
    requires forall t :: t in before ==> t in after && Outlives(before[t], after[t])
    ensures DriversHold(drivers, after)
  {
    forall i | 0 <= i < |drivers| ensures DriverHolds(drivers[i], after, SeatMap(after)) {
      DriverCarriesOver(drivers[i], before, after);
    }
  }

  lemma NewTripKeepsTable(table: seq<Ledger.Row>, trips: map<string, State>, id: string, s: State)
    requires TableHolds(table, trips) && id !in trips && s.rows == []
    ensures TableHolds(table, trips[id := s])
  {
    NoRowsYet(table, trips, id);
  }

  lemma NewTripKeepsWInv(w: World, id: string, s: State)
    requires WInv(w) && id !in w.trips && TripHolds(id, s) && s.rows == []
    ensures WInv(w.(trips := w.trips[id := s]))
  {
    NewTripKeepsTable(w.table, w.trips, id, s);
    NewTripKeepsDrivers(w.drivers, w.trips, id, s);
  }

  lemma NewTripKeepsDrivers(drivers: seq<Seats.DriverRec>, trips: map<string, State>, id: string, s: State)
    requires DriversHold(drivers, trips) && id !in trips
    ensures DriversHold(drivers, trips[id := s])
  {
    DriversCarryOver(drivers, trips, trips[id := s]);
  }

  lemma CreateKeepsWInv(w: World, id: string, fare: Fare)
    requires WInv(w) && Possible(w, CreateTrip(id, fare))
    ensures WInv(WApply(w, CreateTrip(id, fare)))
  {
    InitHolds(id, fare);
    NewTripKeepsWInv(w, id, InitialState(id, fare));
  }

  lemma NoRowsYet(table: seq<Ledger.Row>, trips: map<string, State>, id: string)
    requires TableHolds(table, trips) && id !in trips
    ensures DoubleEntry.RowsOf(table, id) == []
  {
    if DoubleEntry.RowsOf(table, id) != [] {
      var r := DoubleEntry.RowsOf(table, id)[0];
      DoubleEntry.RowsOfMembers(table, id, r);
      assert false;
    }
  }

  lemma NewDriverHolds(drivers: seq<Seats.DriverRec>, trips: map<string, State>, driver: string, slug: string, requested: int)
    requires DriversHold(drivers, trips) && requested <= SEAT_LIMIT
    ensures DriversHold(Seats.AfterRegistered(drivers, driver, slug, requested), trips)
  {
    var after := Seats.AfterRegistered(drivers, driver, slug, requested);
    assert DriverHolds(after[|drivers|], trips, SeatMap(trips));
  }

  lemma OthersHold(drivers: seq<Seats.DriverRec>, trips: map<string, State>, driver: string)
    requires DriversHold(drivers, trips)
    ensures DriversHold(Seats.AfterUnregistered(drivers, driver), trips)
  {
  }

  lemma RegistryKeepsWInv(w: World, step: WStep)
    requires WInv(w) && Possible(w, step) && (step.RegisterDriver? || step.UnregisterDriver?)
    ensures WInv(WApply(w, step))
  {
    match step
    case RegisterDriver(driver, slug, requested) => NewDriverHolds(w.drivers, w.trips, driver, slug, requested);
    case UnregisterDriver(driver) => OthersHold(w.drivers, w.trips, driver);
  }

  /** An insert into the whole table acts on the trip's own rows, and on no other trip's. */
  lemma InsertKeepsTable(w: World, id: string, row: Ledger.Row, t: State)
    requires TableHolds(w.table, w.trips) && id in w.trips && row.trip == Some(id)
    requires t.rows == Ledger.InsertIfAbsent(w.trips[id].rows, row)
    ensures TableHolds(Ledger.InsertIfAbsent(w.table, row), w.trips[id := t])
  {
    var table := Ledger.InsertIfAbsent(w.table, row);
    var trips := w.trips[id := t];
    forall x | x in trips ensures DoubleEntry.RowsOf(table, x) == trips[x].rows {
      DoubleEntry.InsertIsPerTrip(w.table, row, x);
    }
    Ledger.InsertKeepsUniqueKeys(w.table, row);
    forall r | r in table ensures r.trip.Some? && r.trip.value in trips {
      assert r in w.table || r == row;
    }
  }

  lemma RowsOfInsert(s: State, st: Step)
    requires Inv(s) && Enabled(s, st) && Inserts(s, st)
    ensures Apply(s, st).rows == Ledger.AfterInsert(s.rows, RowToPost(s.posts[st.p], st.now), st.io)
    ensures RowToPost(s.posts[st.p], st.now).trip == Some(s.id)
  {
    assert PostRunHolds(s.id, s.sessions, s.rows, s.posts[st.p]);
  }

  lemma AcceptKeepsRows(s: State, p: nat, io: Io)
    requires p in s.accepts
    ensures StepAccept(s, p, s.accepts[p], io).rows == s.rows
  {
    match s.accepts[p].pc
    case GetTrip =>
    case Update =>
    case Reread =>
    case ReserveSeats =>
    case PublishAssigned =>
    case PublishSession =>
  }

  lemma PaidKeepsRows(s: State, p: nat, io: Io)
    requires p in s.paids
    ensures StepPaid(s, p, s.paids[p], io).rows == s.rows
  {
  }

  lemma RaiseKeepsRows(s: State, p: nat, io: Io)
    requires p in s.raises
    ensures StepRaise(s, p, s.raises[p], io).rows == s.rows
  {
  }

  lemma RowsOnlyFromInserts(s: State, st: Step)
    requires Enabled(s, st) && !Inserts(s, st)
    ensures Apply(s, st).rows == s.rows
  {
    match st
    case AcceptStep(p, io) => AcceptKeepsRows(s, p, io);
    case PaidStep(p, io) => PaidKeepsRows(s, p, io);
    case RaiseStep(p, io) => RaiseKeepsRows(s, p, io);
    case _ =>
  }

  lemma SameRowsKeepTable(w: World, id: string, t: State)
    requires TableHolds(w.table, w.trips) && id in w.trips && t.rows == w.trips[id].rows
    ensures TableHolds(w.table, w.trips[id := t])
  {
  }

  /** The ledger table takes the row the trip's own postings take. */
  lemma TableFollowsTrip(w: World, id: string, st: Step)
    requires TripsHold(w.trips) && TableHolds(w.table, w.trips) && Possible(w, TripStep(id, st))
    ensures TableHolds(TableAfter(w.table, w.trips[id], st), w.trips[id := Apply(w.trips[id], st)])
  {
    var s := w.trips[id];
    assert TripHolds(id, s);
    var t := Apply(s, st);
    if Inserts(s, st) {
      RowsOfInsert(s, st);
      if st.io.Failed? {
        SameRowsKeepTable(w, id, t);
      } else {
        InsertKeepsTable(w, id, RowToPost(s.posts[st.p], st.now), t);
      }
    } else {
      RowsOnlyFromInserts(s, st);
      SameRowsKeepTable(w, id, t);
    }
  }

  lemma SeatCallsOf(s: State, id: string)
    requires TripHolds(id, s) && SeatCalls(s.trip) != []
    ensures |SeatCalls(s.trip)| == 1 && 1 <= SeatCalls(s.trip)[0].seats == SeatsOf(s.trip) <= SEAT_LIMIT
  {
  }

  /** A trip's first reservation finds no driver on the trip yet. */
  lemma ReservationKeepsDrivers(drivers: seq<Seats.DriverRec>, before: map<string, State>, trips: map<string, State>, id: string, driver: string)
    requires DriversHold(drivers, before) && DriversHold(drivers, trips)
    requires id in before && before[id].reserved == [] && id in trips && GivenTo(trips[id], driver)
    ensures DriversHold(Seats.AfterAccepted(drivers, driver, id, SeatsOf(trips[id].trip)), trips)
  {
    var n := SeatsOf(trips[id].trip);
    assert n == Seats.SeatsFor(SeatMap(trips), id);
    if Seats.CanReserve(drivers, driver, n) {
      var i := Seats.Find(drivers, driver);
      forall k | 0 <= k < |drivers| ensures id !in drivers[k].active {
        assert DriverHolds(drivers[k], before, SeatMap(before));
      }
      assert DriverHolds(drivers[i], trips, SeatMap(trips));
      Seats.ReserveConserves(drivers[i], id, n, SeatMap(trips));
    }
  }

  lemma ReleaseKeepsDrivers(drivers: seq<Seats.DriverRec>, trips: map<string, State>, id: string, driver: string)
    requires DriversHold(drivers, trips) && id in trips && SeatsOf(trips[id].trip) <= SEAT_LIMIT
    ensures DriversHold(Seats.AfterCompleted(drivers, driver, id, SeatsOf(trips[id].trip)), trips)
  {
    var n := SeatsOf(trips[id].trip);
    assert n == Seats.SeatsFor(SeatMap(trips), id);
    var i := Seats.Find(drivers, driver);
    if i < |drivers| {
      assert DriverHolds(drivers[i], trips, SeatMap(trips));
      Seats.ReleaseConserves(drivers[i], id, n, SeatMap(trips));
      forall x | x in Seats.Release(drivers[i], id, n).active ensures x in drivers[i].active {
        Seats.WithoutMeans(drivers[i].active, id, x);
      }
    }
  }

  lemma SeatCallsKeepDrivers(w: World, id: string, st: Step)
    requires id in w.trips && Enabled(w.trips[id], st)
    requires TripHolds(id, w.trips[id]) && TripHolds(id, Apply(w.trips[id], st))
    requires DriversHold(w.drivers, w.trips) && DriversHold(w.drivers, w.trips[id := Apply(w.trips[id], st)])
    ensures DriversHold(DriversAfter(w.drivers, w.trips[id], st), w.trips[id := Apply(w.trips[id], st)])
  {
    var s := w.trips[id];
    var t := Apply(s, st);
    var trips := w.trips[id := t];
    if st.AcceptStep? && !st.io.Failed? && |t.reserved| > |s.reserved| {
      SeatCallsOf(t, id);
      assert t.reserved == SeatCalls(t.trip) && s.reserved == [];
      ReservationKeepsDrivers(w.drivers, w.trips, trips, id, t.reserved[0].driver);
    } else if st.PaidStep? && !st.io.Failed? && |t.released| > |s.released| {
      SeatCallsOf(t, id);
      assert t.released == SeatCalls(t.trip) && s.released == [];
      ReleaseKeepsDrivers(w.drivers, trips, id, t.released[0].driver);
    }
  }

  lemma TripCarriesOver(id: string, s: State, st: Step)
    requires TripHolds(id, s) && Enabled(s, st) && NamesDriver(st)
    ensures TripHolds(id, Apply(s, st))
    ensures Outlives(s, Apply(s, st))
  {
    StepKeepsInv(s, st);
    TripSafety.StepMovesForward(s, st);
  }

  lemma TripStepKeepsTrips(w: World, id: string, st: Step)
    requires TripsHold(w.trips) && Possible(w, TripStep(id, st))
    ensures TripHolds(id, w.trips[id]) && TripHolds(id, Apply(w.trips[id], st))
    ensures TripsHold(w.trips[id := Apply(w.trips[id], st)])
  {
    assert TripHolds(id, w.trips[id]);
    TripCarriesOver(id, w.trips[id], st);
  }

  lemma DriversOutliveStep(drivers: seq<Seats.DriverRec>, trips: map<string, State>, id: string, t: State)
    requires DriversHold(drivers, trips) && id in trips
    requires Outlives(trips[id], t)
    ensures DriversHold(drivers, trips[id := t])
  {
    DriversCarryOver(drivers, trips, trips[id := t]);
  }

  lemma TripStepKeepsDrivers(w: World, id: string, st: Step)
    requires id in w.trips && TripHolds(id, w.trips[id]) && Enabled(w.trips[id], st) && NamesDriver(st)
    requires DriversHold(w.drivers, w.trips)
    ensures DriversHold(DriversAfter(w.drivers, w.trips[id], st), w.trips[id := Apply(w.trips[id], st)])
  {
    TripCarriesOver(id, w.trips[id], st);
    DriversOutliveStep(w.drivers, w.trips, id, Apply(w.trips[id], st));
    SeatCallsKeepDrivers(w, id, st);
  }

  lemma TripStepKeepsWInv(w: World, id: string, st: Step)
    requires WInv(w) && Possible(w, TripStep(id, st))
    ensures WInv(WApply(w, TripStep(id, st)))
  {
    TripStepKeepsTrips(w, id, st);
    TripStepKeepsDrivers(w, id, st);
    TableFollowsTrip(w, id, st);
  }

  lemma {:induction false} HistoryKeepsWInv(steps: seq<WStep>)
    requires ValidHistory(steps)
    ensures WInv(After(steps))
  {
    if steps != [] {
      var init, last := steps[..|steps| - 1], steps[|steps| - 1];
      HistoryKeepsWInv(init);
      match last
      case CreateTrip(id, fare) => CreateKeepsWInv(After(init), id, fare);
      case TripStep(id, st) => TripStepKeepsWInv(After(init), id, st);
      case _ => RegistryKeepsWInv(After(init), last);
    }
  }

  // --- What follows for the system as a whole -------------------------------------------------

  /** In every history of the system, with lost calls, crashes, redeliveries and drivers coming and going, no
      seat of a registered carpool driver is lost, and one with no active trip has all seats free. */
  lemma NoSeatIsEverLost(steps: seq<WStep>, i: nat)
    requires ValidHistory(steps) && i < |After(steps).drivers|
    ensures var d := After(steps).drivers[i];
            && 0 <= d.available <= d.capacity
            && (d.slug == Seats.CARPOOL ==> d.available + Seats.Booked(d.active, SeatMap(After(steps).trips)) >= d.capacity)
            && (d.slug == Seats.CARPOOL && d.active == [] ==> d.available == d.capacity)
  {
    HistoryKeepsWInv(steps);
    var w := After(steps);
    assert DriverHolds(w.drivers[i], w.trips, SeatMap(w.trips));
    if w.drivers[i].slug == Seats.CARPOOL && w.drivers[i].active == [] {
      Seats.IdleMeansEmpty(w.drivers[i], SeatMap(w.trips));
    }
  }

  /** A trip holds seats of one registration at most, and that is its stored driver's. */
  lemma SeatsAreHeldByTheWinner(steps: seq<WStep>, i: nat, t: string)
    requires ValidHistory(steps) && i < |After(steps).drivers| && t in After(steps).drivers[i].active
    ensures var w := After(steps);
            && t in w.trips && w.trips[t].trip.driver.Some? && w.trips[t].trip.driver.value.id == w.drivers[i].id
            && forall j :: 0 <= j < |w.drivers| && t in w.drivers[j].active ==> j == i
  {
    HistoryKeepsWInv(steps);
    var w := After(steps);
    assert DriverHolds(w.drivers[i], w.trips, SeatMap(w.trips));
  }

  /** The payment each trip is settled by. */
  function Plans(w: World): map<string, DoubleEntry.Plan> {
    map t | t in w.trips && w.trips[t].sessions != [] :: PlanOf(w.trips[t].sessions[0])
  }

  lemma TableFollowsPlans(w: World)
    requires TripsHold(w.trips) && TableHolds(w.table, w.trips)
    ensures DoubleEntry.FollowsPlans(w.table, Plans(w))
  {
    forall t | t in Plans(w) ensures DoubleEntry.TripRows(DoubleEntry.RowsOf(w.table, t), Plans(w)[t]) {
      assert TripHolds(t, w.trips[t]);
    }
    forall r | r in w.table ensures r.trip.Some? && r.trip.value in Plans(w) {
      var t := r.trip.value;
      assert TripHolds(t, w.trips[t]);
      DoubleEntry.RowsOfMembers(w.table, t, r);
    }
  }

  /** In every history the ledger is in double entry: a trip's credits never exceed its debits; the users'
      dashboard nets add up to minus the debits whose driver is not credited; and the packages' trip counts add
      up to the number of debit rows. */
  lemma LedgerIsInDoubleEntry(steps: seq<WStep>, users: seq<string>, range: Selections.Range, packages: seq<RevenueViews.Group>)
    requires ValidHistory(steps) && Distinct(users)
    requires forall r :: r in After(steps).table ==> r.user in users
    requires RevenueViews.GroupedBy(packages, After(steps).table, RevenueViews.Revenue(range), RevenueViews.PackageKey)
    ensures var table := After(steps).table;
            && (forall t :: t in Plans(After(steps)) ==>
                  Selections.SumOf(table, Selections.OfTrip(t, Ledger.Credit)) <= Selections.SumOf(table, Selections.OfTrip(t, Ledger.Debit)))
            && DoubleEntry.SumOfNets(table, users) == -DoubleEntry.OpenDebits(table, |table|)
            && RevenueViews.TotalTrips(packages) == RevenueViews.CountOf(table, RevenueViews.Revenue(range))
  {
    HistoryKeepsWInv(steps);
    var w := After(steps);
    TableFollowsPlans(w);
    forall t | t in Plans(w)
      ensures Selections.SumOf(w.table, Selections.OfTrip(t, Ledger.Credit)) <= Selections.SumOf(w.table, Selections.OfTrip(t, Ledger.Debit))
    {
      DoubleEntry.CreditsNeverExceedDebits(w.table, Plans(w), t);
    }
    DoubleEntry.NetsSumToOpenDebits(w.table, Plans(w), users);
    RevenueViews.TripCountsAddUp(w.table, Plans(w), range, packages);
  }
}
