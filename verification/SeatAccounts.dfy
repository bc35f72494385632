/** When the seat accounts of the whole system are exact, and a history in which they are not. */
module SeatAccounts {
  import opened Prelude
  import opened TripStore
  import opened TripProtocol
  import opened TripSafety
  import opened TripMishaps
  import opened W = World
  import Seats
  import TripHandlers

  /** Free seats and the seats of active trips make up every carpool driver's capacity; no other driver is on more
      than one trip. */
  predicate AccountsExact(w: W.World) { Seats.AllExact(w.drivers, SeatMap(w.trips)) }

  /** The step releases a trip's seats, and the call reaches the driver service. */
  predicate ReleaseReaches(s: State, st: Step)
    requires Enabled(s, st)
  {
    st.PaidStep? && !st.io.Failed? && |Apply(s, st).released| > |s.released|
  }

  /** A trip whose seats are released is on the registration the call finds. It is not if its reservation was
      refused or lost, or if its driver has since unregistered or stands registered twice. */
  predicate Settles(w: W.World, step: WStep)
    requires Possible(w, step)
  {
    step.TripStep? ==>
      var s := w.trips[step.id];
      ReleaseReaches(s, step.step) ==>
        var i := Seats.Find(w.drivers, Apply(s, step.step).released[|s.released|].driver);
        i < |w.drivers| ==> step.id in w.drivers[i].active || w.drivers[i].available == w.drivers[i].capacity
  }

  lemma ExactCarriesOver(d: Seats.DriverRec, before: map<string, State>, after: map<string, State>)
    requires DriverHolds(d, before, SeatMap(before)) && Seats.Exact(d, SeatMap(before))
    requires forall t :: t in before ==> t in after && Outlives(before[t], after[t])
    ensures Seats.Exact(d, SeatMap(after))
  {
    forall t | t in d.active ensures Seats.SeatsFor(SeatMap(before), t) == Seats.SeatsFor(SeatMap(after), t) {
      assert t in before;
    }
    BookedAgrees(d.active, SeatMap(before), SeatMap(after));
  }

  lemma AllExactCarryOver(drivers: seq<Seats.DriverRec>, before: map<string, State>, after: map<string, State>)
    requires DriversHold(drivers, before) && Seats.AllExact(drivers, SeatMap(before))
    requires forall t :: t in before ==> t in after && Outlives(before[t], after[t])
    ensures Seats.AllExact(drivers, SeatMap(after))
  {
    forall i | 0 <= i < |drivers| ensures Seats.Exact(drivers[i], SeatMap(after)) {
      ExactCarriesOver(drivers[i], before, after);
    }
  }

  /** A first reservation keeps the accounts exact, whether it is granted or refused. */
  lemma ReservationKeepsExact(drivers: seq<Seats.DriverRec>, before: map<string, State>, trips: map<string, State>, id: string, driver: string)
    requires DriversHold(drivers, before) && Seats.AllExact(drivers, SeatMap(trips))
    requires id in before && before[id].reserved == [] && id in trips
    ensures Seats.AllExact(Seats.AfterAccepted(drivers, driver, id, SeatsOf(trips[id].trip)), SeatMap(trips))
  {
    var n := SeatsOf(trips[id].trip);
    if Seats.CanReserve(drivers, driver, n) {
      var i := Seats.Find(drivers, driver);
      assert DriverHolds(drivers[i], before, SeatMap(before));
      assert Seats.Exact(drivers[i], SeatMap(trips));
      Seats.ReserveConserves(drivers[i], id, n, SeatMap(trips));
    }
  }

  /** A release keeps them exact if and only if the trip is on the driver it finds, or nothing was taken from him. */
  lemma ReleaseKeepsExactIff(drivers: seq<Seats.DriverRec>, trips: map<string, State>, id: string, driver: string)
    requires DriversHold(drivers, trips) && Seats.AllExact(drivers, SeatMap(trips))
    requires id in trips && SeatsOf(trips[id].trip) <= SEAT_LIMIT
    ensures var i := Seats.Find(drivers, driver);
            Seats.AllExact(Seats.AfterCompleted(drivers, driver, id, SeatsOf(trips[id].trip)), SeatMap(trips)) <==>
            (i < |drivers| ==> id in drivers[i].active || drivers[i].available == drivers[i].capacity)
  {
    var n := SeatsOf(trips[id].trip);
    var i := Seats.Find(drivers, driver);
    if i < |drivers| {
      assert DriverHolds(drivers[i], trips, SeatMap(trips));
      Seats.ReleaseConserves(drivers[i], id, n, SeatMap(trips));
      OneChanged(drivers, i, Seats.Release(drivers[i], id, n), SeatMap(trips));
    }
  }

  lemma OneChanged(ds: seq<Seats.DriverRec>, i: nat, d: Seats.DriverRec, seats: map<string, int>)
    requires i < |ds| && Seats.AllExact(ds, seats)
    ensures Seats.AllExact(ds[i := d], seats) <==> Seats.Exact(d, seats)
  {
    assert ds[i := d][i] == d;
  }

  lemma SeatCallsKeepExactIff(w: W.World, id: string, st: Step, trips: map<string, State>)
    requires id in w.trips && Enabled(w.trips[id], st) && NamesDriver(st)
    requires trips == w.trips[id := Apply(w.trips[id], st)]
    requires TripHolds(id, w.trips[id]) && TripHolds(id, trips[id])
    requires DriversHold(w.drivers, w.trips) && DriversHold(w.drivers, trips) && Seats.AllExact(w.drivers, SeatMap(trips))
    ensures Seats.AllExact(DriversAfter(w.drivers, w.trips[id], st), SeatMap(trips)) <==> Settles(w, TripStep(id, st))
  {
    var s := w.trips[id];
    var t := trips[id];
    if st.AcceptStep? && !st.io.Failed? && |t.reserved| > |s.reserved| {
      SeatCallsOf(t, id);
      assert t.reserved == SeatCalls(t.trip) && s.reserved == [];
      ReservationKeepsExact(w.drivers, w.trips, trips, id, t.reserved[0].driver);
    } else if ReleaseReaches(s, st) {
      SeatCallsOf(t, id);
      assert t.released == SeatCalls(t.trip) && s.released == [];
      ReleaseKeepsExactIff(w.drivers, trips, id, t.released[0].driver);
    }
  }

  lemma DriversStayExact(drivers: seq<Seats.DriverRec>, trips: map<string, State>, id: string, t: State)
    requires DriversHold(drivers, trips) && Seats.AllExact(drivers, SeatMap(trips)) && id in trips && Outlives(trips[id], t)
    ensures Seats.AllExact(drivers, SeatMap(trips[id := t]))
  {
    AllExactCarryOver(drivers, trips, trips[id := t]);
  }

  lemma TripStepKeepsExactIff(w: W.World, id: string, st: Step)
    requires WInv(w) && AccountsExact(w) && Possible(w, TripStep(id, st))
    ensures AccountsExact(WApply(w, TripStep(id, st))) <==> Settles(w, TripStep(id, st))
  {
    var s := w.trips[id];
    var t := Apply(s, st);
    TripStepKeepsTrips(w, id, st);
    TripCarriesOver(id, s, st);
    DriversOutliveStep(w.drivers, w.trips, id, t);
    DriversStayExact(w.drivers, w.trips, id, t);
    SeatCallsKeepExactIff(w, id, st, w.trips[id := t]);
  }

  lemma RegistryKeepsExact(w: W.World, step: WStep)
    requires WInv(w) && AccountsExact(w) && Possible(w, step) && (step.RegisterDriver? || step.UnregisterDriver?)
    ensures AccountsExact(WApply(w, step))
  {
  }

  lemma NewTripKeepsExact(drivers: seq<Seats.DriverRec>, trips: map<string, State>, id: string, s: State)
    requires DriversHold(drivers, trips) && Seats.AllExact(drivers, SeatMap(trips)) && id !in trips
    ensures Seats.AllExact(drivers, SeatMap(trips[id := s]))
  {
    AllExactCarryOver(drivers, trips, trips[id := s]);
  }

  lemma CreateKeepsExact(w: W.World, id: string, fare: Fare)
    requires WInv(w) && AccountsExact(w) && Possible(w, CreateTrip(id, fare))
    ensures AccountsExact(WApply(w, CreateTrip(id, fare)))
  {
    NewTripKeepsExact(w.drivers, w.trips, id, InitialState(id, fare));
  }

  lemma StepKeepsExactIff(w: W.World, step: WStep)
    requires WInv(w) && AccountsExact(w) && Possible(w, step)
    ensures AccountsExact(WApply(w, step)) <==> Settles(w, step)
  {
    match step
    case CreateTrip(id, fare) => CreateKeepsExact(w, id, fare);
    case TripStep(id, st) => TripStepKeepsExactIff(w, id, st);
    case _ => RegistryKeepsExact(w, step);
  }

  /** The accounts are exact after every step of the history. */
  predicate ExactThroughout(steps: seq<WStep>)
    requires ValidHistory(steps)
  {
    AccountsExact(After(steps)) && (steps != [] ==> ExactThroughout(steps[..|steps| - 1]))
  }

  predicate AllSettle(steps: seq<WStep>)
    requires ValidHistory(steps)
  {
    steps != [] ==> AllSettle(steps[..|steps| - 1]) && Settles(After(steps[..|steps| - 1]), steps[|steps| - 1])
  }

  /** Over every history of the system the accounts stay exact if and only if every trip whose seats are released
      is then on the registration the release finds (or that driver has given nothing away). */
  lemma {:induction false} AccountsStayExactIff(steps: seq<WStep>)
    requires ValidHistory(steps)
    ensures ExactThroughout(steps) <==> AllSettle(steps)
  {
    if steps != [] {
      var init, last := steps[..|steps| - 1], steps[|steps| - 1];
      AccountsStayExactIff(init);
      HistoryKeepsWInv(init);
      if ExactThroughout(init) {
        ExactNow(init);
        StepKeepsExactIff(After(init), last);
      }
    }
  }

  lemma ExactNow(steps: seq<WStep>)
    requires ValidHistory(steps) && ExactThroughout(steps)
    ensures AccountsExact(After(steps))
  {
  }

  // --- Runs of one trip within a history ------------------------------------------------------------

  function Lift(id: string, steps: seq<Step>): seq<WStep> {
    if steps == [] then [] else [TripStep(id, steps[0])] + Lift(id, steps[1..])
  }

  /** What a trip's run makes of the registry. */
  function DriversRun(drivers: seq<Seats.DriverRec>, s: State, steps: seq<Step>): seq<Seats.DriverRec>
    requires ValidRun(s, steps)
    decreases |steps|
  {
    if steps == [] then drivers else DriversRun(DriversAfter(drivers, s, steps[0]), Apply(s, steps[0]), steps[1..])
  }

  lemma OneStepMore(h: seq<WStep>, step: WStep)
    requires ValidHistory(h) && Possible(After(h), step)
    ensures ValidHistory(h + [step]) && After(h + [step]) == WApply(After(h), step)
  {
    assert (h + [step])[..|h|] == h;
  }

  lemma LiftFirst(h: seq<WStep>, id: string, steps: seq<Step>)
    requires steps != []
    ensures h + Lift(id, steps) == (h + [TripStep(id, steps[0])]) + Lift(id, steps[1..])
  {
  }

  /** The history goes from one to the other by a run of one trip. */
  predicate RunsTo(h: seq<WStep>, k: seq<WStep>, id: string, u: State, drivers: seq<Seats.DriverRec>)
    requires ValidHistory(h)
  {
    ValidHistory(k) && After(k).trips == After(h).trips[id := u] && After(k).drivers == drivers
  }

  lemma UpdatedTwice(m: map<string, State>, id: string, s: State, u: State)
    ensures m[id := s][id := u] == m[id := u]
  {
  }

  lemma RunsOnTo(h: seq<WStep>, next: seq<WStep>, id: string, s: State, k: seq<WStep>, u: State, drivers: seq<Seats.DriverRec>)
    requires ValidHistory(h) && ValidHistory(next) && After(next).trips == After(h).trips[id := s]
    requires RunsTo(next, k, id, u, drivers)
    ensures RunsTo(h, k, id, u, drivers)
  {
    UpdatedTwice(After(h).trips, id, s, u);
  }

  lemma {:induction false} Lifted(h: seq<WStep>, id: string, s: State, steps: seq<Step>)
    requires ValidHistory(h) && id in After(h).trips && s == After(h).trips[id]
    requires ValidRun(s, steps) && AllNameDrivers(steps)
    ensures RunsTo(h, h + Lift(id, steps), id, Execute(s, steps), DriversRun(After(h).drivers, s, steps))
    decreases |steps|
  {
    if steps == [] {
      assert h + Lift(id, steps) == h;
      assert After(h).trips[id := s] == After(h).trips;
    } else {
      RestNamesDrivers(steps);
      var st, rest := steps[0], steps[1..];
      OneStepMore(h, TripStep(id, st));
      Lifted(h + [TripStep(id, st)], id, Apply(s, st), rest);
      LiftFirst(h, id, steps);
      RunsOnTo(h, h + [TripStep(id, st)], id, Apply(s, st), h + Lift(id, steps), Execute(s, steps),
               DriversRun(After(h).drivers, s, steps));
    }
  }

  /** A run that asks for no seats and gives none back leaves the registry alone. */
  lemma {:induction false} QuietRun(drivers: seq<Seats.DriverRec>, s: State, steps: seq<Step>)
    requires Inv(s) && ValidRun(s, steps) && AllNameDrivers(steps)
    requires |Execute(s, steps).reserved| == |s.reserved| && |Execute(s, steps).released| == |s.released|
    ensures DriversRun(drivers, s, steps) == drivers
    decreases |steps|
  {
    if steps != [] {
      RestNamesDrivers(steps);
      var t := Apply(s, steps[0]);
      StepKeepsInv(s, steps[0]);
      StepMovesForward(s, steps[0]);
      RunsMoveForward(t, steps[1..]);
      QuietRun(drivers, t, steps[1..]);
    }
  }

  /** No seat call of the run is lost. */
  predicate CallsReach(steps: seq<Step>) {
    forall i :: 0 <= i < |steps| ==> CallReaches(steps[i])
  }

  predicate CallReaches(st: Step) {
    (st.AcceptStep? ==> !st.io.Failed?) && (st.PaidStep? ==> !st.io.Failed?)
  }

  lemma RestReaches(steps: seq<Step>)
    requires steps != [] && CallsReach(steps)
    ensures CallReaches(steps[0]) && CallsReach(steps[1..])
  {
    assert forall i :: 0 <= i < |steps[1..]| ==> steps[1..][i] == steps[i + 1];
  }

  lemma OnlyAcceptsReserve(s: State, st: Step)
    requires Enabled(s, st) && !st.AcceptStep?
    ensures Apply(s, st).reserved == s.reserved
  {
    match st
    case PaidStep(p, io) => PaidReservesNothing(s, p, io);
    case PostStep(p, io, now) =>
    case RaiseStep(p, io) =>
    case _ =>
  }

  lemma PaidReservesNothing(s: State, p: nat, io: Io)
    requires p in s.paids
    ensures StepPaid(s, p, s.paids[p], io).reserved == s.reserved
  {
  }

  lemma OnlyPaymentsRelease(s: State, st: Step)
    requires Enabled(s, st) && !st.PaidStep?
    ensures Apply(s, st).released == s.released
  {
    match st
    case AcceptStep(p, io) => AcceptKeepsPaids(s, p, io);
    case PostStep(p, io, now) =>
    case RaiseStep(p, io) =>
    case _ =>
  }

  /** The one step of a run that reserves. */
  lemma ReservingStep(drivers: seq<Seats.DriverRec>, s: State, st: Step)
    requires Enabled(s, st) && CallReaches(st) && s.reserved == []
    ensures var t := Apply(s, st);
            |t.reserved| == 1 ==> DriversAfter(drivers, s, st) == Seats.AfterAccepted(drivers, t.reserved[0].driver, s.id, t.reserved[0].seats)
  {
    if !st.AcceptStep? {
      OnlyAcceptsReserve(s, st);
    }
  }

  lemma QuietStep(drivers: seq<Seats.DriverRec>, s: State, st: Step)
    requires Enabled(s, st) && |Apply(s, st).reserved| == |s.reserved| && |Apply(s, st).released| == |s.released|
    ensures DriversAfter(drivers, s, st) == drivers
  {
  }

  lemma {:induction false} ReservingRun(drivers: seq<Seats.DriverRec>, s: State, steps: seq<Step>, u: State)
    requires Inv(s) && ValidRun(s, steps) && AllNameDrivers(steps) && CallsReach(steps) && u == Execute(s, steps)
    requires s.reserved == [] && |u.reserved| == 1 && |u.released| == |s.released|
    ensures DriversRun(drivers, s, steps) == Seats.AfterAccepted(drivers, u.reserved[0].driver, s.id, u.reserved[0].seats)
    decreases |steps|
  {
    RestNamesDrivers(steps);
    RestReaches(steps);
    var st, rest := steps[0], steps[1..];
    var t := Apply(s, st);
    StepKeepsInv(s, st);
    StepMovesForward(s, st);
    RunsMoveForward(t, rest);
    if t.reserved == [] {
      QuietStep(drivers, s, st);
      ReservingRun(drivers, t, rest, u);
    } else {
      ReservingStep(drivers, s, st);
      QuietRun(DriversAfter(drivers, s, st), t, rest);
    }
  }

  lemma ReleasingStep(drivers: seq<Seats.DriverRec>, s: State, st: Step)
    requires Enabled(s, st) && CallReaches(st) && s.released == [] && |Apply(s, st).reserved| == |s.reserved|
    ensures var t := Apply(s, st);
            |t.released| == 1 ==> DriversAfter(drivers, s, st) == Seats.AfterCompleted(drivers, t.released[0].driver, s.id, t.released[0].seats)
  {
    if !st.PaidStep? {
      OnlyPaymentsRelease(s, st);
    }
  }

  lemma {:induction false} ReleasingRun(drivers: seq<Seats.DriverRec>, s: State, steps: seq<Step>, u: State)
    requires Inv(s) && ValidRun(s, steps) && AllNameDrivers(steps) && CallsReach(steps) && u == Execute(s, steps)
    requires s.released == [] && |u.released| == 1 && |u.reserved| == |s.reserved|
    ensures DriversRun(drivers, s, steps) == Seats.AfterCompleted(drivers, u.released[0].driver, s.id, u.released[0].seats)
    decreases |steps|
  {
    RestNamesDrivers(steps);
    RestReaches(steps);
    var st, rest := steps[0], steps[1..];
    var t := Apply(s, st);
    StepKeepsInv(s, st);
    StepMovesForward(s, st);
    RunsMoveForward(t, rest);
    if t.released == [] {
      QuietStep(drivers, s, st);
      ReleasingRun(drivers, t, rest, u);
    } else {
      ReleasingStep(drivers, s, st);
      QuietRun(DriversAfter(drivers, s, st), t, rest);
    }
  }

  // --- A history with inexact accounts ----------------------------------------------------------------

  lemma {:induction false} StepsReach(pc: AcceptPc, t: Trip, driver: Option<TripDriver>, p: nat)
    ensures CallsReach(TripHandlers.Steps(pc, t, driver, p, ALL_DONE))
    decreases TripHandlers.Left(pc)
  {
    var t' := if pc == Update then AfterUpdate(t, Accepted, driver) else t;
    if TripHandlers.GoesOn(pc, t, driver, ALL_DONE) {
      StepsReach(TripHandlers.Next(pc), t', driver, p);
    }
  }

  lemma TripOfHistory(h: seq<WStep>, id: string)
    requires ValidHistory(h) && id in After(h).trips
    ensures Inv(After(h).trips[id]) && After(h).trips[id].id == id
  {
    HistoryKeepsWInv(h);
    assert TripHolds(id, After(h).trips[id]);
  }

  lemma AcceptingRun(s: State, driver: TripDriver) returns (steps: seq<Step>, u: State)
    requires Inv(s) && s.trip.status == Pending && 0 !in s.accepts && driver.id != ""
    ensures ValidRun(s, steps) && AllNameDrivers(steps) && CallsReach(steps) && u == Execute(s, steps)
    ensures u.trip == SetFields(s.trip, Accepted, Some(driver)) && u.sessions != [] && u.paids == s.paids
    ensures s.reserved == [] && u.reserved == [SeatCall(driver.id, SeatsOf(u.trip))] && u.released == s.released
  {
    steps, u := WholeAccept(s, 0, driver);
    StepsReach(GetTrip, s.trip, Some(driver), 0);
    assert s.reserved == [] && [] + SeatCalls(u.trip) == SeatCalls(u.trip);
  }

  /** The driver's accept of a new trip goes through within a history. */
  lemma AcceptedBy(h: seq<WStep>, id: string, driver: TripDriver) returns (more: seq<WStep>, u: State)
    requires ValidHistory(h) && id in After(h).trips && driver.id != ""
    requires After(h).trips[id].trip.status == Pending && 0 !in After(h).trips[id].accepts
    ensures ValidHistory(h + more) && After(h + more).trips == After(h).trips[id := u]
    ensures After(h + more).drivers == Seats.AfterAccepted(After(h).drivers, driver.id, id, SeatsOf(u.trip))
    ensures u.trip == SetFields(After(h).trips[id].trip, Accepted, Some(driver)) && u.sessions != []
    ensures u.paids == After(h).trips[id].paids
  {
    TripOfHistory(h, id);
    var s := After(h).trips[id];
    var steps;
    steps, u := AcceptingRun(s, driver);
    ReservingRun(After(h).drivers, s, steps, u);
    Lifted(h, id, s, steps);
    more := Lift(id, steps);
  }

  /** The payment of an accepted trip goes through within a history. */
  lemma PaidFor(h: seq<WStep>, id: string, driver: TripDriver) returns (more: seq<WStep>, u: State)
    requires ValidHistory(h) && id in After(h).trips && driver.id != ""
    requires var s := After(h).trips[id];
             s.trip.status == Accepted && s.trip.driver == Some(driver) && s.sessions != [] && 0 !in s.paids
    ensures ValidHistory(h + more) && After(h + more).trips == After(h).trips[id := u]
    ensures After(h + more).drivers == Seats.AfterCompleted(After(h).drivers, driver.id, id, SeatsOf(After(h).trips[id].trip))
  {
    TripOfHistory(h, id);
    var s := After(h).trips[id];
    var steps;
    steps, u := PayingRun(s);
    ReleasingRun(After(h).drivers, s, steps, u);
    Lifted(h, id, s, steps);
    more := Lift(id, steps);
  }

  lemma PayingRun(s: State) returns (steps: seq<Step>, u: State)
    requires Inv(s) && s.trip.status == Accepted && s.trip.driver.Some? && s.trip.driver.value.id != "" && s.sessions != [] && 0 !in s.paids
    ensures ValidRun(s, steps) && AllNameDrivers(steps) && CallsReach(steps) && u == Execute(s, steps)
    ensures s.released == [] && u.released == [SeatCall(s.trip.driver.value.id, SeatsOf(s.trip))] && u.reserved == s.reserved
  {
    var a, s1 := PaymentSucceeds(s);
    var b, s2 := WholePayment(s1, 0);
    RunThen(s, a, s1, b, s2);
    steps, u := a + b, s2;
    assert s.released == [] && [] + SeatCalls(s1.trip) == SeatCalls(s.trip);
  }

  /** A driver who does not carpool, and three new trips. */
  function Opening(driver: string, fare: Fare, t1: string, t2: string, t3: string): seq<WStep> {
    [RegisterDriver(driver, "sedan", 1), CreateTrip(t1, fare), CreateTrip(t2, fare), CreateTrip(t3, fare)]
  }

  lemma OpeningIsValid(driver: string, fare: Fare, t1: string, t2: string, t3: string)
    requires t1 != t2 && t1 != t3 && t2 != t3 && fare.seats <= SEAT_LIMIT
    ensures var h := Opening(driver, fare, t1, t2, t3);
            && ValidHistory(h)
            && After(h).trips == map[t1 := InitialState(t1, fare), t2 := InitialState(t2, fare), t3 := InitialState(t3, fare)]
            && After(h).drivers == [Seats.DriverRec(driver, "sedan", 1, 1, [])]
  {
    var r, a, b, c := RegisterDriver(driver, "sedan", 1), CreateTrip(t1, fare), CreateTrip(t2, fare), CreateTrip(t3, fare);
    assert [] + [r] == [r] && [r] + [a] == [r, a] && [r, a] + [b] == [r, a, b] && [r, a, b] + [c] == [r, a, b, c];
    OneStepMore([], r);
    assert After([r]).trips == map[] && After([r]).drivers == [Seats.DriverRec(driver, "sedan", 1, 1, [])];
    OneStepMore([r], a);
    assert After([r, a]).trips == map[t1 := InitialState(t1, fare)];
    OneStepMore([r, a], b);
    assert After([r, a, b]).trips == map[t1 := InitialState(t1, fare), t2 := InitialState(t2, fare)];
    OneStepMore([r, a, b], c);
  }

  lemma OneDriver(d: Seats.DriverRec, trip: string, n: int)
    ensures Seats.Find([d], d.id) == 0
    ensures Seats.AfterAccepted([d], d.id, trip, n) ==
            if d.available >= Seats.AtLeastOne(n) then [Seats.Reserve(d, trip, Seats.AtLeastOne(n))] else [d]
    ensures Seats.AfterCompleted([d], d.id, trip, n) == [Seats.Release(d, trip, Seats.AtLeastOne(n))]
  {
  }

  lemma OtherTripStays(a: string, b: string)
    requires a != b
    ensures Seats.Without([a], b) == [a]
  {
    assert [a][..0] == [] && Seats.Without([], b) == [];
  }

  /** A sedan driver, free or not, with these trips on his list. */
  function Sedan(driver: string, available: int, active: seq<string>): seq<Seats.DriverRec> {
    [Seats.DriverRec(driver, "sedan", 1, available, active)]
  }

  /** One more trip of one seat is accepted by the sedan's driver. */
  lemma SedanAccepts(h: seq<WStep>, id: string, driver: TripDriver, available: int, active: seq<string>)
    returns (k: seq<WStep>, u: State)
    requires ValidHistory(h) && id in After(h).trips && driver.id != "" && After(h).drivers == Sedan(driver.id, available, active)
    requires var s := After(h).trips[id]; s.trip.status == Pending && s.accepts == map[] && s.paids == map[] && s.trip.fare.seats <= 1
    ensures ValidHistory(k) && After(k).trips == After(h).trips[id := u]
    ensures After(k).drivers == if available >= 1 then Sedan(driver.id, 0, active + [id]) else Sedan(driver.id, available, active)
    ensures u.trip.status == Accepted && u.trip.driver == Some(driver) && u.sessions != [] && u.paids == map[] && SeatsOf(u.trip) == 1
  {
    var more;
    more, u := AcceptedBy(h, id, driver);
    k := h + more;
    assert SeatsOf(u.trip) == 1;
    OneDriver(Sedan(driver.id, available, active)[0], id, 1);
  }

  /** The payment of a trip that is not on the sedan's list frees the sedan. */
  lemma SedanFreed(h: seq<WStep>, id: string, driver: TripDriver, other: string) returns (k: seq<WStep>, u: State)
    requires ValidHistory(h) && id in After(h).trips && driver.id != "" && id != other
    requires After(h).drivers == Sedan(driver.id, 0, [other])
    requires var s := After(h).trips[id];
             s.trip.status == Accepted && s.trip.driver == Some(driver) && s.sessions != [] && s.paids == map[] && SeatsOf(s.trip) == 1
    ensures ValidHistory(k) && After(k).trips == After(h).trips[id := u] && After(k).drivers == Sedan(driver.id, 1, [other])
  {
    var more;
    more, u := PaidFor(h, id, driver);
    k := h + more;
    OneDriver(Sedan(driver.id, 0, [other])[0], id, 1);
    OtherTripStays(other, id);
  }

  /** The car is on the first trip, free, and the third trip has not begun. */
  lemma FreedForAThird(driver: TripDriver, fare: Fare, t1: string, t2: string, t3: string) returns (h: seq<WStep>)
    requires driver.id != "" && t1 != t2 && t1 != t3 && t2 != t3 && fare.seats <= 1
    ensures ValidHistory(h) && t3 in After(h).trips && After(h).trips[t3] == InitialState(t3, fare)
    ensures After(h).drivers == Sedan(driver.id, 1, [t1])
  {
    h := Opening(driver.id, fare, t1, t2, t3);
    OpeningIsValid(driver.id, fare, t1, t2, t3);
    var u;
    h, u := SedanAccepts(h, t1, driver, 1, []);
    assert [] + [t1] == [t1];
    h, u := SedanAccepts(h, t2, driver, 0, [t1]);
    h, u := SedanFreed(h, t2, driver, t1);
  }

  /** A sedan driver accepts a second trip, whose reservation is refused; the payment of that trip frees his car
      while he is on the first, and a third trip puts him on two at once. */
  lemma RefusedReservationFreesTheCar(driver: TripDriver, fare: Fare, t1: string, t2: string, t3: string) returns (h: seq<WStep>)
    requires driver.id != "" && t1 != t2 && t1 != t3 && t2 != t3 && fare.seats <= 1
    ensures ValidHistory(h) && !AllSettle(h)
    ensures After(h).drivers == [Seats.DriverRec(driver.id, "sedan", 1, 0, [t1, t3])]
  {
    h := FreedForAThird(driver, fare, t1, t2, t3);
    var u;
    h, u := SedanAccepts(h, t3, driver, 1, [t1]);
    assert [t1] + [t3] == [t1, t3];
    TwoTripsAreInexact(After(h).drivers[0], SeatMap(After(h).trips));
    InexactIsNotSettled(h);
  }

  lemma TwoTripsAreInexact(d: Seats.DriverRec, seats: map<string, int>)
    requires d.slug != Seats.CARPOOL && |d.active| == 2
    ensures !Seats.Exact(d, seats)
  {
  }

  lemma InexactIsNotSettled(h: seq<WStep>)
    requires ValidHistory(h) && !AccountsExact(After(h))
    ensures !AllSettle(h)
  {
    AccountsStayExactIff(h);
  }
}
