/** Runs of a trip in which something is done twice, or never. */
module TripMishaps {
  import opened Prelude
  import opened TripStore
  import opened TripProtocol
  import opened TripSafety
  import opened TripHandlers
  import Ledger

  const ALL_DONE := AcceptIo(Done, Done, Done, Done, Done, Done)

  // --- A lost session ------------------------------------------------------------------------------

  /** The trip is accepted, no session was asked for, and no delivery is past its update. */
  predicate Lost(s: State) {
    Inv(s) && s.trip.status != Pending && NoneWon(s.accepts) && s.sessions == []
  }

  lemma AcceptKeepsLost(s: State, p: nat, io: Io)
    requires Lost(s) && p in s.accepts
    ensures var t := StepAccept(s, p, s.accepts[p], io); t.sessions == [] && NoneWon(t.accepts) && t.trip == s.trip
  {
    var run := s.accepts[p];
    assert !Won(run) && run.driver.Some?;
    FailureWinsNothing(s, p, run);
    if run.pc == Update {
      assert !Modifies(s.trip, Accepted, run.driver);
      assert StepAccept(s, p, run, io) == FailAccept(s, p, run);
    }
  }

  lemma FailureWinsNothing(s: State, p: nat, run: AcceptRun)
    requires NoneWon(s.accepts)
    ensures var t := FailAccept(s, p, run); NoneWon(t.accepts) && t.sessions == s.sessions && t.trip == s.trip
  {
  }

  predicate SameAccepts(s: State, t: State) { t.accepts == s.accepts && t.sessions == s.sessions }

  lemma PaidKeepsAccepts(s: State, p: nat, io: Io)
    requires p in s.paids
    ensures SameAccepts(s, StepPaid(s, p, s.paids[p], io))
  {
  }

  lemma PostKeepsAccepts(s: State, p: nat, io: Io, now: Ledger.Stamp)
    requires p in s.posts
    ensures SameAccepts(s, StepPost(s, p, s.posts[p], io, now))
  {
  }

  lemma RaiseKeepsAccepts(s: State, p: nat, io: Io)
    requires p in s.raises
    ensures SameAccepts(s, StepRaise(s, p, s.raises[p], io))
  {
  }

  lemma TrafficKeepsLost(s: State, step: Step)
    requires NoneWon(s.accepts) && s.sessions == [] && Enabled(s, step)
    requires !step.AcceptStep? && !step.RaiseStep? && !step.PaidStep? && !step.PostStep?
    ensures Apply(s, step).sessions == [] && NoneWon(Apply(s, step).accepts)
  {
  }

  lemma WorkKeepsLost(s: State, step: Step)
    requires Lost(s) && Enabled(s, step)
    requires step.AcceptStep? || step.RaiseStep? || step.PaidStep? || step.PostStep?
    ensures Apply(s, step).sessions == [] && NoneWon(Apply(s, step).accepts)
  {
    match step
    case AcceptStep(p, io) => AcceptKeepsLost(s, p, io);
    case RaiseStep(p, io) => RaiseKeepsAccepts(s, p, io);
    case PaidStep(p, io) => PaidKeepsAccepts(s, p, io);
    case PostStep(p, io, now) => PostKeepsAccepts(s, p, io, now);
  }

  lemma StepKeepsLost(s: State, step: Step)
    requires Lost(s) && Enabled(s, step) && NamesDriver(step)
    ensures Lost(Apply(s, step))
  {
    StepKeepsInv(s, step);
    StepMovesForward(s, step);
    if step.AcceptStep? || step.RaiseStep? || step.PaidStep? || step.PostStep? {
      WorkKeepsLost(s, step);
    } else {
      TrafficKeepsLost(s, step);
    }
  }

  lemma {:induction false} LostStaysLost(s: State, steps: seq<Step>)
    requires Lost(s) && ValidRun(s, steps) && AllNameDrivers(steps)
    ensures Lost(Execute(s, steps))
    decreases |steps|
  {
    if steps != [] {
      RestNamesDrivers(steps);
      StepKeepsLost(s, steps[0]);
      LostStaysLost(Apply(s, steps[0]), steps[1..]);
    }
  }

  ghost predicate SessionCanCome(s: State) {
    exists steps :: ValidRun(s, steps) && AllNameDrivers(steps) && Execute(s, steps).sessions != []
  }

  lemma {:induction false} StepsNameDrivers(pc: AcceptPc, t: Trip, driver: Option<TripDriver>, p: nat, io: AcceptIo)
    ensures AllNameDrivers(Steps(pc, t, driver, p, io))
    decreases Left(pc)
  {
    var t' := if pc == Update && !io.update.Failed? then AfterUpdate(t, Accepted, driver) else t;
    if GoesOn(pc, t, driver, io) {
      StepsNameDrivers(Next(pc), t', driver, p, io);
    }
  }

  lemma WinnerSendsSession(s: State, p: nat)
    requires p in s.accepts && Won(s.accepts[p]) && s.accepts[p].driver.Some?
    ensures SessionCanCome(s)
  {
    AttemptRefinesProtocol(s, p, ALL_DONE);
    var run := s.accepts[p];
    StepsNameDrivers(run.pc, s.trip, run.driver, p, ALL_DONE);
    WonGoesThrough(run.pc, s.trip, run.snapshot, run.driver);
    assert Execute(s, StepsFrom(s, p, ALL_DONE)).sessions != [];
  }

  lemma WonGoesThrough(pc: AcceptPc, t: Trip, snap: Trip, driver: Option<TripDriver>)
    requires pc !in {GetTrip, Update} && driver.Some?
    ensures From(pc, t, snap, driver, ALL_DONE).sessions != []
  {
  }

  /** An accepted trip without a payment session can still get one if and only if the delivery that won it is
      still in flight: if the winner's update went unconfirmed, or any operation after it failed, or the process
      crashed before the session went out, no later delivery makes up for it. */
  lemma SessionCanComeIff(s: State)
    requires Inv(s) && s.trip.status != Pending && s.sessions == []
    ensures SessionCanCome(s) <==> !NoneWon(s.accepts)
  {
    if NoneWon(s.accepts) {
      forall steps | ValidRun(s, steps) && AllNameDrivers(steps) ensures Execute(s, steps).sessions == [] {
        LostStaysLost(s, steps);
      }
    } else {
      var p :| p in s.accepts && Won(s.accepts[p]);
      WinnerSendsSession(s, p);
    }
  }

  /** A run from the start after which no session can come: the winner's update takes effect unconfirmed. */
  lemma UnconfirmedUpdateLosesTheSession(id: string, fare: Fare, driver: TripDriver) returns (steps: seq<Step>)
    ensures ValidRun(InitialState(id, fare), steps) && AllNameDrivers(steps)
    ensures var s := Execute(InitialState(id, fare), steps);
            s.trip.status == Accepted && s.trip.driver == Some(driver) && !SessionCanCome(s)
  {
    var s0 := InitialState(id, fare);
    steps := [StartAccept(0, Some(driver)), AcceptStep(0, Done), AcceptStep(0, Unconfirmed)];
    var s1 := Apply(s0, steps[0]);
    assert s1.accepts[0] == AcceptRun(Some(driver), 0, GetTrip, s0.trip);
    var s2 := Apply(s1, steps[1]);
    assert s2.accepts[0] == AcceptRun(Some(driver), 0, Update, s0.trip);
    var s3 := Apply(s2, steps[2]);
    assert s3.accepts[0].pc == GetTrip && s3.trip == SetFields(s0.trip, Accepted, Some(driver));
    Run3(s0, steps[0], steps[1], steps[2]);
    InitHolds(id, fare);
    RunKeepsInv(s0, steps);
    SessionCanComeIff(s3);
  }

  // --- Runs in which everything goes well -------------------------------------------------------------

  lemma RunThen(s: State, first: seq<Step>, t: State, then_: seq<Step>, u: State)
    requires ValidRun(s, first) && t == Execute(s, first) && ValidRun(t, then_) && u == Execute(t, then_)
    ensures ValidRun(s, first + then_) && Execute(s, first + then_) == u
    ensures AllNameDrivers(first) && AllNameDrivers(then_) ==> AllNameDrivers(first + then_)
  {
    Chain(s, first, then_);
  }

  lemma AcceptGoesThrough(s: State, p: nat, u: State)
    requires p in s.accepts && s.accepts[p].pc == GetTrip && s.accepts[p].driver.Some? && s.trip.status == Pending
    requires EndsAs(s, p, EffectFrom(s, p, ALL_DONE), u)
    ensures u.trip == SetFields(s.trip, Accepted, s.accepts[p].driver) && u.accepts == s.accepts - {p}
    ensures u.sessions != [] && u.reserved == s.reserved + SeatCalls(u.trip)
  {
    AllDoneWins(s.trip, s.accepts[p].snapshot, s.accepts[p].driver);
    assert u.accepts == u.accepts - {p};
  }

  lemma AllDoneWins(t: Trip, snap: Trip, driver: Option<TripDriver>)
    requires driver.Some? && t.status == Pending
    ensures var e := From(GetTrip, t, snap, driver, ALL_DONE);
            e.outcome == Ok && e.trip == SetFields(t, Accepted, driver) && e.sessions != [] && e.reserved == SeatCalls(e.trip)
  {
  }

  /** An accept delivery in which everything goes well. */
  lemma WholeAccept(s: State, p: nat, driver: TripDriver) returns (steps: seq<Step>, u: State)
    requires p !in s.accepts && s.trip.status == Pending
    ensures ValidRun(s, steps) && AllNameDrivers(steps) && Execute(s, steps) == u
    ensures steps == [StartAccept(p, Some(driver))] + Steps(GetTrip, s.trip, Some(driver), p, ALL_DONE)
    ensures u.trip == SetFields(s.trip, Accepted, Some(driver)) && p !in u.accepts
    ensures AcceptOnly(s, u) && u.sessions != [] && u.reserved == s.reserved + SeatCalls(u.trip)
  {
    var start := StartAccept(p, Some(driver));
    var s1 := Apply(s, start);
    RunOne(s, start);
    AttemptRefinesProtocol(s1, p, ALL_DONE);
    var rest := StepsFrom(s1, p, ALL_DONE);
    StepsNameDrivers(GetTrip, s.trip, Some(driver), p, ALL_DONE);
    u := Execute(s1, rest);
    AcceptGoesThrough(s1, p, u);
    RunThen(s, [start], s1, rest, u);
    steps := [start] + rest;
  }

  /** The rider pays. */
  lemma PaymentSucceeds(s: State) returns (steps: seq<Step>, u: State)
    requires s.sessions != []
    ensures ValidRun(s, steps) && AllNameDrivers(steps) && Execute(s, steps) == u
    ensures steps == [OpenCheckout(s.sessions[0]), StripeWebhook(CheckoutOf(s.sessions[0]), "usd", "")]
    ensures u.success != {} && u == s.(checkouts := u.checkouts, success := u.success)
  {
    var c := CheckoutOf(s.sessions[0]);
    steps := [OpenCheckout(s.sessions[0]), StripeWebhook(c, "usd", "")];
    RunTwo(s, steps[0], steps[1]);
    u := Execute(s, steps);
    assert SuccessOf(s.id, c, "usd", "") in u.success;
  }

  /** A payment delivery in which everything goes well. */
  lemma WholePayment(s: State, p: nat) returns (steps: seq<Step>, u: State)
    requires p !in s.paids && s.success != {} && s.trip.status != Payed
    ensures ValidRun(s, steps) && AllNameDrivers(steps) && Execute(s, steps) == u
    ensures steps == [StartPaid(p), PaidStep(p, Done), PaidStep(p, Done), PaidStep(p, Done)]
    ensures u == s.(trip := s.trip.(status := Payed), paids := u.paids, released := s.released + SeatCalls(s.trip))
    ensures u.paids == s.paids
  {
    var start := StartPaid(p);
    var s1 := Apply(s, start);
    RunOne(s, start);
    PaymentRefinesProtocol(s1, p, Done, Done, Done);
    var rest := PaymentSteps(s.trip, p, Done, Done, Done);
    u := Execute(s1, rest);
    RunThen(s, [start], s1, rest, u);
    steps := [start] + rest;
    assert u.paids == u.paids - {p} == s1.paids - {p} == s.paids;
  }

  // --- Seats never released ---------------------------------------------------------------------------

  /** The delivery is about to release seats. */
  predicate Releases(run: PaidRun) {
    run.pc == ReleaseSeats && run.seen.Some? && SeatCalls(run.seen.value) != []
  }

  predicate NoneReleases(paids: map<nat, PaidRun>) {
    forall p :: p in paids ==> !Releases(paids[p])
  }

  /** The trip is paid, its seats are not released, and no delivery is about to. */
  predicate Withheld(s: State) {
    Inv(s) && s.trip.status == Payed && s.released == [] && NoneReleases(s.paids)
  }

  predicate SamePaids(s: State, t: State) { t.paids == s.paids && t.released == s.released }

  lemma PaidKeepsWithheld(s: State, p: nat, io: Io)
    requires s.trip.status == Payed && s.released == [] && NoneReleases(s.paids) && p in s.paids
    ensures var t := StepPaid(s, p, s.paids[p], io); t.released == [] && NoneReleases(t.paids)
  {
    assert !Releases(s.paids[p]);
    assert !Modifies(s.trip, Payed, None);
  }

  lemma AcceptKeepsPaids(s: State, p: nat, io: Io)
    requires p in s.accepts
    ensures SamePaids(s, StepAccept(s, p, s.accepts[p], io))
  {
    match s.accepts[p].pc
    case GetTrip =>
    case Update => UpdateKeepsPaids(s, p, io);
    case Reread =>
    case ReserveSeats =>
    case PublishAssigned => PublishKeepsPaids(s, p, io);
    case PublishSession => PublishKeepsPaids(s, p, io);
  }

  lemma UpdateKeepsPaids(s: State, p: nat, io: Io)
    requires p in s.accepts && s.accepts[p].pc == Update
    ensures SamePaids(s, StepAccept(s, p, s.accepts[p], io))
  {
  }

  lemma PublishKeepsPaids(s: State, p: nat, io: Io)
    requires p in s.accepts && s.accepts[p].pc in {PublishAssigned, PublishSession}
    ensures SamePaids(s, StepAccept(s, p, s.accepts[p], io))
  {
  }

  lemma PostKeepsPaids(s: State, p: nat, io: Io, now: Ledger.Stamp)
    requires p in s.posts
    ensures SamePaids(s, StepPost(s, p, s.posts[p], io, now))
  {
  }

  lemma RaiseKeepsPaids(s: State, p: nat, io: Io)
    requires p in s.raises
    ensures SamePaids(s, StepRaise(s, p, s.raises[p], io))
  {
  }

  lemma WorkKeepsWithheld(s: State, step: Step)
    requires Withheld(s) && Enabled(s, step)
    requires step.AcceptStep? || step.RaiseStep? || step.PaidStep? || step.PostStep?
    ensures Apply(s, step).released == [] && NoneReleases(Apply(s, step).paids)
  {
    match step
    case AcceptStep(p, io) => AcceptKeepsPaids(s, p, io);
    case RaiseStep(p, io) => RaiseKeepsPaids(s, p, io);
    case PaidStep(p, io) => PaidKeepsWithheld(s, p, io);
    case PostStep(p, io, now) => PostKeepsPaids(s, p, io, now);
  }

  lemma TrafficKeepsWithheld(s: State, step: Step)
    requires s.released == [] && NoneReleases(s.paids) && Enabled(s, step)
    requires !step.AcceptStep? && !step.RaiseStep? && !step.PaidStep? && !step.PostStep?
    ensures Apply(s, step).released == [] && NoneReleases(Apply(s, step).paids)
  {
  }

  lemma StepKeepsWithheld(s: State, step: Step)
    requires Withheld(s) && Enabled(s, step) && NamesDriver(step)
    ensures Withheld(Apply(s, step))
  {
    StepKeepsInv(s, step);
    StepMovesForward(s, step);
    if step.AcceptStep? || step.RaiseStep? || step.PaidStep? || step.PostStep? {
      WorkKeepsWithheld(s, step);
    } else {
      TrafficKeepsWithheld(s, step);
    }
  }

  lemma {:induction false} WithheldStaysWithheld(s: State, steps: seq<Step>)
    requires Withheld(s) && ValidRun(s, steps) && AllNameDrivers(steps)
    ensures Withheld(Execute(s, steps))
    decreases |steps|
  {
    if steps != [] {
      RestNamesDrivers(steps);
      StepKeepsWithheld(s, steps[0]);
      WithheldStaysWithheld(Apply(s, steps[0]), steps[1..]);
    }
  }

  ghost predicate ReleaseCanCome(s: State) {
    exists steps :: ValidRun(s, steps) && AllNameDrivers(steps) && Execute(s, steps).released != []
  }

  /** The seats of a paid trip can still be released if and only if a payment delivery that read the trip with its
      driver and wrote `payed` is still in flight: if that update went unconfirmed, the read before it failed, or
      the process crashed after it, no later delivery makes up for it and the trip stays on its driver's list. */
  lemma ReleaseCanComeIff(s: State)
    requires Inv(s) && s.trip.status == Payed && s.released == []
    ensures ReleaseCanCome(s) <==> !NoneReleases(s.paids)
  {
    if NoneReleases(s.paids) {
      forall steps | ValidRun(s, steps) && AllNameDrivers(steps) ensures Execute(s, steps).released == [] {
        WithheldStaysWithheld(s, steps);
      }
    } else {
      var p :| p in s.paids && Releases(s.paids[p]);
      PaidRelease(s, p, Done);
      assert AllNameDrivers([PaidStep(p, Done)]);
      assert Execute(s, [PaidStep(p, Done)]).released != [];
    }
  }

  lemma UnconfirmedPayment(s: State, p: nat) returns (steps: seq<Step>, u: State)
    requires p !in s.paids && s.success != {} && s.trip.status == Accepted
    ensures ValidRun(s, steps) && AllNameDrivers(steps) && Execute(s, steps) == u
    ensures u.trip == s.trip.(status := Payed) && u.released == s.released && u.reserved == s.reserved
    ensures u.paids == s.paids[p := PaidRun(1, ReadTrip, None)]
  {
    var start := StartPaid(p);
    var s1 := Apply(s, start);
    assert s1.paids[p] == PaidRun(0, ReadTrip, None);
    RunOne(s, start);
    PaymentRefinesProtocol(s1, p, Done, Unconfirmed, Done);
    var s2 := StepPaid(s1, p, s1.paids[p], Done);
    PaymentRead(s1, p, Done, s2);
    var rest := PaymentSteps(s.trip, p, Done, Unconfirmed, Done);
    u := Execute(s1, rest);
    ReadThenPay(s1, p, Done, Unconfirmed, s2, StepPaid(s2, p, s2.paids[p], Unconfirmed));
    assert rest == [PaidStep(p, Done), PaidStep(p, Unconfirmed)];
    RunTwo(s1, rest[0], rest[1]);
    RunThen(s, [start], s1, rest, u);
    steps := [start] + rest;
  }

  /** A run from a new trip to a paid one whose reserved seats can never be released: the update to `payed` takes
      effect unconfirmed. */
  lemma UnconfirmedPaymentWithholdsTheSeats(id: string, fare: Fare, driver: TripDriver) returns (steps: seq<Step>)
    requires driver.id != ""
    ensures ValidRun(InitialState(id, fare), steps) && AllNameDrivers(steps)
    ensures var s := Execute(InitialState(id, fare), steps);
            s.trip.status == Payed && s.reserved == [SeatCall(driver.id, SeatsOf(s.trip))] && !ReleaseCanCome(s)
  {
    var s0 := InitialState(id, fare);
    var a, s1 := WholeAccept(s0, 0, driver);
    var b, s2 := PaymentSucceeds(s1);
    RunThen(s0, a, s1, b, s2);
    var c, s3 := UnconfirmedPayment(s2, 0);
    RunThen(s0, a + b, s2, c, s3);
    steps := a + b + c;
    InitHolds(id, fare);
    RunKeepsInv(s0, steps);
    ReleaseCanComeIff(s3);
  }

  // --- Seats released twice ---------------------------------------------------------------------------

  /** A driverless accept takes a paid trip back to accepted. */
  lemma DriverlessUpdate(s: State, p: nat) returns (steps: seq<Step>, u: State)
    requires p !in s.accepts && s.trip.status == Payed
    ensures ValidRun(s, steps) && Execute(s, steps) == u
    ensures u.trip == s.trip.(status := Accepted) && u.paids == s.paids && u.released == s.released && u.success == s.success
  {
    AcceptReachesUpdate(s, p, None);
    steps := AcceptUpToUpdate(p, None);
    u := Execute(s, steps);
  }

  /** A driver accepts a new trip, the rider pays, and the seats are released. */
  lemma PaidTrip(id: string, fare: Fare, driver: TripDriver) returns (steps: seq<Step>, u: State)
    ensures ValidRun(InitialState(id, fare), steps) && Execute(InitialState(id, fare), steps) == u
    ensures u.trip == Trip(fare.rider, Payed, fare, Some(driver)) && u.released == SeatCalls(u.trip)
    ensures u.success != {} && u.paids == map[] && 0 !in u.accepts
  {
    var s0 := InitialState(id, fare);
    var a, s1 := WholeAccept(s0, 0, driver);
    var b, s2 := PaymentSucceeds(s1);
    RunThen(s0, a, s1, b, s2);
    var c, s3 := WholePayment(s2, 0);
    RunThen(s0, a + b, s2, c, s3);
    steps, u := a + b + c, s3;
    assert [] + SeatCalls(s2.trip) == SeatCalls(u.trip);
  }

  /** From a new trip: a driver accepts it, the rider pays, and one accept without a driver makes the same payment
      event release the driver's seats a second time. */
  lemma DriverlessAcceptReleasesTwice(id: string, fare: Fare, driver: TripDriver) returns (steps: seq<Step>)
    requires driver.id != ""
    ensures ValidRun(InitialState(id, fare), steps)
    ensures var s := Execute(InitialState(id, fare), steps); var call := SeatCall(driver.id, SeatsOf(s.trip));
            s.released == [call, call]
  {
    var a, s1 := PaidTrip(id, fare, driver);
    var b, s2 := DriverlessUpdate(s1, 0);
    RunThen(InitialState(id, fare), a, s1, b, s2);
    var c, s3 := WholePayment(s2, 0);
    RunThen(InitialState(id, fare), a + b, s2, c, s3);
    steps := a + b + c;
  }
}
