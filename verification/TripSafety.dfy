/** What holds of a trip over every run of its protocol, and the inputs for which it would not. */
module TripSafety {
  import opened Prelude
  import opened TripStore
  import opened TripProtocol
  import Ledger
  import DoubleEntry
  import Text

  lemma RestNamesDrivers(steps: seq<Step>)
    requires steps != [] && AllNameDrivers(steps)
    ensures NamesDriver(steps[0]) && AllNameDrivers(steps[1..])
  {
    assert forall i :: 0 <= i < |steps[1..]| ==> steps[1..][i] == steps[i + 1];
  }

  lemma {:induction false} RunKeepsInv(s: State, steps: seq<Step>)
    requires Inv(s) && ValidRun(s, steps) && AllNameDrivers(steps)
    ensures Inv(Execute(s, steps))
    decreases |steps|
  {
    if steps != [] {
      RestNamesDrivers(steps);
      StepKeepsInv(s, steps[0]);
      RunKeepsInv(Apply(s, steps[0]), steps[1..]);
    }
  }

  // --- One winner, one reservation, one announcement, one session, one release ---------------

  /** In every run, whatever is interleaved, redelivered, retried or crashed: seats are reserved, the driver is
      announced, the payment session is asked for and seats are released at most once each; all of them name the
      driver stored with the trip; seats are released in the number that was reserved, and only after that. */
  lemma AtMostOnce(id: string, fare: Fare, steps: seq<Step>)
    requires ValidRun(InitialState(id, fare), steps) && AllNameDrivers(steps)
    ensures var s := Execute(InitialState(id, fare), steps);
            && (s.reserved == [] || s.reserved == SeatCalls(s.trip))
            && (s.announced == [] || (|s.announced| == 1 && s.announced[0].driver == s.trip.driver && s.trip.driver.Some?))
            && (s.sessions == [] ||
                (|s.sessions| == 1 && s.trip.driver.Some? && s.sessions[0].driver == s.trip.driver.value.id
                 && s.sessions[0].rider == s.trip.rider))
            && (s.released == [] || (s.released == SeatCalls(s.trip) && s.released == s.reserved))
            && (s.released != [] ==> s.trip.status == Payed)
  {
    InitHolds(id, fare);
    RunKeepsInv(InitialState(id, fare), steps);
  }

  /** Whatever happens to the fare document in between, every call of a run's reservations and releases names the
      stored driver and the seats of the fare the trip was created with, or one if it asks for none; the driver is
      announced only with his reservation made; and the session is asked for by the trip's rider, for that driver,
      that package and the last fare written before the winner's re-read. */
  lemma EffectsCarryTheFare(id: string, fare: Fare, steps: seq<Step>)
    requires ValidRun(InitialState(id, fare), steps) && AllNameDrivers(steps)
    ensures var s := Execute(InitialState(id, fare), steps);
            && (forall c :: c in s.reserved || c in s.released ==>
                  s.trip.driver.Some? && c == SeatCall(s.trip.driver.value.id, if fare.seats < 1 then 1 else fare.seats))
            && |s.released| <= |s.reserved| <= 1
            && (forall t :: t in s.announced ==> t.driver.Some? && (t.driver.value.id != "" ==> |s.reserved| == 1))
            && (forall t :: t in s.announced ==>
                  && t.rider == fare.rider && t.driver == s.trip.driver
                  && t.fare.seats == fare.seats && t.fare.slug == fare.slug)
            && (forall c :: c in s.sessions ==>
                  && s.trip.driver.Some? && s.acceptFare.Some?
                  && c == SessionCmd(fare.rider, s.trip.driver.value.id, LastOr(s.lateFares, s.acceptFare.value), fare.slug))
  {
    var s := Execute(InitialState(id, fare), steps);
    InitHolds(id, fare);
    RunKeepsInv(InitialState(id, fare), steps);
    RunsMoveForward(InitialState(id, fare), steps);
    SeatCallsCarry(s.trip, s.reserved, fare);
    SeatCallsCarry(s.trip, s.released, fare);
    MessagesCarry(s, fare);
  }

  lemma SeatCallsCarry(t: Trip, calls: seq<SeatCall>, fare: Fare)
    requires t.fare.seats == fare.seats && (calls == [] || calls == SeatCalls(t))
    ensures |calls| <= 1
    ensures forall c :: c in calls ==>
              t.driver.Some? && c == SeatCall(t.driver.value.id, if fare.seats < 1 then 1 else fare.seats)
  {
  }

  lemma MessagesCarry(s: State, fare: Fare)
    requires EffectsHold(s) && FaresHold(s.trip.fare.totalCents, s.acceptFare, s.lateFares, s.chargeFare)
    requires s.trip.rider == fare.rider && s.trip.fare.seats == fare.seats && s.trip.fare.slug == fare.slug
    requires s.announced != [] ==> s.trip.driver.Some?
    ensures forall t :: t in s.announced ==>
              && t.driver.Some? && (t.driver.value.id != "" ==> |s.reserved| == 1)
              && t.rider == fare.rider && t.driver == s.trip.driver && t.fare.seats == fare.seats && t.fare.slug == fare.slug
    ensures forall c :: c in s.sessions ==>
              && s.trip.driver.Some? && s.acceptFare.Some?
              && c == SessionCmd(fare.rider, s.trip.driver.value.id, LastOr(s.lateFares, s.acceptFare.value), fare.slug)
  {
  }

  /** The status never moves back, and rider, seats, package and, once set, the driver never change. */
  predicate Forward(a: Trip, b: Trip) {
    && Rank(a.status) <= Rank(b.status)
    && (a.driver.Some? ==> b.driver == a.driver)
    && a.rider == b.rider && a.fare.seats == b.fare.seats && a.fare.slug == b.fare.slug
  }

  /** Nothing that was called or published is taken back. */
  predicate LogsGrow(s: State, t: State) {
    && s.reserved <= t.reserved && s.announced <= t.announced && s.sessions <= t.sessions
    && s.released <= t.released && s.rows <= t.rows && s.success <= t.success
    && s.id == t.id
  }

  lemma UpdateIsForward(t: Trip, status: Status, driver: Option<TripDriver>)
    requires WellKept(t) && Modifies(t, status, driver)
    requires (status == Accepted && driver.Some?) || (status == Payed && driver.None?)
    ensures Forward(t, SetFields(t, status, driver))
  {
  }

  lemma AcceptMovesForward(s: State, p: nat, io: Io)
    requires p in s.accepts && s.accepts[p].driver.Some? && WellKept(s.trip)
    ensures Forward(s.trip, StepAccept(s, p, s.accepts[p], io).trip)
  {
    var run := s.accepts[p];
    if run.pc == Update && !io.Failed? && Modifies(s.trip, Accepted, run.driver) {
      UpdateIsForward(s.trip, Accepted, run.driver);
    } else {
      assert StepAccept(s, p, run, io).trip == s.trip;
    }
  }

  lemma FailedAcceptKeepsLogs(s: State, p: nat, run: AcceptRun)
    ensures LogsGrow(s, FailAccept(s, p, run)) && FailAccept(s, p, run).trip == s.trip
  {
  }

  lemma AcceptGrowsLogs(s: State, p: nat, io: Io)
    requires p in s.accepts
    ensures LogsGrow(s, StepAccept(s, p, s.accepts[p], io))
  {
    match s.accepts[p].pc
    case GetTrip =>
    case Update => UpdateGrowsLogs(s, p, io);
    case Reread =>
    case ReserveSeats =>
    case PublishAssigned => AnnouncementGrowsLogs(s, p, io);
    case PublishSession => SessionGrowsLogs(s, p, io);
  }

  lemma UpdateGrowsLogs(s: State, p: nat, io: Io)
    requires p in s.accepts && s.accepts[p].pc == Update
    ensures LogsGrow(s, StepAccept(s, p, s.accepts[p], io))
  {
  }

  lemma AnnouncementGrowsLogs(s: State, p: nat, io: Io)
    requires p in s.accepts && s.accepts[p].pc == PublishAssigned
    ensures LogsGrow(s, StepAccept(s, p, s.accepts[p], io))
  {
    var t := s.(announced := s.announced + if io.Failed? then [] else [s.accepts[p].snapshot]);
    FailedAcceptKeepsLogs(t, p, s.accepts[p]);
  }

  lemma SessionGrowsLogs(s: State, p: nat, io: Io)
    requires p in s.accepts && s.accepts[p].pc == PublishSession
    ensures LogsGrow(s, StepAccept(s, p, s.accepts[p], io))
  {
    var run := s.accepts[p];
    if run.driver.Some? {
      var t := s.(sessions := s.sessions + if io.Failed? then [] else [SessionOf(run.snapshot, run.driver.value)]);
      FailedAcceptKeepsLogs(t, p, run);
    }
  }

  predicate Advances(s: State, t: State) { Forward(s.trip, t.trip) && LogsGrow(s, t) }

  lemma AcceptAdvances(s: State, p: nat, io: Io)
    requires p in s.accepts && s.accepts[p].driver.Some? && WellKept(s.trip)
    ensures Advances(s, StepAccept(s, p, s.accepts[p], io))
  {
    AcceptMovesForward(s, p, io);
    AcceptGrowsLogs(s, p, io);
  }

  lemma RaiseAdvances(s: State, p: nat, io: Io)
    requires p in s.raises
    ensures Advances(s, StepRaise(s, p, s.raises[p], io))
  {
    match s.raises[p].pc
    case Check =>
    case WriteFare =>
    case WriteTrip => WriteTripAdvances(s, p, io);
  }

  lemma WriteTripAdvances(s: State, p: nat, io: Io)
    requires p in s.raises && s.raises[p].pc == WriteTrip
    ensures Advances(s, StepRaise(s, p, s.raises[p], io))
  {
  }

  lemma FailedPaidAdvances(s: State, p: nat, run: PaidRun)
    ensures Advances(s, FailPaid(s, p, run))
  {
  }

  lemma MarkPayedAdvances(s: State, p: nat, io: Io)
    requires p in s.paids && WellKept(s.trip) && s.paids[p].pc == MarkPayed
    ensures Advances(s, StepPaid(s, p, s.paids[p], io))
  {
    if !io.Failed? && Modifies(s.trip, Payed, None) {
      UpdateIsForward(s.trip, Payed, None);
      FailedPaidAdvances(s.(trip := SetFields(s.trip, Payed, None)), p, s.paids[p]);
    } else {
      FailedPaidAdvances(s, p, s.paids[p]);
    }
  }

  lemma PaidAdvances(s: State, p: nat, io: Io)
    requires p in s.paids && WellKept(s.trip)
    ensures Advances(s, StepPaid(s, p, s.paids[p], io))
  {
    if s.paids[p].pc == MarkPayed {
      MarkPayedAdvances(s, p, io);
    }
  }

  lemma FailedPostAdvances(s: State, p: nat, run: PostRun)
    ensures Advances(s, FailPost(s, p, run))
  {
  }

  lemma InsertGrowsRows(rows: seq<Ledger.Row>, row: Ledger.Row, io: Io)
    ensures rows <= Ledger.AfterInsert(rows, row, io)
  {
  }

  lemma PostAdvances(s: State, p: nat, io: Io, now: Ledger.Stamp)
    requires p in s.posts
    ensures Advances(s, StepPost(s, p, s.posts[p], io, now))
  {
    var run := s.posts[p];
    if !Ledger.Skipped(run.event) {
      InsertGrowsRows(s.rows, RowToPost(run, now), io);
      FailedPostAdvances(s.(rows := Ledger.AfterInsert(s.rows, RowToPost(run, now), io)), p, run);
    }
  }

  lemma TrafficAdvances(s: State, step: Step)
    requires Enabled(s, step) && !step.AcceptStep? && !step.RaiseStep? && !step.PaidStep? && !step.PostStep?
    ensures Advances(s, Apply(s, step))
  {
    var t := Apply(s, step);
    assert t.trip == s.trip && t.id == s.id && t.rows == s.rows && s.success <= t.success;
    assert t.reserved == s.reserved && t.announced == s.announced && t.sessions == s.sessions && t.released == s.released;
  }

  lemma WorkAdvances(s: State, step: Step)
    requires Enabled(s, step) && WellKept(s.trip) && (step.AcceptStep? ==> s.accepts[step.p].driver.Some?)
    requires step.AcceptStep? || step.RaiseStep? || step.PaidStep? || step.PostStep?
    ensures Advances(s, Apply(s, step))
  {
    match step
    case AcceptStep(p, io) => AcceptAdvances(s, p, io);
    case RaiseStep(p, io) => RaiseAdvances(s, p, io);
    case PaidStep(p, io) => PaidAdvances(s, p, io);
    case PostStep(p, io, now) => PostAdvances(s, p, io, now);
  }

  lemma StepMovesForward(s: State, step: Step)
    requires Inv(s) && Enabled(s, step) && NamesDriver(step)
    ensures Advances(s, Apply(s, step))
  {
    if step.AcceptStep? || step.RaiseStep? || step.PaidStep? || step.PostStep? {
      WorkAdvances(s, step);
    } else {
      TrafficAdvances(s, step);
    }
  }

  lemma AdvancesOn(s: State, t: State, u: State)
    requires Advances(s, t) && Advances(t, u)
    ensures Advances(s, u)
  {
  }

  /** From any state of a run to any later one the trip only moves forward and no effect is undone. */
  lemma {:induction false} RunsMoveForward(s: State, steps: seq<Step>)
    requires Inv(s) && ValidRun(s, steps) && AllNameDrivers(steps)
    ensures Advances(s, Execute(s, steps))
    decreases |steps|
  {
    if steps != [] {
      var t := Apply(s, steps[0]);
      RestNamesDrivers(steps);
      StepKeepsInv(s, steps[0]);
      StepMovesForward(s, steps[0]);
      RunsMoveForward(t, steps[1..]);
      AdvancesOn(s, t, Execute(s, steps));
    }
  }

  // --- From acceptance to the ledger -------------------------------------------------------------

  /** Every ledger row of the trip is its rider's debit or the stored driver's credit, at most one of each, the
      debit first, all under the trip's package; both amounts are the whole cents of the last fare written before the winner re-read the trip,
      which is the fare stored at acceptance if no increase was written in between. */
  lemma LedgerMatchesTrip(id: string, fare: Fare, steps: seq<Step>)
    requires ValidRun(InitialState(id, fare), steps) && AllNameDrivers(steps)
    ensures var s := Execute(InitialState(id, fare), steps);
            s.rows != [] ==>
              && s.trip.driver.Some? && s.acceptFare.Some?
              && var cents := Truncate(LastOr(s.lateFares, s.acceptFare.value));
              && cents > 0
              && (s.lateFares == [] ==> cents == s.acceptFare.value.Floor)
              && |s.rows| <= 2
              && s.rows[0].kind == Ledger.Debit && s.rows[0].user == s.trip.rider && s.rows[0].amount == cents
              && (|s.rows| == 2 ==>
                    && s.rows[1].kind == Ledger.Credit && s.rows[1].user == s.trip.driver.value.id && s.rows[1].amount == cents)
              && forall r :: r in s.rows ==>
                   && r.trip == Some(id)
                   && r.slug == var slug := Text.Trim(Text.ToLower(fare.slug)); if slug == "" then None else Some(slug)
  {
    var s := Execute(InitialState(id, fare), steps);
    InitHolds(id, fare);
    RunKeepsInv(InitialState(id, fare), steps);
    RunsMoveForward(InitialState(id, fare), steps);
    if s.rows != [] {
      assert DoubleEntry.TripRows(s.rows, PlanOf(s.sessions[0]));
      assert s.sessions[0].amount == LastOr(s.lateFares, s.acceptFare.value);
    }
  }

  /** No other step falls between the check and the write of a fare increase. */
  predicate RaisesAtomic(s: State, steps: seq<Step>)
    requires ValidRun(s, steps)
    decreases |steps|
  {
    steps != [] ==>
      && (s.raises == map[] || steps[0].RaiseStep? || steps[0].CrashRaise?)
      && RaisesAtomic(Apply(s, steps[0]), steps[1..])
  }

  predicate NoStaleRaise(s: State) {
    && s.lateFares == []
    && (forall p :: p in s.raises && s.raises[p].pc != Check ==> s.trip.status == Pending)
  }

  predicate SameRaises(s: State, t: State) { t.raises == s.raises && t.lateFares == s.lateFares }

  lemma AcceptLeavesRaises(s: State, p: nat, io: Io)
    requires p in s.accepts
    ensures SameRaises(s, StepAccept(s, p, s.accepts[p], io))
  {
    match s.accepts[p].pc
    case GetTrip =>
    case Update => UpdateLeavesRaises(s, p, io);
    case Reread =>
    case ReserveSeats =>
    case PublishAssigned => PublishLeavesRaises(s, p, io);
    case PublishSession => PublishLeavesRaises(s, p, io);
  }

  lemma UpdateLeavesRaises(s: State, p: nat, io: Io)
    requires p in s.accepts && s.accepts[p].pc == Update
    ensures SameRaises(s, StepAccept(s, p, s.accepts[p], io))
  {
  }

  lemma PublishLeavesRaises(s: State, p: nat, io: Io)
    requires p in s.accepts && s.accepts[p].pc in {PublishAssigned, PublishSession}
    ensures SameRaises(s, StepAccept(s, p, s.accepts[p], io))
  {
  }

  lemma PaidLeavesRaises(s: State, p: nat, io: Io)
    requires p in s.paids
    ensures SameRaises(s, StepPaid(s, p, s.paids[p], io))
  {
  }

  lemma PostLeavesRaises(s: State, p: nat, io: Io, now: Ledger.Stamp)
    requires p in s.posts
    ensures SameRaises(s, StepPost(s, p, s.posts[p], io, now))
  {
  }

  /** Only fare increases touch the fares and the increases in flight. */
  lemma OthersLeaveRaises(s: State, step: Step)
    requires Enabled(s, step) && !step.RaiseStep? && !step.CrashRaise? && !step.StartRaise?
    ensures SameRaises(s, Apply(s, step))
  {
    match step
    case AcceptStep(p, io) => AcceptLeavesRaises(s, p, io);
    case PaidStep(p, io) => PaidLeavesRaises(s, p, io);
    case PostStep(p, io, now) => PostLeavesRaises(s, p, io, now);
    case _ =>
  }

  lemma StepKeepsNoStaleRaise(s: State, step: Step)
    requires NoStaleRaise(s) && Enabled(s, step)
    requires s.trip.status == Pending ==> s.acceptFare.None?
    requires s.raises == map[] || step.RaiseStep? || step.CrashRaise?
    ensures NoStaleRaise(Apply(s, step))
  {
    match step
    case RaiseStep(p, io) => var t := StepRaise(s, p, s.raises[p], io); assert NoStaleRaise(t);
    case CrashRaise(p) =>
    case StartRaise(p, cents) =>
    case _ => OthersLeaveRaises(s, step);
  }

  lemma {:induction false} AtomicRunsHaveNoLateFares(s: State, steps: seq<Step>)
    requires Inv(s) && NoStaleRaise(s) && ValidRun(s, steps) && AllNameDrivers(steps) && RaisesAtomic(s, steps)
    ensures NoStaleRaise(Execute(s, steps))
    decreases |steps|
  {
    if steps != [] {
      RestNamesDrivers(steps);
      StepKeepsInv(s, steps[0]);
      StepKeepsNoStaleRaise(s, steps[0]);
      AtomicRunsHaveNoLateFares(Apply(s, steps[0]), steps[1..]);
    }
  }

  /** With atomic fare increases both amounts are the floor of the fare stored when the trip was accepted. */
  lemma AtomicRaisesChargeTheAcceptedFare(id: string, fare: Fare, steps: seq<Step>)
    requires ValidRun(InitialState(id, fare), steps) && AllNameDrivers(steps)
    requires RaisesAtomic(InitialState(id, fare), steps)
    ensures var s := Execute(InitialState(id, fare), steps);
            && (s.rows != [] ==> s.acceptFare.Some?)
            && forall r :: r in s.rows ==> r.amount == s.acceptFare.value.Floor
  {
    InitHolds(id, fare);
    AtomicRunsHaveNoLateFares(InitialState(id, fare), steps);
    LedgerMatchesTrip(id, fare, steps);
    var s := Execute(InitialState(id, fare), steps);
    forall r | r in s.rows ensures r.amount == s.acceptFare.value.Floor {
      var i :| 0 <= i < |s.rows| && s.rows[i] == r;
    }
  }

  // --- Inputs for which the promises fail -----------------------------------------------------------

  lemma Run3(s: State, a: Step, b: Step, c: Step)
    requires Enabled(s, a) && Enabled(Apply(s, a), b) && Enabled(Apply(Apply(s, a), b), c)
    ensures ValidRun(s, [a, b, c]) && Execute(s, [a, b, c]) == Apply(Apply(Apply(s, a), b), c)
  {
    var s1 := Apply(s, a);
    var s2 := Apply(s1, b);
    var t := Apply(s2, c);
    assert [a, b, c][1..] == [b, c] && [b, c][1..] == [c] && [c][1..] == [];
    assert ValidRun(t, []) && Execute(t, []) == t;
    assert ValidRun(s2, [c]) && Execute(s2, [c]) == t;
    assert ValidRun(s1, [b, c]) && Execute(s1, [b, c]) == t;
  }

  lemma {:induction false} Chain(s: State, first: seq<Step>, then_: seq<Step>)
    requires ValidRun(s, first) && ValidRun(Execute(s, first), then_)
    ensures ValidRun(s, first + then_) && Execute(s, first + then_) == Execute(Execute(s, first), then_)
    decreases |first|
  {
    if first == [] {
      assert first + then_ == then_;
    } else {
      assert (first + then_)[1..] == first[1..] + then_;
      Chain(Apply(s, first[0]), first[1..], then_);
    }
  }

  /** Steps of a fare increase up to, but not including, its write to the trip. */
  function RaiseUpToWrite(p: nat, cents: real): seq<Step> { [StartRaise(p, cents), RaiseStep(p, Done), RaiseStep(p, Done)] }

  /** Steps of an accept delivery up to and including its update. */
  function AcceptUpToUpdate(p: nat, driver: Option<TripDriver>): seq<Step> {
    [StartAccept(p, driver), AcceptStep(p, Done), AcceptStep(p, Done)]
  }

  lemma RaiseReachesWrite(s: State, p: nat, cents: real)
    requires cents > 0.0 && p !in s.raises && s.trip.status == Pending && s.trip.driver.None?
    ensures ValidRun(s, RaiseUpToWrite(p, cents))
    ensures Execute(s, RaiseUpToWrite(p, cents)) ==
            s.(raises := s.raises[p := RaiseRun(cents, WriteTrip)], fareDoc := s.fareDoc.(totalCents := cents))
  {
    var s1 := Apply(s, StartRaise(p, cents));
    assert s1.raises[p] == RaiseRun(cents, Check);
    var s2 := Apply(s1, RaiseStep(p, Done));
    assert s2 == s.(raises := s.raises[p := RaiseRun(cents, WriteFare)]);
    var s3 := Apply(s2, RaiseStep(p, Done));
    assert s3.raises == s.raises[p := RaiseRun(cents, WriteTrip)];
    Run3(s, StartRaise(p, cents), RaiseStep(p, Done), RaiseStep(p, Done));
  }

  lemma AcceptReachesUpdate(s: State, p: nat, driver: Option<TripDriver>)
    requires p !in s.accepts && Modifies(s.trip, Accepted, driver)
    ensures ValidRun(s, AcceptUpToUpdate(p, driver))
    ensures Execute(s, AcceptUpToUpdate(p, driver)) ==
            s.(trip := SetFields(s.trip, Accepted, driver), acceptFare := Some(s.trip.fare.totalCents),
               accepts := s.accepts[p := AcceptRun(driver, 0, Reread, s.trip)])
  {
    var s1 := Apply(s, StartAccept(p, driver));
    assert s1.accepts[p] == AcceptRun(driver, 0, GetTrip, s.trip);
    var s2 := Apply(s1, AcceptStep(p, Done));
    assert s2 == s.(accepts := s.accepts[p := AcceptRun(driver, 0, Update, s.trip)]);
    var s3 := Apply(s2, AcceptStep(p, Done));
    assert s3.accepts == s.accepts[p := AcceptRun(driver, 0, Reread, s.trip)];
    Run3(s, StartAccept(p, driver), AcceptStep(p, Done), AcceptStep(p, Done));
  }

  lemma LateWriteIsRead(s: State, p: nat, q: nat)
    requires p in s.raises && s.raises[p].pc == WriteTrip && q in s.accepts && s.accepts[q].pc == Reread
    requires s.acceptFare.Some? && s.chargeFare.None? && s.lateFares == []
    ensures ValidRun(s, [RaiseStep(p, Done), AcceptStep(q, Done)])
    ensures var t := Execute(s, [RaiseStep(p, Done), AcceptStep(q, Done)]);
            t.acceptFare == s.acceptFare && t.chargeFare == Some(s.raises[p].cents) && t.lateFares == [s.raises[p].cents]
  {
    var s1 := Apply(s, RaiseStep(p, Done));
    var t := Apply(s1, AcceptStep(q, Done));
    var both := [RaiseStep(p, Done), AcceptStep(q, Done)];
    assert both[1..] == [AcceptStep(q, Done)] && [AcceptStep(q, Done)][1..] == [];
    assert ValidRun(t, []) && Execute(t, []) == t;
    assert ValidRun(s1, both[1..]) && Execute(s1, both[1..]) == t;
  }

  /** An increase that passed its check before the trip was accepted and is written after it changes what the
      rider is charged. */
  lemma LateRaiseChangesTheCharge(id: string, fare: Fare, driver: TripDriver, cents: real) returns (steps: seq<Step>)
    requires cents > 0.0
    ensures ValidRun(InitialState(id, fare), steps) && AllNameDrivers(steps)
    ensures var s := Execute(InitialState(id, fare), steps);
            s.acceptFare == Some(fare.totalCents) && s.chargeFare == Some(cents) && s.lateFares == [cents]
  {
    var s0 := InitialState(id, fare);
    RaiseReachesWrite(s0, 0, cents);
    var s1 := Execute(s0, RaiseUpToWrite(0, cents));
    AcceptReachesUpdate(s1, 0, Some(driver));
    var s2 := Execute(s1, AcceptUpToUpdate(0, Some(driver)));
    LateWriteIsRead(s2, 0, 0);
    var late := [RaiseStep(0, Done), AcceptStep(0, Done)];
    Chain(s1, AcceptUpToUpdate(0, Some(driver)), late);
    Chain(s0, RaiseUpToWrite(0, cents), AcceptUpToUpdate(0, Some(driver)) + late);
    steps := RaiseUpToWrite(0, cents) + (AcceptUpToUpdate(0, Some(driver)) + late);
  }
}
