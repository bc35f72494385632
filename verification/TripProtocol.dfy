/** One trip's life as an interleaved protocol. Every database operation, RPC and publish is a step of its own;
    any number of accept deliveries, fare increases, payment deliveries and ledger postings may be in flight at
    once, and each may crash between any two of its steps. */
module TripProtocol {
  import opened Prelude
  import opened TripStore
  import Ledger
  import DoubleEntry

  // --- Messages, calls and in-flight work ----------------------------------------------

  /** A NotifyTripAccepted or NotifyTripCompleted call. */
  datatype SeatCall = SeatCall(driver: string, seats: int)

  /** The payload of payment.cmd.create_session. */
  datatype SessionCmd = SessionCmd(rider: string, driver: string, amount: real, slug: string)

  /** A Stripe checkout session: the amount in whole cents, and the metadata. */
  datatype Checkout = Checkout(rider: string, driver: string, cents: int, slug: string)

  datatype AcceptPc = GetTrip | Update | Reread | ReserveSeats | PublishAssigned | PublishSession

  /** A delivery of driver.cmd.trip_accept; `snapshot` is the trip as re-read after the update. */
  datatype AcceptRun = AcceptRun(driver: Option<TripDriver>, attempt: nat, pc: AcceptPc, snapshot: Trip)

  datatype RaisePc = Check | WriteFare | WriteTrip

  /** A call of IncreaseTripFare. */
  datatype RaiseRun = RaiseRun(cents: real, pc: RaisePc)

  datatype PaidPc = ReadTrip | MarkPayed | ReleaseSeats

  /** A delivery of payment.event.success to the trip service; `seen` is the trip as read, if the read worked. */
  datatype PaidRun = PaidRun(attempt: nat, pc: PaidPc, seen: Option<Trip>)

  datatype PostPc = PostDebit | PostCredit

  /** A delivery of payment.event.success to the finance ledger. */
  datatype PostRun = PostRun(attempt: nat, pc: PostPc, event: Ledger.Payment)

  datatype State = State(
    id: string,
    trip: Trip,                           // the trip document
    fareDoc: Fare,                        // the fare document the trip was created from
    accepts: map<nat, AcceptRun>,
    raises: map<nat, RaiseRun>,
    paids: map<nat, PaidRun>,
    posts: map<nat, PostRun>,
    reserved: seq<SeatCall>,              // seat reservations requested, in order
    announced: seq<Trip>,                  // trip.event.driver_assigned published
    sessions: seq<SessionCmd>,            // payment.cmd.create_session published
    checkouts: set<Checkout>,             // checkout sessions opened
    success: set<Ledger.Payment>,         // payment.event.success published
    released: seq<SeatCall>,              // seat releases requested
    rows: seq<Ledger.Row>,                // the trip's rows in the ledger
    // history
    acceptFare: Option<real>,             // the fare stored when the trip was accepted
    lateFares: seq<real>,                 // fares written after that and before the winner's re-read
    chargeFare: Option<real>)             // the fare the winner's re-read found

  /** The step's remote operation ends as `io`; `now` stamps a ledger row. */
  datatype Step =
    | StartAccept(p: nat, driver: Option<TripDriver>)
    | AcceptStep(p: nat, io: Io)
    | CrashAccept(p: nat)
    | StartRaise(p: nat, cents: real)
    | RaiseStep(p: nat, io: Io)
    | CrashRaise(p: nat)
    | EditSeats(seats: int)
    | OpenCheckout(cmd: SessionCmd)
    | StripeWebhook(checkout: Checkout, currency: string, region: string)
    | StartPaid(p: nat)
    | PaidStep(p: nat, io: Io)
    | CrashPaid(p: nat)
    | StartPost(p: nat, event: Ledger.Payment)
    | PostStep(p: nat, io: Io, now: Ledger.Stamp)
    | CrashPost(p: nat)

  function SeatsOf(t: Trip): int { if t.fare.seats > 0 then t.fare.seats else 1 }

  function SessionOf(t: Trip, driver: TripDriver): SessionCmd {
    SessionCmd(t.rider, driver.id, t.fare.totalCents, t.fare.slug)
  }

  function CheckoutOf(cmd: SessionCmd): Checkout {
    Checkout(cmd.rider, cmd.driver, Truncate(cmd.amount), cmd.slug)
  }

  function SuccessOf(id: string, c: Checkout, currency: string, region: string): Ledger.Payment {
    Ledger.Payment(c.rider, c.driver, c.cents, currency, region, id, c.slug)
  }

  function InitialState(id: string, fare: Fare): State {
    State(id, NewTrip(fare), fare, map[], map[], map[], map[], [], [], [], {}, {}, [], [], None, [], None)
  }

  // --- Steps ---------------------------------------------------------------------------

  predicate Enabled(s: State, step: Step) {
    match step
    case StartAccept(p, _) => p !in s.accepts
    case AcceptStep(p, _) => p in s.accepts
    case CrashAccept(p) => p in s.accepts
    case StartRaise(p, _) => p !in s.raises
    case RaiseStep(p, _) => p in s.raises
    case CrashRaise(p) => p in s.raises
    case EditSeats(_) => true
    case OpenCheckout(cmd) => cmd in s.sessions
    case StripeWebhook(c, _, _) => c in s.checkouts
    case StartPaid(p) => p !in s.paids && s.success != {}
    case PaidStep(p, _) => p in s.paids
    case CrashPaid(p) => p in s.paids
    case StartPost(p, e) => p !in s.posts && e in s.success
    case PostStep(p, _, _) => p in s.posts
    case CrashPost(p) => p in s.posts
  }

  function Apply(s: State, step: Step): State
    requires Enabled(s, step)
  {
    match step
    case StartAccept(p, driver) => s.(accepts := s.accepts[p := AcceptRun(driver, 0, GetTrip, s.trip)])
    case AcceptStep(p, io) => StepAccept(s, p, s.accepts[p], io)
    case CrashAccept(p) => s.(accepts := s.accepts - {p})
    case StartRaise(p, cents) => if cents <= 0.0 then s else s.(raises := s.raises[p := RaiseRun(cents, Check)])
    case RaiseStep(p, io) => StepRaise(s, p, s.raises[p], io)
    case CrashRaise(p) => s.(raises := s.raises - {p})
    case EditSeats(seats) => s.(fareDoc := s.fareDoc.(seats := seats))
    case OpenCheckout(cmd) => s.(checkouts := s.checkouts + {CheckoutOf(cmd)})
    case StripeWebhook(c, currency, region) => s.(success := s.success + {SuccessOf(s.id, c, currency, region)})
    case StartPaid(p) => s.(paids := s.paids[p := PaidRun(0, ReadTrip, None)])
    case PaidStep(p, io) => StepPaid(s, p, s.paids[p], io)
    case CrashPaid(p) => s.(paids := s.paids - {p})
    case StartPost(p, e) => s.(posts := s.posts[p := PostRun(0, PostDebit, e)])
    case PostStep(p, io, now) => StepPost(s, p, s.posts[p], io, now)
    case CrashPost(p) => s.(posts := s.posts - {p})
  }

  /** An error: the handler is run again from the top, or the message is rejected. */
  function FailAccept(s: State, p: nat, run: AcceptRun): State {
    if run.attempt < MAX_RETRIES then s.(accepts := s.accepts[p := run.(attempt := run.attempt + 1, pc := GetTrip)])
    else s.(accepts := s.accepts - {p})
  }

  /** handleTripAccepted, one operation at a time. */
  function StepAccept(s: State, p: nat, run: AcceptRun, io: Io): State {
    match run.pc
    case GetTrip =>
      if io.Done? then s.(accepts := s.accepts[p := run.(pc := Update)]) else FailAccept(s, p, run)
    case Update =>
      var modified := !io.Failed? && Modifies(s.trip, Accepted, run.driver);
      var t := if modified then s.(trip := SetFields(s.trip, Accepted, run.driver), acceptFare := Some(s.trip.fare.totalCents)) else s;
      if modified && io.Done? then t.(accepts := s.accepts[p := run.(pc := Reread)]) else FailAccept(t, p, run)
    case Reread =>
      if io.Done? then s.(accepts := s.accepts[p := run.(pc := ReserveSeats, snapshot := s.trip)], chargeFare := Some(s.trip.fare.totalCents))
      else FailAccept(s, p, run)
    case ReserveSeats =>
      var called := run.driver.Some? && run.driver.value.id != "";
      s.(accepts := s.accepts[p := run.(pc := PublishAssigned)],
         reserved := s.reserved + if called then [SeatCall(run.driver.value.id, SeatsOf(run.snapshot))] else [])
    case PublishAssigned =>
      var t := s.(announced := s.announced + if io.Failed? then [] else [run.snapshot]);
      if io.Done? then t.(accepts := s.accepts[p := run.(pc := PublishSession)]) else FailAccept(t, p, run)
    case PublishSession =>
      if run.driver.None? then s.(accepts := s.accepts - {p}) // driver.Id panics
      else
        var t := s.(sessions := s.sessions + if io.Failed? then [] else [SessionOf(run.snapshot, run.driver.value)]);
        if io.Done? then t.(accepts := s.accepts - {p}) else FailAccept(t, p, run)
  }

  /** IncreaseTripFare after its argument check: the writes match by id only. */
  function StepRaise(s: State, p: nat, run: RaiseRun, io: Io): State {
    match run.pc
    case Check =>
      if io.Done? && s.trip.status == Pending && s.trip.driver.None? then s.(raises := s.raises[p := run.(pc := WriteFare)])
      else s.(raises := s.raises - {p})
    case WriteFare =>
      var t := if io.Failed? then s else s.(fareDoc := s.fareDoc.(totalCents := run.cents));
      if io.Done? then t.(raises := s.raises[p := run.(pc := WriteTrip)]) else t.(raises := s.raises - {p})
    case WriteTrip =>
      if io.Failed? then s.(raises := s.raises - {p})
      else s.(trip := s.trip.(fare := s.trip.fare.(totalCents := run.cents)),
              raises := s.raises - {p},
              lateFares := if s.acceptFare.Some? && s.chargeFare.None? then s.lateFares + [run.cents] else s.lateFares)
  }

  function FailPaid(s: State, p: nat, run: PaidRun): State {
    if run.attempt < MAX_RETRIES then s.(paids := s.paids[p := PaidRun(run.attempt + 1, ReadTrip, None)])
    else s.(paids := s.paids - {p})
  }

  /** The trip service's payment consumer; a failed read is only logged. */
  function StepPaid(s: State, p: nat, run: PaidRun, io: Io): State {
    match run.pc
    case ReadTrip => s.(paids := s.paids[p := run.(pc := MarkPayed, seen := if io.Done? then Some(s.trip) else None)])
    case MarkPayed =>
      var modified := !io.Failed? && Modifies(s.trip, Payed, None);
      var t := if modified then s.(trip := SetFields(s.trip, Payed, None)) else s;
      if modified && io.Done? then t.(paids := s.paids[p := run.(pc := ReleaseSeats)]) else FailPaid(t, p, run)
    case ReleaseSeats =>
      var called := run.seen.Some? && run.seen.value.driver.Some? && run.seen.value.driver.value.id != "";
      s.(paids := s.paids - {p},
         released := s.released + if called then [SeatCall(run.seen.value.driver.value.id, SeatsOf(run.seen.value))] else [])
  }

  function FailPost(s: State, p: nat, run: PostRun): State {
    if run.attempt < MAX_RETRIES then s.(posts := s.posts[p := run.(attempt := run.attempt + 1, pc := PostDebit)])
    else s.(posts := s.posts - {p})
  }

  /** The row the next insert of RecordTripPayment is for. */
  function RowToPost(run: PostRun, now: Ledger.Stamp): Ledger.Row {
    if run.pc == PostDebit then Ledger.DebitRow(run.event, now) else Ledger.CreditRow(run.event, now)
  }

  /** RecordTripPayment, one insert at a time. */
  function StepPost(s: State, p: nat, run: PostRun, io: Io, now: Ledger.Stamp): State {
    if Ledger.Skipped(run.event) then s.(posts := s.posts - {p})
    else
      var t := s.(rows := Ledger.AfterInsert(s.rows, RowToPost(run, now), io));
      if !io.Done? then FailPost(t, p, run)
      else if run.pc == PostDebit && Ledger.HasDriverSide(run.event) then t.(posts := s.posts[p := run.(pc := PostCredit)])
      else t.(posts := s.posts - {p})
  }

  // --- Runs ------------------------------------------------------------------------------

  /** Every step of the run is enabled where it is taken. */
  predicate ValidRun(s: State, steps: seq<Step>)
    decreases |steps|
  {
    steps != [] ==> Enabled(s, steps[0]) && ValidRun(Apply(s, steps[0]), steps[1..])
  }

  function Execute(s: State, steps: seq<Step>): State
    requires ValidRun(s, steps)
    decreases |steps|
  {
    if steps == [] then s else Execute(Apply(s, steps[0]), steps[1..])
  }

  /** Every accept in the run names its driver. */
  predicate NamesDriver(step: Step) { step.StartAccept? ==> step.driver.Some? }

  predicate AllNameDrivers(steps: seq<Step>) {
    forall i :: 0 <= i < |steps| ==> NamesDriver(steps[i])
  }

  // --- The invariant -----------------------------------------------------------------------

  /** Past a successful update: the delivery that won the trip. */
  predicate Won(run: AcceptRun) { run.pc !in {GetTrip, Update} }

  function LastOr(xs: seq<real>, x: real): real { if xs == [] then x else xs[|xs| - 1] }

  /** A copy of the trip differs from the stored one at most in its status and total. */
  predicate SameTrip(a: Trip, b: Trip) {
    a.rider == b.rider && a.driver == b.driver && a.fare.seats == b.fare.seats && a.fare.slug == b.fare.slug
  }

  predicate SnapshotHolds(s: State, t: Trip) {
    SameTrip(t, s.trip) && s.chargeFare == Some(t.fare.totalCents)
  }

  /** The reservation the protocol asks for: one call, unless the driver has no id. */
  function SeatCalls(t: Trip): seq<SeatCall> {
    if t.driver.Some? && t.driver.value.id != "" then [SeatCall(t.driver.value.id, SeatsOf(t))] else []
  }

  /** What the winning delivery has done so far, by its position. */
  predicate WinnerHolds(s: State, run: AcceptRun) {
    && s.trip.status == Accepted && s.trip.driver == run.driver && run.driver.Some? && s.sessions == []
    && match run.pc
       case GetTrip => true
       case Update => true
       case Reread => s.chargeFare.None? && s.reserved == [] && s.announced == []
       case ReserveSeats => SnapshotHolds(s, run.snapshot) && s.reserved == [] && s.announced == []
       case PublishAssigned => SnapshotHolds(s, run.snapshot) && s.reserved == SeatCalls(s.trip) && s.announced == []
       case PublishSession => SnapshotHolds(s, run.snapshot) && s.reserved == SeatCalls(s.trip) && s.announced == [run.snapshot]
  }

  predicate AcceptsHold(s: State) {
    && (forall p :: p in s.accepts ==> s.accepts[p].driver.Some?)
    && (forall p :: p in s.accepts && Won(s.accepts[p]) ==> WinnerHolds(s, s.accepts[p]))
    && (forall p, q :: p in s.accepts && q in s.accepts && Won(s.accepts[p]) && Won(s.accepts[q]) ==> p == q)
  }

  /** Who wins and what is published, once each and in order. */
  predicate EffectsHold(s: State) {
    && WellKept(s.trip)
    && (s.trip.status == Pending <==> s.acceptFare.None?)
    && (s.chargeFare.Some? ==> s.acceptFare.Some?)
    && (s.chargeFare.None? ==> s.reserved == [] && s.announced == [])
    && (s.reserved == [] || s.reserved == SeatCalls(s.trip))
    && |s.announced| <= 1
    && (s.announced != [] ==> SnapshotHolds(s, s.announced[0]) && s.reserved == SeatCalls(s.trip))
    && |s.sessions| <= 1
    && (s.sessions != [] ==>
          && s.announced != [] && s.trip.driver.Some?
          && s.sessions[0] == SessionOf(s.announced[0], s.trip.driver.value))
  }

  /** The fare that is charged is the last one written before the winner's re-read. */
  predicate FaresHold(total: real, acceptFare: Option<real>, lateFares: seq<real>, chargeFare: Option<real>) {
    && (acceptFare.None? ==> lateFares == [] && chargeFare.None?)
    && (acceptFare.Some? && chargeFare.None? ==> total == LastOr(lateFares, acceptFare.value))
    && (acceptFare.Some? && chargeFare.Some? ==> chargeFare.value == LastOr(lateFares, acceptFare.value))
  }

  /** The one payment the trip can be settled by. */
  function PlanOf(cmd: SessionCmd): DoubleEntry.Plan {
    DoubleEntry.Plan(cmd.rider, cmd.driver, Truncate(cmd.amount))
  }

  predicate IsSuccess(id: string, sessions: seq<SessionCmd>, e: Ledger.Payment) {
    sessions != [] && e.trip == id && DoubleEntry.Matches(e, PlanOf(sessions[0])) && e.slug == sessions[0].slug
  }

  predicate PaymentsHold(id: string, sessions: seq<SessionCmd>, checkouts: set<Checkout>, success: set<Ledger.Payment>) {
    && (forall c :: c in checkouts ==> sessions != [] && c == CheckoutOf(sessions[0]))
    && (forall e :: e in success ==> IsSuccess(id, sessions, e))
  }

  predicate PaidRunHolds(t: Trip, released: seq<SeatCall>, run: PaidRun) {
    && (run.seen.Some? ==> SameTrip(run.seen.value, t))
    && (run.pc == ReleaseSeats ==> t.status == Payed && released == [])
  }

  predicate PaidsHold(t: Trip, paids: map<nat, PaidRun>, released: seq<SeatCall>) {
    && (forall p :: p in paids ==> PaidRunHolds(t, released, paids[p]))
    && (forall p, q :: p in paids && q in paids && paids[p].pc == ReleaseSeats && paids[q].pc == ReleaseSeats ==> p == q)
    && (released == [] || released == SeatCalls(t))
    && (released != [] ==> t.status == Payed)
  }

  predicate PostRunHolds(id: string, sessions: seq<SessionCmd>, rows: seq<Ledger.Row>, run: PostRun) {
    && IsSuccess(id, sessions, run.event)
    && (run.pc == PostCredit ==> rows != [] && Ledger.HasDriverSide(run.event))
  }

  predicate PostsHold(id: string, sessions: seq<SessionCmd>, posts: map<nat, PostRun>, rows: seq<Ledger.Row>) {
    && (forall p :: p in posts ==> PostRunHolds(id, sessions, rows, posts[p]))
    && (sessions == [] ==> rows == [])
    && (sessions != [] ==> DoubleEntry.TripRows(rows, PlanOf(sessions[0])))
    && (forall r :: r in rows ==> sessions != [] && r.trip == Some(id) && r.slug == Ledger.SlugColumn(sessions[0].slug))
  }

  predicate Inv(s: State) {
    && AcceptsHold(s)
    && EffectsHold(s)
    && FaresHold(s.trip.fare.totalCents, s.acceptFare, s.lateFares, s.chargeFare)
    && PaymentsHold(s.id, s.sessions, s.checkouts, s.success)
    && (s.paids != map[] || s.trip.status == Payed ==> s.sessions != [])
    && PaidsHold(s.trip, s.paids, s.released)
    && PostsHold(s.id, s.sessions, s.posts, s.rows)
  }

  // --- Preservation ---------------------------------------------------------------------------

  lemma InitHolds(id: string, fare: Fare)
    ensures Inv(InitialState(id, fare))
  {
  }

  /** Sending one delivery back before the update takes nothing from the others. */
  lemma RestartKeepsAccepts(s: State, p: nat, run: AcceptRun)
    requires AcceptsHold(s) && !Won(run) && run.driver.Some?
    ensures AcceptsHold(s.(accepts := s.accepts[p := run]))
  {
    var t := s.(accepts := s.accepts[p := run]);
    forall q | q in t.accepts && Won(t.accepts[q]) ensures WinnerHolds(t, t.accepts[q]) {
      assert q != p && WinnerHolds(s, s.accepts[q]);
    }
  }

  lemma DropKeepsAccepts(s: State, p: nat)
    requires AcceptsHold(s)
    ensures AcceptsHold(s.(accepts := s.accepts - {p}))
  {
    var t := s.(accepts := s.accepts - {p});
    forall q | q in t.accepts && Won(t.accepts[q]) ensures WinnerHolds(t, t.accepts[q]) {
      assert WinnerHolds(s, s.accepts[q]);
    }
  }

  lemma FailAcceptKeepsInv(s: State, p: nat, run: AcceptRun)
    requires Inv(s) && run.driver.Some?
    ensures Inv(FailAccept(s, p, run))
  {
    if run.attempt < MAX_RETRIES {
      RestartKeepsAccepts(s, p, run.(attempt := run.attempt + 1, pc := GetTrip));
    } else {
      DropKeepsAccepts(s, p);
    }
  }

  /** The winning update: the trip was pending, so nobody had won before. */
  lemma WinKeepsInv(s: State, p: nat, run: AcceptRun)
    requires Inv(s) && run.driver.Some? && s.trip.status == Pending
    ensures var t := s.(trip := SetFields(s.trip, Accepted, run.driver), acceptFare := Some(s.trip.fare.totalCents));
            Inv(t) && Inv(t.(accepts := s.accepts[p := run.(pc := Reread)]))
  {
    assert forall q :: q in s.accepts ==> !Won(s.accepts[q]);
    assert s.sessions == [] && s.paids == map[] && s.released == [];
    var t := s.(trip := SetFields(s.trip, Accepted, run.driver), acceptFare := Some(s.trip.fare.totalCents));
    assert AcceptsHold(t);
    assert EffectsHold(t);
    var u := t.(accepts := s.accepts[p := run.(pc := Reread)]);
    assert WinnerHolds(u, u.accepts[p]);
    assert AcceptsHold(u);
  }

  lemma UpdateKeepsInv(s: State, p: nat, io: Io)
    requires Inv(s) && p in s.accepts && s.accepts[p].pc == Update
    ensures Inv(StepAccept(s, p, s.accepts[p], io))
  {
    var run := s.accepts[p];
    AssignmentSucceedsOnce(s.trip, Accepted, run.driver);
    if !io.Failed? && Modifies(s.trip, Accepted, run.driver) {
      WinKeepsInv(s, p, run);
      var t := s.(trip := SetFields(s.trip, Accepted, run.driver), acceptFare := Some(s.trip.fare.totalCents));
      if !io.Done? {
        FailAcceptKeepsInv(t, p, run);
      }
    } else {
      FailAcceptKeepsInv(s, p, run);
    }
  }

  lemma RereadKeepsInv(s: State, p: nat, io: Io)
    requires Inv(s) && p in s.accepts && s.accepts[p].pc == Reread
    ensures Inv(StepAccept(s, p, s.accepts[p], io))
  {
    var run := s.accepts[p];
    if io.Done? {
      var t := StepAccept(s, p, run, io);
      assert WinnerHolds(t, t.accepts[p]);
    } else {
      FailAcceptKeepsInv(s, p, run);
    }
  }

  lemma ReserveKeepsInv(s: State, p: nat, io: Io)
    requires Inv(s) && p in s.accepts && s.accepts[p].pc == ReserveSeats
    ensures Inv(StepAccept(s, p, s.accepts[p], io))
  {
  }

  /** No delivery is past its update. */
  predicate NoneWon(accepts: map<nat, AcceptRun>) {
    forall p :: p in accepts ==> !Won(accepts[p])
  }

  /** The delivery is acknowledged, or fails: either way it is not past its update any more. */
  function Retired(s: State, p: nat, run: AcceptRun, ack: bool): State {
    if ack then s.(accepts := s.accepts - {p}) else FailAccept(s, p, run)
  }

  lemma RetiredKeepsInv(s: State, p: nat, run: AcceptRun, ack: bool)
    requires Inv(s) && p in s.accepts && run == s.accepts[p] && Won(run)
    ensures Inv(Retired(s, p, run, ack)) && NoneWon(Retired(s, p, run, ack).accepts)
  {
    if ack {
      DropKeepsInv(s, p);
    } else {
      FailAcceptKeepsInv(s, p, run);
    }
  }

  lemma DropKeepsInv(s: State, p: nat)
    requires Inv(s)
    ensures Inv(s.(accepts := s.accepts - {p}))
  {
    DropKeepsAccepts(s, p);
  }

  lemma AnnounceKeepsInv(s: State, snapshot: Trip)
    requires Inv(s) && NoneWon(s.accepts) && s.announced == [] && s.sessions == []
    requires SnapshotHolds(s, snapshot) && s.reserved == SeatCalls(s.trip)
    ensures Inv(s.(announced := [snapshot]))
  {
    var t := s.(announced := [snapshot]);
    assert AcceptsHold(t) && EffectsHold(t);
  }

  lemma AnnouncedKeepsInv(s: State, p: nat)
    requires Inv(s) && p in s.accepts && s.accepts[p].pc == PublishAssigned
    ensures Inv(s.(announced := [s.accepts[p].snapshot], accepts := s.accepts[p := s.accepts[p].(pc := PublishSession)]))
  {
    var run := s.accepts[p];
    assert WinnerHolds(s, run);
    var t := s.(announced := [run.snapshot], accepts := s.accepts[p := run.(pc := PublishSession)]);
    assert WinnerHolds(t, t.accepts[p]);
    assert AcceptsHold(t) && EffectsHold(t);
  }

  lemma UnconfirmedAnnouncementKeepsInv(s: State, t: State, p: nat)
    requires Inv(s) && p in s.accepts && s.accepts[p].pc == PublishAssigned
    requires t == Retired(s, p, s.accepts[p], false)
    ensures Inv(t.(announced := [s.accepts[p].snapshot]))
  {
    assert WinnerHolds(s, s.accepts[p]);
    RetiredKeepsInv(s, p, s.accepts[p], false);
    AnnounceKeepsInv(t, s.accepts[p].snapshot);
  }

  lemma PublishAssignedKeepsInv(s: State, p: nat, io: Io)
    requires Inv(s) && p in s.accepts && s.accepts[p].pc == PublishAssigned
    ensures Inv(StepAccept(s, p, s.accepts[p], io))
  {
    var run := s.accepts[p];
    assert s.announced == [] by { assert WinnerHolds(s, run); }
    if io.Done? {
      AnnouncedKeepsInv(s, p);
    } else if io.Unconfirmed? {
      var t := Retired(s, p, run, false);
      UnconfirmedAnnouncementKeepsInv(s, t, p);
      assert StepAccept(s, p, run, io) == t.(announced := [run.snapshot]);
    } else {
      FailAcceptKeepsInv(s, p, run);
      assert s.(announced := s.announced + []) == s;
    }
  }

  lemma SessionKeepsInv(s: State, driver: TripDriver)
    requires Inv(s) && NoneWon(s.accepts) && s.sessions == [] && |s.announced| == 1 && s.trip.driver == Some(driver)
    ensures Inv(s.(sessions := [SessionOf(s.announced[0], driver)]))
  {
    var t := s.(sessions := [SessionOf(s.announced[0], driver)]);
    assert AcceptsHold(t) && EffectsHold(t);
    assert t.rows == [];
  }

  lemma SentSessionKeepsInv(s: State, t: State, p: nat, ack: bool)
    requires Inv(s) && p in s.accepts && s.accepts[p].pc == PublishSession && s.accepts[p].driver.Some?
    requires t == Retired(s, p, s.accepts[p], ack)
    ensures s.sessions == [] && Inv(t.(sessions := [SessionOf(s.accepts[p].snapshot, s.accepts[p].driver.value)]))
  {
    assert WinnerHolds(s, s.accepts[p]);
    RetiredKeepsInv(s, p, s.accepts[p], ack);
    SessionKeepsInv(t, s.accepts[p].driver.value);
  }

  lemma SessionStep(s: State, p: nat, run: AcceptRun, io: Io)
    requires run.pc == PublishSession && run.driver.Some? && s.sessions == []
    ensures StepAccept(s, p, run, io) ==
            var t := Retired(s, p, run, io.Done?);
            if io.Failed? then t else t.(sessions := [SessionOf(run.snapshot, run.driver.value)])
  {
    assert s.(sessions := s.sessions + []) == s;
  }

  lemma PublishSessionKeepsInv(s: State, p: nat, io: Io)
    requires Inv(s) && p in s.accepts && s.accepts[p].pc == PublishSession
    ensures Inv(StepAccept(s, p, s.accepts[p], io))
  {
    var run := s.accepts[p];
    assert WinnerHolds(s, run);
    SessionStep(s, p, run, io);
    if io.Failed? {
      RetiredKeepsInv(s, p, run, false);
    } else {
      SentSessionKeepsInv(s, Retired(s, p, run, io.Done?), p, io.Done?);
    }
  }

  lemma AcceptKeepsInv(s: State, p: nat, io: Io)
    requires Inv(s) && p in s.accepts
    ensures Inv(StepAccept(s, p, s.accepts[p], io))
  {
    var run := s.accepts[p];
    match run.pc
    case GetTrip =>
      if io.Done? { RestartKeepsAccepts(s, p, run.(pc := Update)); } else { FailAcceptKeepsInv(s, p, run); }
    case Update => UpdateKeepsInv(s, p, io);
    case Reread => RereadKeepsInv(s, p, io);
    case ReserveSeats => ReserveKeepsInv(s, p, io);
    case PublishAssigned => PublishAssignedKeepsInv(s, p, io);
    case PublishSession => PublishSessionKeepsInv(s, p, io);
  }

  lemma RaisesAreIrrelevant(s: State, raises: map<nat, RaiseRun>, fareDoc: Fare)
    requires Inv(s)
    ensures Inv(s.(fareDoc := fareDoc, raises := raises))
  {
  }

  lemma RaiseKeepsInv(s: State, p: nat, io: Io)
    requires Inv(s) && p in s.raises
    ensures Inv(StepRaise(s, p, s.raises[p], io))
  {
    var run := s.raises[p];
    match run.pc
    case Check =>
      RaisesAreIrrelevant(s, s.raises[p := run.(pc := WriteFare)], s.fareDoc);
      RaisesAreIrrelevant(s, s.raises - {p}, s.fareDoc);
    case WriteFare =>
      var doc := if io.Failed? then s.fareDoc else s.fareDoc.(totalCents := run.cents);
      RaisesAreIrrelevant(s, if io.Done? then s.raises[p := run.(pc := WriteTrip)] else s.raises - {p}, doc);
    case WriteTrip =>
      RaisesAreIrrelevant(s, s.raises - {p}, s.fareDoc);
      WriteTripKeepsInv(s, p, run.cents);
  }

  /** A late write changes the trip's total and nothing any delivery relies on. */
  lemma WriteTripKeepsInv(s: State, p: nat, cents: real)
    requires Inv(s)
    ensures Inv(s.(trip := s.trip.(fare := s.trip.fare.(totalCents := cents)),
                   raises := s.raises - {p},
                   lateFares := if s.acceptFare.Some? && s.chargeFare.None? then s.lateFares + [cents] else s.lateFares))
  {
  }

  lemma MovePaidKeepsInv(s: State, p: nat, run: PaidRun)
    requires Inv(s) && s.sessions != [] && run.pc != ReleaseSeats && PaidRunHolds(s.trip, s.released, run)
    ensures Inv(s.(paids := s.paids[p := run]))
  {
  }

  lemma DropPaidKeepsInv(s: State, p: nat)
    requires Inv(s)
    ensures Inv(s.(paids := s.paids - {p}))
  {
  }

  /** The transition to payed: the sessions are out, so no accept delivery is still past its update. */
  lemma PayKeepsInv(s: State, p: nat, run: PaidRun)
    requires Inv(s) && p in s.paids && run == s.paids[p] && s.trip.status != Payed
    ensures var t := s.(trip := SetFields(s.trip, Payed, None));
            Inv(t) && Inv(t.(paids := s.paids[p := run.(pc := ReleaseSeats)]))
  {
    assert s.sessions != [] && s.trip.status == Accepted && s.released == [];
    assert forall q :: q in s.accepts ==> !Won(s.accepts[q]);
    assert forall q :: q in s.paids ==> s.paids[q].pc != ReleaseSeats;
    var t := s.(trip := SetFields(s.trip, Payed, None));
    forall q | q in t.paids ensures PaidRunHolds(t.trip, t.released, t.paids[q]) {
      assert PaidRunHolds(s.trip, s.released, s.paids[q]);
    }
    assert AcceptsHold(t) && EffectsHold(t);
    var u := t.(paids := s.paids[p := run.(pc := ReleaseSeats)]);
    assert PaidsHold(u.trip, u.paids, u.released);
  }

  lemma ReleaseKeepsInv(s: State, p: nat, io: Io)
    requires Inv(s) && p in s.paids && s.paids[p].pc == ReleaseSeats
    ensures Inv(StepPaid(s, p, s.paids[p], io))
  {
    assert PaidRunHolds(s.trip, s.released, s.paids[p]);
  }

  lemma PaidKeepsInv(s: State, p: nat, io: Io)
    requires Inv(s) && p in s.paids
    ensures Inv(StepPaid(s, p, s.paids[p], io))
  {
    var run := s.paids[p];
    assert PaidRunHolds(s.trip, s.released, run);
    match run.pc
    case ReadTrip =>
      MovePaidKeepsInv(s, p, run.(pc := MarkPayed, seen := if io.Done? then Some(s.trip) else None));
    case MarkPayed => MarkPayedKeepsInv(s, p, io);
    case ReleaseSeats => ReleaseKeepsInv(s, p, io);
  }

  lemma FailPaidKeepsInv(s: State, p: nat, run: PaidRun)
    requires Inv(s) && s.sessions != []
    ensures Inv(FailPaid(s, p, run))
  {
    if run.attempt < MAX_RETRIES {
      MovePaidKeepsInv(s, p, PaidRun(run.attempt + 1, ReadTrip, None));
    } else {
      DropPaidKeepsInv(s, p);
    }
  }

  lemma MarkPayedKeepsInv(s: State, p: nat, io: Io)
    requires Inv(s) && p in s.paids && s.paids[p].pc == MarkPayed
    ensures Inv(StepPaid(s, p, s.paids[p], io))
  {
    var run := s.paids[p];
    if !io.Failed? && Modifies(s.trip, Payed, None) {
      PayKeepsInv(s, p, run);
      FailPaidKeepsInv(s.(trip := SetFields(s.trip, Payed, None)), p, run);
    } else {
      FailPaidKeepsInv(s, p, run);
    }
  }

  /** An insert of one of the trip's two rows keeps its postings to the plan. */
  lemma PostKeepsRows(id: string, sessions: seq<SessionCmd>, posts: map<nat, PostRun>, rows: seq<Ledger.Row>, p: nat, io: Io, now: Ledger.Stamp)
    requires PostsHold(id, sessions, posts, rows) && p in posts && !Ledger.Skipped(posts[p].event)
    ensures PostsHold(id, sessions, posts, Ledger.AfterInsert(rows, RowToPost(posts[p], now), io))
    ensures !io.Failed? ==> Ledger.AfterInsert(rows, RowToPost(posts[p], now), io) != []
  {
    var run := posts[p];
    assert PostRunHolds(id, sessions, rows, run);
    var row := RowToPost(run, now);
    if run.pc == PostDebit {
      DoubleEntry.InsertDebitKeepsTripRows(rows, row, PlanOf(sessions[0]));
    } else {
      DoubleEntry.InsertCreditKeepsTripRows(rows, row, PlanOf(sessions[0]));
    }
    var after := Ledger.AfterInsert(rows, row, io);
    forall q | q in posts ensures PostRunHolds(id, sessions, after, posts[q]) {
      assert PostRunHolds(id, sessions, rows, posts[q]);
    }
  }

  lemma MovePostKeepsInv(s: State, p: nat, run: PostRun)
    requires Inv(s) && PostRunHolds(s.id, s.sessions, s.rows, run)
    ensures Inv(s.(posts := s.posts[p := run]))
  {
  }

  lemma DropPostKeepsInv(s: State, p: nat)
    requires Inv(s)
    ensures Inv(s.(posts := s.posts - {p}))
  {
  }

  lemma NewRowsKeepInv(s: State, rows: seq<Ledger.Row>)
    requires Inv(s) && PostsHold(s.id, s.sessions, s.posts, rows)
    ensures Inv(s.(rows := rows))
  {
  }

  lemma InsertedKeepsInv(s: State, p: nat, run: PostRun, io: Io)
    requires Inv(s) && PostRunHolds(s.id, s.sessions, s.rows, run) && (!io.Failed? ==> s.rows != [])
    ensures Inv(if !io.Done? then FailPost(s, p, run)
                else if run.pc == PostDebit && Ledger.HasDriverSide(run.event) then s.(posts := s.posts[p := run.(pc := PostCredit)])
                else s.(posts := s.posts - {p}))
  {
    if !io.Done? && run.attempt < MAX_RETRIES {
      MovePostKeepsInv(s, p, run.(attempt := run.attempt + 1, pc := PostDebit));
    } else if io.Done? && run.pc == PostDebit && Ledger.HasDriverSide(run.event) {
      MovePostKeepsInv(s, p, run.(pc := PostCredit));
    } else {
      DropPostKeepsInv(s, p);
    }
  }

  lemma PostKeepsInv(s: State, p: nat, io: Io, now: Ledger.Stamp)
    requires Inv(s) && p in s.posts
    ensures Inv(StepPost(s, p, s.posts[p], io, now))
  {
    var run := s.posts[p];
    assert PostRunHolds(s.id, s.sessions, s.rows, run);
    if Ledger.Skipped(run.event) {
      DropPostKeepsInv(s, p);
    } else {
      PostKeepsRows(s.id, s.sessions, s.posts, s.rows, p, io, now);
      var t := s.(rows := Ledger.AfterInsert(s.rows, RowToPost(run, now), io));
      NewRowsKeepInv(s, t.rows);
      InsertedKeepsInv(t, p, run, io);
    }
  }

  lemma CheckoutKeepsInv(s: State, cmd: SessionCmd)
    requires Inv(s) && cmd in s.sessions
    ensures Inv(s.(checkouts := s.checkouts + {CheckoutOf(cmd)}))
  {
    assert cmd == s.sessions[0];
  }

  lemma SuccessKeepsInv(s: State, c: Checkout, currency: string, region: string)
    requires Inv(s) && c in s.checkouts
    ensures Inv(s.(success := s.success + {SuccessOf(s.id, c, currency, region)}))
  {
  }

  lemma StartAcceptKeepsInv(s: State, p: nat, driver: Option<TripDriver>)
    requires Inv(s) && p !in s.accepts && driver.Some?
    ensures Inv(s.(accepts := s.accepts[p := AcceptRun(driver, 0, GetTrip, s.trip)]))
  {
    RestartKeepsAccepts(s, p, AcceptRun(driver, 0, GetTrip, s.trip));
  }

  lemma AcceptTrafficKeepsInv(s: State, step: Step)
    requires Inv(s) && Enabled(s, step) && NamesDriver(step) && (step.StartAccept? || step.CrashAccept?)
    ensures Inv(Apply(s, step))
  {
    if step.StartAccept? {
      StartAcceptKeepsInv(s, step.p, step.driver);
    } else {
      DropKeepsInv(s, step.p);
    }
  }

  lemma RaiseTrafficKeepsInv(s: State, step: Step)
    requires Inv(s) && Enabled(s, step) && (step.StartRaise? || step.CrashRaise? || step.EditSeats?)
    ensures Inv(Apply(s, step))
  {
    var t := Apply(s, step);
    RaisesAreIrrelevant(s, t.raises, t.fareDoc);
    assert t == s.(fareDoc := t.fareDoc, raises := t.raises);
  }

  lemma StartPaidKeepsInv(s: State, p: nat)
    requires Inv(s) && s.success != {}
    ensures Inv(s.(paids := s.paids[p := PaidRun(0, ReadTrip, None)]))
  {
    var e :| e in s.success;
    MovePaidKeepsInv(s, p, PaidRun(0, ReadTrip, None));
  }

  lemma StartPostKeepsInv(s: State, p: nat, e: Ledger.Payment)
    requires Inv(s) && e in s.success
    ensures Inv(s.(posts := s.posts[p := PostRun(0, PostDebit, e)]))
  {
    MovePostKeepsInv(s, p, PostRun(0, PostDebit, e));
  }

  lemma StripeKeepsInv(s: State, step: Step)
    requires Inv(s) && Enabled(s, step) && (step.OpenCheckout? || step.StripeWebhook?)
    ensures Inv(Apply(s, step))
  {
    if step.OpenCheckout? {
      CheckoutKeepsInv(s, step.cmd);
    } else {
      SuccessKeepsInv(s, step.checkout, step.currency, step.region);
    }
  }

  lemma PaidTrafficKeepsInv(s: State, step: Step)
    requires Inv(s) && Enabled(s, step) && (step.StartPaid? || step.CrashPaid?)
    ensures Inv(Apply(s, step))
  {
    if step.StartPaid? {
      StartPaidKeepsInv(s, step.p);
    } else {
      DropPaidKeepsInv(s, step.p);
    }
  }

  lemma PostTrafficKeepsInv(s: State, step: Step)
    requires Inv(s) && Enabled(s, step) && (step.StartPost? || step.CrashPost?)
    ensures Inv(Apply(s, step))
  {
    if step.StartPost? {
      StartPostKeepsInv(s, step.p, step.event);
    } else {
      DropPostKeepsInv(s, step.p);
    }
  }

  lemma WorkKeepsInv(s: State, step: Step)
    requires Inv(s) && Enabled(s, step)
    requires step.AcceptStep? || step.RaiseStep? || step.PaidStep? || step.PostStep?
    ensures Inv(Apply(s, step))
  {
    match step
    case AcceptStep(p, io) => AcceptKeepsInv(s, p, io);
    case RaiseStep(p, io) => RaiseKeepsInv(s, p, io);
    case PaidStep(p, io) => PaidKeepsInv(s, p, io);
    case PostStep(p, io, now) => PostKeepsInv(s, p, io, now);
  }

  lemma TrafficKeepsInv(s: State, step: Step)
    requires Inv(s) && Enabled(s, step) && NamesDriver(step)
    requires !step.AcceptStep? && !step.RaiseStep? && !step.PaidStep? && !step.PostStep?
    ensures Inv(Apply(s, step))
  {
    if step.StartAccept? || step.CrashAccept? {
      AcceptTrafficKeepsInv(s, step);
    } else if step.OpenCheckout? || step.StripeWebhook? {
      StripeKeepsInv(s, step);
    } else if step.StartPaid? || step.CrashPaid? {
      PaidTrafficKeepsInv(s, step);
    } else if step.StartPost? || step.CrashPost? {
      PostTrafficKeepsInv(s, step);
    } else {
      RaiseTrafficKeepsInv(s, step);
    }
  }

  /** Every step of the protocol keeps the invariant, provided that accepts name their driver. */
  lemma StepKeepsInv(s: State, step: Step)
    requires Inv(s) && Enabled(s, step) && NamesDriver(step)
    ensures Inv(Apply(s, step))
  {
    if step.AcceptStep? || step.RaiseStep? || step.PaidStep? || step.PostStep? {
      WorkKeepsInv(s, step);
    } else {
      TrafficKeepsInv(s, step);
    }
  }
}
