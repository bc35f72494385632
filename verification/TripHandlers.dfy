/** The trip service's message handlers as they run against the repository, and their refinement of the protocol. */
module TripHandlers {
  import opened Prelude
  import opened TripStore
  import opened TripProtocol
  import Ledger
  import TripSafety

  /** The fate of each remote operation of one attempt at an accept. The reservation RPC's own fate is
      ignored by the handler. */
  datatype AcceptIo = AcceptIo(read: Io, update: Io, reread: Io, reserve: Io, assigned_: Io, session: Io)

  /** A panic ends the process with the message still unacknowledged. */
  datatype Outcome = Ok | Err | Panic

  /** What one attempt does: the trip it leaves, and what it calls and publishes. */
  datatype Effect = Effect(trip: Trip, reserved: seq<SeatCall>, announced: seq<Trip>, sessions: seq<SessionCmd>, outcome: Outcome)

  function IoAt(io: AcceptIo, pc: AcceptPc): Io {
    match pc
    case GetTrip => io.read
    case Update => io.update
    case Reread => io.reread
    case ReserveSeats => io.reserve
    case PublishAssigned => io.assigned_
    case PublishSession => io.session
  }

  function Next(pc: AcceptPc): AcceptPc {
    match pc
    case GetTrip => Update
    case Update => Reread
    case Reread => ReserveSeats
    case ReserveSeats => PublishAssigned
    case PublishAssigned => PublishSession
    case PublishSession => PublishSession
  }

  function Left(pc: AcceptPc): nat {
    match pc
    case GetTrip => 5
    case Update => 4
    case Reread => 3
    case ReserveSeats => 2
    case PublishAssigned => 1
    case PublishSession => 0
  }

  /** Does the attempt go on to the next operation? */
  predicate GoesOn(pc: AcceptPc, t: Trip, driver: Option<TripDriver>, io: AcceptIo) {
    match pc
    case Update => io.update.Done? && Modifies(t, Accepted, driver)
    case ReserveSeats => true
    case PublishSession => false
    case _ => IoAt(io, pc).Done?
  }

  /** The protocol steps an attempt takes from a program point on. */
  function Steps(pc: AcceptPc, t: Trip, driver: Option<TripDriver>, p: nat, io: AcceptIo): seq<Step>
    decreases Left(pc)
  {
    var t' := if pc == Update && !io.update.Failed? then AfterUpdate(t, Accepted, driver) else t;
    [AcceptStep(p, IoAt(io, pc))] + if GoesOn(pc, t, driver, io) then Steps(Next(pc), t', driver, p, io) else []
  }

  /** What the attempt amounts to from a program point on, with `snap` the trip last re-read. */
  function From(pc: AcceptPc, t: Trip, snap: Trip, driver: Option<TripDriver>, io: AcceptIo): Effect
    decreases Left(pc)
  {
    match pc
    case GetTrip => if io.read.Done? then From(Update, t, snap, driver, io) else Effect(t, [], [], [], Err)
    case Update =>
      var t' := if io.update.Failed? then t else AfterUpdate(t, Accepted, driver);
      if GoesOn(Update, t, driver, io) then From(Reread, t', snap, driver, io) else Effect(t', [], [], [], Err)
    case Reread => if io.reread.Done? then From(ReserveSeats, t, t, driver, io) else Effect(t, [], [], [], Err)
    case ReserveSeats =>
      var e := From(PublishAssigned, t, snap, driver, io);
      e.(reserved := (if driver.Some? && driver.value.id != "" then [SeatCall(driver.value.id, SeatsOf(snap))] else []) + e.reserved)
    case PublishAssigned =>
      if io.assigned_.Failed? then Effect(t, [], [], [], Err)
      else if io.assigned_.Unconfirmed? then Effect(t, [], [snap], [], Err)
      else
        var e := From(PublishSession, t, snap, driver, io);
        e.(announced := [snap] + e.announced)
    case PublishSession =>
      if driver.None? then Effect(t, [], [], [], Panic)
      else
        Effect(t, [], [], if io.session.Failed? then [] else [SessionOf(snap, driver.value)], if io.session.Done? then Ok else Err)
  }

  /** One attempt at handleTripAccepted. */
  method HandleTripAccepted(repo: MongoRepository, id: string, driver: Option<TripDriver>, io: AcceptIo)
    returns (outcome: Outcome, reserved: seq<SeatCall>, announced: seq<Trip>, sessions: seq<SessionCmd>)
    modifies repo`trips
    ensures id !in old(repo.trips) ==>
              outcome == Err && repo.trips == old(repo.trips) && reserved == [] && announced == [] && sessions == []
    ensures id in old(repo.trips) ==>
              var e := From(GetTrip, old(repo.trips)[id], old(repo.trips)[id], driver, io);
              && repo.trips == old(repo.trips)[id := e.trip]
              && reserved == e.reserved && announced == e.announced && sessions == e.sessions && outcome == e.outcome
    ensures outcome == Ok <==>
              && id in old(repo.trips) && old(repo.trips)[id].status == Pending && driver.Some?
              && io == AcceptIo(Done, Done, Done, io.reserve, Done, Done)
    ensures outcome == Ok ==>
              var t := old(repo.trips)[id];
              && repo.trips == old(repo.trips)[id := t.(status := Accepted, driver := driver)]
              && reserved == (if driver.value.id == "" then [] else [SeatCall(driver.value.id, if t.fare.seats < 1 then 1 else t.fare.seats)])
              && announced == [t.(status := Accepted, driver := driver)]
              && sessions == [SessionCmd(t.rider, driver.value.id, t.fare.totalCents, t.fare.slug)]
    ensures id in old(repo.trips) && old(repo.trips)[id].status != Pending && driver.Some? ==>
              outcome == Err && repo.trips == old(repo.trips) && reserved == [] && announced == [] && sessions == []
  {
    reserved, announced, sessions := [], [], [];
    var t := repo.GetTripByID(id, io.read);
    if t.None? {
      return Err, reserved, announced, sessions;
    }
    var ok := repo.UpdateTrip(id, Accepted, driver, io.update);
    if !ok {
      return Err, reserved, announced, sessions;
    }
    t := repo.GetTripByID(id, io.reread);
    if t.None? {
      return Err, reserved, announced, sessions;
    }
    var seats := 1;
    if t.value.fare.seats > 0 {
      seats := t.value.fare.seats;
    }
    if driver.Some? && driver.value.id != "" && seats >= 1 {
      reserved := reserved + [SeatCall(driver.value.id, seats)];
    }
    if !io.assigned_.Failed? {
      announced := announced + [t.value];
    }
    if !io.assigned_.Done? {
      return Err, reserved, announced, sessions;
    }
    if driver.None? {
      return Panic, reserved, announced, sessions;
    }
    if !io.session.Failed? {
      sessions := sessions + [SessionCmd(t.value.rider, driver.value.id, t.value.fare.totalCents, t.value.fare.slug)];
    }
    outcome := if io.session.Done? then Ok else Err;
  }

  /** An attempt that succeeds has won a pending trip, and reserved, announced and asked for the session once,
      for the trip as stored with its driver; an attempt that does not win the update has done nothing at all. */
  lemma AttemptWinsOrDoesNothing(t: Trip, driver: Option<TripDriver>, io: AcceptIo)
    requires driver.Some?
    ensures var e := From(GetTrip, t, t, driver, io);
            && (e.outcome == Ok ==>
                  && t.status == Pending && e.trip == SetFields(t, Accepted, driver)
                  && e.reserved == SeatCalls(e.trip) && e.announced == [e.trip] && e.sessions == [SessionOf(e.trip, driver.value)])
            && (t.status != Pending ==> e == Effect(t, [], [], [], Err))
            && (e.trip == t ==> e == Effect(t, [], [], [], Err))
            && (e.trip != t ==>
                  && t.status == Pending && e.trip == SetFields(t, Accepted, driver)
                  && (e.reserved == [] || e.reserved == SeatCalls(e.trip))
                  && (e.announced == [] || e.announced == [e.trip])
                  && (e.sessions == [] || e.sessions == [SessionOf(e.trip, driver.value)]))
            && (t.status == Pending && io == AcceptIo(Done, Done, Done, io.reserve, Done, Done) ==> e.outcome == Ok)
  {
  }

  /** What one delivery of an accept amounts to: attempts until one does not return an error. */
  function Attempts(t: Trip, driver: Option<TripDriver>, ios: seq<AcceptIo>): Effect
    decreases |ios|
  {
    if ios == [] then Effect(t, [], [], [], Err)
    else
      var e := From(GetTrip, t, t, driver, ios[0]);
      if e.outcome != Err then e else Then(e, Attempts(e.trip, driver, ios[1..]))
  }

  function Then(e: Effect, rest: Effect): Effect {
    Effect(rest.trip, e.reserved + rest.reserved, e.announced + rest.announced, e.sessions + rest.sessions, rest.outcome)
  }

  /** After k attempts that returned an error, what they have done and what is left to do make up the whole. */
  ghost predicate Underway(was: map<string, Trip>, now: map<string, Trip>, id: string, driver: Option<TripDriver>,
                           ios: seq<AcceptIo>, k: nat, reserved: seq<SeatCall>, announced: seq<Trip>, sessions: seq<SessionCmd>)
    requires k <= |ios|
  {
    if id !in was then now == was && reserved == [] && announced == [] && sessions == []
    else
      && id in now && now == was[id := now[id]]
      && Attempts(was[id], driver, ios) ==
         Then(Effect(now[id], reserved, announced, sessions, Err), Attempts(now[id], driver, ios[k..]))
  }

  /** The in-process attempts of ConsumeMessages. The delivery is acknowledged if the outcome is Ok, rejected if
      it is Err, and left unsettled by a panic. */
  method DeliverAccept(repo: MongoRepository, id: string, driver: Option<TripDriver>, ios: seq<AcceptIo>)
    returns (outcome: Outcome, reserved: seq<SeatCall>, announced: seq<Trip>, sessions: seq<SessionCmd>)
    requires |ios| == ATTEMPTS
    modifies repo`trips
    ensures id !in old(repo.trips) ==>
              outcome == Err && repo.trips == old(repo.trips) && reserved == [] && announced == [] && sessions == []
    ensures id in old(repo.trips) ==>
              var d := Attempts(old(repo.trips)[id], driver, ios);
              && repo.trips == old(repo.trips)[id := d.trip] && outcome == d.outcome
              && reserved == d.reserved && announced == d.announced && sessions == d.sessions
  {
    reserved, announced, sessions := [], [], [];
    ghost var was := repo.trips;
    FirstAttempt(was, id, driver, ios);
    for attempt := 0 to |ios|
      invariant Underway(was, repo.trips, id, driver, ios, attempt, reserved, announced, sessions)
    {
      ghost var before := repo.trips;
      var r, a, c;
      outcome, r, a, c := HandleTripAccepted(repo, id, driver, ios[attempt]);
      if id in before {
        OneAttemptMore(was, before, id, driver, ios, attempt, reserved, announced, sessions);
      }
      reserved, announced, sessions := reserved + r, announced + a, sessions + c;
      if outcome != Err {
        return;
      }
    }
    outcome := Err;
  }

  lemma FirstAttempt(was: map<string, Trip>, id: string, driver: Option<TripDriver>, ios: seq<AcceptIo>)
    ensures Underway(was, was, id, driver, ios, 0, [], [], [])
  {
    assert ios[0..] == ios;
  }

  lemma OneAttemptMore(was: map<string, Trip>, before: map<string, Trip>, id: string, driver: Option<TripDriver>,
                       ios: seq<AcceptIo>, k: nat, reserved: seq<SeatCall>, announced: seq<Trip>, sessions: seq<SessionCmd>)
    requires k < |ios| && id in before && Underway(was, before, id, driver, ios, k, reserved, announced, sessions)
    ensures var e := From(GetTrip, before[id], before[id], driver, ios[k]);
            var sofar := Then(Effect(before[id], reserved, announced, sessions, Err), e);
            var after := before[id := e.trip];
            && (id in was ==> after == was[id := e.trip])
            && (e.outcome == Err ==> id in was ==>
                  Underway(was, after, id, driver, ios, k + 1, sofar.reserved, sofar.announced, sofar.sessions))
            && (e.outcome != Err ==> id in was ==> Attempts(was[id], driver, ios) == sofar)
  {
    var e := From(GetTrip, before[id], before[id], driver, ios[k]);
    NextAttempt(before[id], driver, ios, k, Effect(before[id], reserved, announced, sessions, Err), e);
  }

  lemma ThenAssociates(a: Effect, b: Effect, c: Effect)
    ensures Then(Then(a, b), c) == Then(a, Then(b, c))
  {
    assert (a.reserved + b.reserved) + c.reserved == a.reserved + (b.reserved + c.reserved);
    assert (a.announced + b.announced) + c.announced == a.announced + (b.announced + c.announced);
    assert (a.sessions + b.sessions) + c.sessions == a.sessions + (b.sessions + c.sessions);
  }

  lemma NextAttempt(t: Trip, driver: Option<TripDriver>, ios: seq<AcceptIo>, k: nat, sofar: Effect, e: Effect)
    requires k < |ios| && e == From(GetTrip, t, t, driver, ios[k])
    ensures Then(sofar, Attempts(t, driver, ios[k..])) ==
            if e.outcome != Err then Then(sofar, e) else Then(Then(sofar, e), Attempts(e.trip, driver, ios[k + 1..]))
  {
    var rest := ios[k..];
    assert rest[0] == ios[k] && rest[1..] == ios[k + 1..];
    ThenAssociates(sofar, e, Attempts(e.trip, driver, ios[k + 1..]));
  }

  /** A whole delivery, over all its attempts, wins a pending trip or does nothing at all; it reserves, announces
      and asks for the session at most once each, for the trip as stored with its driver; and it is
      acknowledged only if it did each exactly once. */
  lemma {:induction false} DeliveryWinsOrDoesNothing(t: Trip, driver: TripDriver, ios: seq<AcceptIo>)
    ensures var d := Attempts(t, Some(driver), ios);
            && (t.status != Pending ==> d == Effect(t, [], [], [], Err))
            && (d.trip == t ==> d == Effect(t, [], [], [], Err))
            && (d.trip != t ==> t.status == Pending && d.trip == SetFields(t, Accepted, Some(driver)))
            && (d.reserved == [] || d.reserved == SeatCalls(d.trip))
            && (d.announced == [] || d.announced == [d.trip])
            && (d.sessions == [] || d.sessions == [SessionOf(d.trip, driver)])
            && (d.outcome == Ok ==>
                  d.trip != t && d.reserved == SeatCalls(d.trip) && d.announced == [d.trip] && d.sessions == [SessionOf(d.trip, driver)])
    decreases |ios|
  {
    if ios != [] {
      var e := From(GetTrip, t, t, Some(driver), ios[0]);
      AttemptWinsOrDoesNothing(t, Some(driver), ios[0]);
      if e.outcome == Err {
        DeliveryWinsOrDoesNothing(e.trip, driver, ios[1..]);
      }
    }
  }

  /** A delivery is tried again after an error: while no attempt has had its update take effect, the first that
      meets no failure wins the pending trip and is acknowledged. */
  lemma {:induction false} DeliveryIsRetried(t: Trip, driver: TripDriver, ios: seq<AcceptIo>, k: nat)
    requires t.status == Pending && k < |ios| && ios[k] == AcceptIo(Done, Done, Done, ios[k].reserve, Done, Done)
    requires forall i :: 0 <= i < k ==> !ios[i].read.Done? || ios[i].update.Failed?
    ensures var d := Attempts(t, Some(driver), ios);
            d.outcome == Ok && d.trip == t.(status := Accepted, driver := Some(driver))
    decreases |ios|
  {
    if k > 0 {
      DeliveryIsRetried(t, driver, ios[1..], k - 1);
    }
  }

  /** An attempt gets the session out exactly if it wins the trip and nothing fails between the update and that
      publish; no other attempt ever will, as the trip is then no longer pending. */
  lemma AttemptSendsSessionIff(t: Trip, driver: TripDriver, io: AcceptIo)
    ensures From(GetTrip, t, t, Some(driver), io).sessions != [] <==>
            && t.status == Pending && io.read.Done? && io.update.Done?
            && io.reread.Done? && io.assigned_.Done? && !io.session.Failed?
  {
  }

  /** One attempt at a payment: its success, the trip it leaves and the seats it releases. */
  datatype PaidEffect = PaidEffect(ok: bool, trip: Trip, released: seq<SeatCall>)

  function PaymentEffect(t: Trip, readIo: Io, updateIo: Io): PaidEffect {
    var ok := updateIo.Done? && t.status != Payed;
    PaidEffect(ok, if updateIo.Failed? then t else t.(status := Payed), if ok && readIo.Done? then SeatCalls(t) else [])
  }

  /** The trip service's payment consumer, one attempt. A failed read does not stop the update, but then no seats
      are released; a trip that is already payed is not modified and its seats are not released again. */
  method HandlePaymentSuccess(repo: MongoRepository, id: string, readIo: Io, updateIo: Io)
    returns (ok: bool, released: seq<SeatCall>)
    modifies repo`trips
    ensures id !in old(repo.trips) ==> !ok && released == [] && repo.trips == old(repo.trips)
    ensures id in old(repo.trips) ==>
              var e := PaymentEffect(old(repo.trips)[id], readIo, updateIo);
              ok == e.ok && released == e.released && repo.trips == old(repo.trips)[id := e.trip]
    ensures ok <==> id in old(repo.trips) && old(repo.trips)[id].status != Payed && updateIo.Done?
    ensures ok ==>
              var t := old(repo.trips)[id];
              && repo.trips == old(repo.trips)[id := t.(status := Payed)]
              && released == if !readIo.Done? || t.driver.None? || t.driver.value.id == "" then []
                             else [SeatCall(t.driver.value.id, if t.fare.seats < 1 then 1 else t.fare.seats)]
    ensures !ok ==> released == []
    ensures id in old(repo.trips) && old(repo.trips)[id].status == Payed ==> !ok && released == [] && repo.trips == old(repo.trips)
  {
    released := [];
    var t := repo.GetTripByID(id, readIo);
    ok := repo.UpdateTrip(id, Payed, None, updateIo);
    if !ok {
      return;
    }
    if t.Some? && t.value.driver.Some? {
      var seats := 1;
      if t.value.fare.seats > 0 {
        seats := t.value.fare.seats;
      }
      if t.value.driver.value.id != "" && seats >= 1 {
        released := [SeatCall(t.value.driver.value.id, seats)];
      }
    }
  }

  function EffectFrom(s: State, p: nat, io: AcceptIo): Effect
    requires p in s.accepts
  {
    From(s.accepts[p].pc, s.trip, s.accepts[p].snapshot, s.accepts[p].driver, io)
  }

  function StepsFrom(s: State, p: nat, io: AcceptIo): seq<Step>
    requires p in s.accepts
  {
    Steps(s.accepts[p].pc, s.trip, s.accepts[p].driver, p, io)
  }

  /** The states differ at most in what an accept delivery works on: the trip, its history of the fare, the
      deliveries, and the calls and messages they send. */
  predicate AcceptOnly(s: State, u: State) {
    u == s.(trip := u.trip, acceptFare := u.acceptFare, chargeFare := u.chargeFare, accepts := u.accepts,
            reserved := u.reserved, announced := u.announced, sessions := u.sessions)
  }

  /** State u is state s after delivery p has had effect e, and nothing else has happened. */
  predicate EndsAs(s: State, p: nat, e: Effect, u: State)
    requires p in s.accepts
  {
    var run := s.accepts[p];
    && AcceptOnly(s, u)
    && u.trip == e.trip && u.reserved == s.reserved + e.reserved
    && u.announced == s.announced + e.announced && u.sessions == s.sessions + e.sessions
    && u.accepts - {p} == s.accepts - {p}
    && if e.outcome == Err && run.attempt < MAX_RETRIES
       then p in u.accepts && u.accepts[p] == AcceptRun(run.driver, run.attempt + 1, GetTrip, u.accepts[p].snapshot)
       else p !in u.accepts
  }

  lemma OthersKept(m: map<nat, AcceptRun>, p: nat, run: AcceptRun)
    ensures m[p := run] - {p} == m - {p} && (m - {p}) - {p} == m - {p} && p !in m - {p}
  {
  }

  lemma FailEndsAs(s: State, p: nat, run: AcceptRun, e: Effect, t: State)
    requires p in s.accepts && run == s.accepts[p] && e.outcome == Err
    requires t.accepts == s.accepts && t.trip == e.trip && t.reserved == s.reserved + e.reserved
    requires t.announced == s.announced + e.announced && t.sessions == s.sessions + e.sessions
    requires AcceptOnly(s, t)
    ensures EndsAs(s, p, e, FailAccept(t, p, run))
  {
    OthersKept(s.accepts, p, run.(attempt := run.attempt + 1, pc := GetTrip));
  }

  lemma LastUpdate(s: State, p: nat, io: Io, e: Effect, aio: AcceptIo)
    requires p in s.accepts && s.accepts[p].pc == Update && io == aio.update
    requires !GoesOn(Update, s.trip, s.accepts[p].driver, aio) && e == EffectFrom(s, p, aio)
    ensures EndsAs(s, p, e, StepAccept(s, p, s.accepts[p], io))
  {
    FailEndsAs(s, p, s.accepts[p], e, if e.trip == s.trip then s else s.(trip := e.trip, acceptFare := Some(s.trip.fare.totalCents)));
  }

  lemma LastSession(s: State, p: nat, e: Effect, io: AcceptIo)
    requires p in s.accepts && s.accepts[p].pc == PublishSession && e == EffectFrom(s, p, io)
    ensures EndsAs(s, p, e, StepAccept(s, p, s.accepts[p], io.session))
  {
    OthersKept(s.accepts, p, s.accepts[p]);
    if e.outcome == Err {
      FailEndsAs(s, p, s.accepts[p], e, s.(sessions := s.sessions + e.sessions));
    }
  }

  lemma LastStep(s: State, p: nat, io: AcceptIo)
    requires p in s.accepts && !GoesOn(s.accepts[p].pc, s.trip, s.accepts[p].driver, io)
    ensures EndsAs(s, p, EffectFrom(s, p, io), StepAccept(s, p, s.accepts[p], IoAt(io, s.accepts[p].pc)))
  {
    var run := s.accepts[p];
    var e := EffectFrom(s, p, io);
    match run.pc
    case GetTrip => FailEndsAs(s, p, run, e, s);
    case Update => LastUpdate(s, p, io.update, e, io);
    case Reread => FailEndsAs(s, p, run, e, s);
    case ReserveSeats =>
    case PublishAssigned => FailEndsAs(s, p, run, e, s.(announced := s.announced + e.announced));
    case PublishSession => LastSession(s, p, e, io);
  }

  lemma MiddleStep(s: State, p: nat, io: AcceptIo)
    requires p in s.accepts && GoesOn(s.accepts[p].pc, s.trip, s.accepts[p].driver, io)
    ensures var t := StepAccept(s, p, s.accepts[p], IoAt(io, s.accepts[p].pc));
            && p in t.accepts && t.accepts - {p} == s.accepts - {p}
            && t.accepts[p] == s.accepts[p].(pc := Next(s.accepts[p].pc), snapshot := t.accepts[p].snapshot)
            && AcceptOnly(s, t)
            && StepsFrom(s, p, io) == [AcceptStep(p, IoAt(io, s.accepts[p].pc))] + StepsFrom(t, p, io)
  {
    var run := s.accepts[p];
    var t := StepAccept(s, p, run, IoAt(io, run.pc));
    match run.pc
    case GetTrip => OthersKept(s.accepts, p, t.accepts[p]);
    case Update => OthersKept(s.accepts, p, t.accepts[p]);
    case Reread => OthersKept(s.accepts, p, t.accepts[p]);
    case ReserveSeats => OthersKept(s.accepts, p, t.accepts[p]);
    case PublishAssigned => OthersKept(s.accepts, p, t.accepts[p]);
    case PublishSession =>
  }

  /** What a step has done and what the rest will do make up the whole effect. */
  predicate AddsUp(s: State, e: Effect, t: State, rest: Effect) {
    && e.trip == rest.trip && e.outcome == rest.outcome && s.reserved + e.reserved == t.reserved + rest.reserved
    && s.announced + e.announced == t.announced + rest.announced
    && s.sessions + e.sessions == t.sessions + rest.sessions
  }

  lemma ReserveAddsUp(s: State, p: nat, io: AcceptIo, t: State)
    requires p in s.accepts && s.accepts[p].pc == ReserveSeats
    requires t == StepAccept(s, p, s.accepts[p], io.reserve) && p in t.accepts
    ensures AddsUp(s, EffectFrom(s, p, io), t, EffectFrom(t, p, io))
  {
    var e, rest := EffectFrom(s, p, io), EffectFrom(t, p, io);
    assert s.reserved + e.reserved == t.reserved + rest.reserved;
  }

  lemma AnnouncementAddsUp(s: State, p: nat, io: AcceptIo, t: State)
    requires p in s.accepts && s.accepts[p].pc == PublishAssigned && io.assigned_.Done?
    requires t == StepAccept(s, p, s.accepts[p], io.assigned_) && p in t.accepts
    ensures AddsUp(s, EffectFrom(s, p, io), t, EffectFrom(t, p, io))
  {
    var e, rest := EffectFrom(s, p, io), EffectFrom(t, p, io);
    assert s.announced + e.announced == t.announced + rest.announced;
  }

  lemma MiddleEffect(s: State, p: nat, io: AcceptIo, t: State)
    requires p in s.accepts && GoesOn(s.accepts[p].pc, s.trip, s.accepts[p].driver, io)
    requires t == StepAccept(s, p, s.accepts[p], IoAt(io, s.accepts[p].pc)) && p in t.accepts
    ensures AddsUp(s, EffectFrom(s, p, io), t, EffectFrom(t, p, io))
  {
    match s.accepts[p].pc
    case GetTrip =>
    case Update =>
    case Reread =>
    case ReserveSeats => ReserveAddsUp(s, p, io, t);
    case PublishAssigned => AnnouncementAddsUp(s, p, io, t);
    case PublishSession =>
  }

  /** Every attempt is a run of the protocol: taking its steps one by one from any state, whatever else is in
      flight there, leads to the trip, calls and messages of the handler, and leaves the rest alone. */
  lemma {:induction false} AttemptRefinesProtocol(s: State, p: nat, io: AcceptIo)
    requires p in s.accepts
    ensures ValidRun(s, StepsFrom(s, p, io))
    ensures EndsAs(s, p, EffectFrom(s, p, io), Execute(s, StepsFrom(s, p, io)))
    decreases Left(s.accepts[p].pc)
  {
    var run := s.accepts[p];
    var steps := StepsFrom(s, p, io);
    var t := StepAccept(s, p, run, IoAt(io, run.pc));
    assert steps[0] == AcceptStep(p, IoAt(io, run.pc)) && Apply(s, steps[0]) == t;
    if GoesOn(run.pc, s.trip, run.driver, io) {
      MiddleStep(s, p, io);
      MiddleEffect(s, p, io, t);
      assert steps[1..] == StepsFrom(t, p, io);
      AttemptRefinesProtocol(t, p, io);
    } else {
      assert steps[1..] == [];
      LastStep(s, p, io);
    }
  }

  // --- The other handlers take the protocol's steps too ---------------------------------------------

  function PaymentSteps(t: Trip, p: nat, readIo: Io, updateIo: Io, releaseIo: Io): seq<Step> {
    [PaidStep(p, readIo), PaidStep(p, updateIo)]
    + if PaymentEffect(t, readIo, updateIo).ok then [PaidStep(p, releaseIo)] else []
  }

  lemma PaidsKept(m: map<nat, PaidRun>, p: nat, run: PaidRun, again: PaidRun)
    ensures m[p := run] - {p} == m - {p} && m[p := run][p := again] == m[p := again] && p !in m - {p}
  {
  }

  lemma PaymentRead(s: State, p: nat, io: Io, s1: State)
    requires p in s.paids && s.paids[p].pc == ReadTrip && s1 == StepPaid(s, p, s.paids[p], io)
    ensures s1 == s.(paids := s.paids[p := PaidRun(s.paids[p].attempt, MarkPayed, if io.Done? then Some(s.trip) else None)])
  {
  }

  lemma PaymentUpdate(s: State, p: nat, io: Io, s2: State)
    requires p in s.paids && s.paids[p].pc == MarkPayed && s2 == StepPaid(s, p, s.paids[p], io)
    ensures var run := s.paids[p]; var ok := io.Done? && s.trip.status != Payed;
            && s2 == s.(trip := if io.Failed? then s.trip else s.trip.(status := Payed), paids := s2.paids)
            && s2.paids == if ok then s.paids[p := run.(pc := ReleaseSeats)]
                           else if run.attempt < MAX_RETRIES then s.paids[p := PaidRun(run.attempt + 1, ReadTrip, None)]
                           else s.paids - {p}
  {
    assert Modifies(s.trip, Payed, None) <==> s.trip.status != Payed;
  }

  lemma ReadThenPay(s: State, p: nat, readIo: Io, updateIo: Io, s1: State, s2: State)
    requires p in s.paids && s.paids[p].pc == ReadTrip
    requires s1 == StepPaid(s, p, s.paids[p], readIo) && p in s1.paids && s2 == StepPaid(s1, p, s1.paids[p], updateIo)
    ensures var e := PaymentEffect(s.trip, readIo, updateIo); var seen := if readIo.Done? then Some(s.trip) else None;
            && s2 == s.(trip := e.trip, paids := s2.paids)
            && s2.paids == if e.ok then s.paids[p := PaidRun(s.paids[p].attempt, ReleaseSeats, seen)]
                           else if s.paids[p].attempt < MAX_RETRIES then s.paids[p := PaidRun(s.paids[p].attempt + 1, ReadTrip, None)]
                           else s.paids - {p}
  {
    PaymentRead(s, p, readIo, s1);
    PaymentUpdate(s1, p, updateIo, s2);
    PaidsKept(s.paids, p, s1.paids[p], PaidRun(s.paids[p].attempt, ReleaseSeats, s1.paids[p].seen));
    PaidsKept(s.paids, p, s1.paids[p], PaidRun(s.paids[p].attempt + 1, ReadTrip, None));
  }

  lemma RunTwo(s: State, a: Step, b: Step)
    requires Enabled(s, a) && Enabled(Apply(s, a), b)
    ensures ValidRun(s, [a, b]) && Execute(s, [a, b]) == Apply(Apply(s, a), b)
  {
    var s1 := Apply(s, a);
    var s2 := Apply(s1, b);
    RunOne(s1, b);
    assert [a, b][1..] == [b];
  }

  lemma RunOne(s: State, a: Step)
    requires Enabled(s, a)
    ensures ValidRun(s, [a]) && Execute(s, [a]) == Apply(s, a)
  {
    assert [a][1..] == [];
  }

  /** Every attempt at a payment is a run of the protocol from any state, with the handler's effect, and leaves
      the rest of the state alone. */
  lemma PaymentRefinesProtocol(s: State, p: nat, readIo: Io, updateIo: Io, releaseIo: Io)
    requires p in s.paids && s.paids[p].pc == ReadTrip
    ensures var steps := PaymentSteps(s.trip, p, readIo, updateIo, releaseIo);
            var e := PaymentEffect(s.trip, readIo, updateIo);
            && ValidRun(s, steps)
            && var u := Execute(s, steps);
               && u == s.(trip := e.trip, released := s.released + e.released, paids := u.paids)
               && u.paids - {p} == s.paids - {p}
               && (p in u.paids <==> !e.ok && s.paids[p].attempt < MAX_RETRIES)
  {
    var e := PaymentEffect(s.trip, readIo, updateIo);
    var s1 := StepPaid(s, p, s.paids[p], readIo);
    PaymentRead(s, p, readIo, s1);
    var s2 := StepPaid(s1, p, s1.paids[p], updateIo);
    ReadThenPay(s, p, readIo, updateIo, s1, s2);
    var two := [PaidStep(p, readIo), PaidStep(p, updateIo)];
    RunTwo(s, two[0], two[1]);
    PaidsKept(s.paids, p, PaidRun(s.paids[p].attempt, ReleaseSeats, if readIo.Done? then Some(s.trip) else None), s.paids[p]);
    PaidsKept(s.paids, p, PaidRun(s.paids[p].attempt + 1, ReadTrip, None), s.paids[p]);
    if e.ok {
      PaidRelease(s2, p, releaseIo);
      TripSafety.Chain(s, two, [PaidStep(p, releaseIo)]);
    } else {
      assert two + [] == two;
      assert s.released + [] == s.released;
    }
  }

  lemma PaidRelease(s: State, p: nat, io: Io)
    requires p in s.paids && s.paids[p].pc == ReleaseSeats
    ensures ValidRun(s, [PaidStep(p, io)])
    ensures var u := Execute(s, [PaidStep(p, io)]); var seen := s.paids[p].seen;
            && u == s.(released := u.released, paids := s.paids - {p})
            && u.released == s.released + if seen.Some? then SeatCalls(seen.value) else []
  {
    RunOne(s, PaidStep(p, io));
    assert s.released + [] == s.released;
  }

  // --- RecordTripPayment ---

  function PostingSteps(e: Ledger.Payment, p: nat, debitIo: Io, creditIo: Io, debit: Ledger.Stamp, credit: Ledger.Stamp): seq<Step> {
    [PostStep(p, debitIo, debit)]
    + if !Ledger.Skipped(e) && debitIo.Done? && Ledger.HasDriverSide(e) then [PostStep(p, creditIo, credit)] else []
  }

  /** The table and success RecordTripPayment promises. */
  predicate Posted(s: State, p: nat, ok: bool, rows: seq<Ledger.Row>, u: State)
    requires p in s.posts
  {
    && u == s.(rows := rows, posts := u.posts) && u.posts - {p} == s.posts - {p}
    && (p in u.posts <==> !ok && s.posts[p].attempt < MAX_RETRIES)
  }

  lemma OtherPostsKept(m: map<nat, PostRun>, p: nat, run: PostRun)
    ensures m[p := run] - {p} == m - {p} && (m - {p}) - {p} == m - {p} && p !in m - {p}
  {
  }

  lemma LastPost(s: State, p: nat, io: Io, now: Ledger.Stamp)
    requires p in s.posts && !Ledger.Skipped(s.posts[p].event)
    requires io.Done? ==> s.posts[p].pc == PostCredit || !Ledger.HasDriverSide(s.posts[p].event)
    ensures Posted(s, p, io.Done?, Ledger.AfterInsert(s.rows, RowToPost(s.posts[p], now), io), StepPost(s, p, s.posts[p], io, now))
  {
    var run := s.posts[p];
    OtherPostsKept(s.posts, p, run.(attempt := run.attempt + 1, pc := PostDebit));
  }

  lemma SkippedPost(s: State, p: nat, io: Io, now: Ledger.Stamp)
    requires p in s.posts && Ledger.Skipped(s.posts[p].event)
    ensures Posted(s, p, true, s.rows, StepPost(s, p, s.posts[p], io, now))
  {
    OtherPostsKept(s.posts, p, s.posts[p]);
  }

  lemma DebitThenCredit(s: State, p: nat, creditIo: Io, debit: Ledger.Stamp, credit: Ledger.Stamp, t: State)
    requires p in s.posts && s.posts[p].pc == PostDebit && !Ledger.Skipped(s.posts[p].event) && Ledger.HasDriverSide(s.posts[p].event)
    requires t == StepPost(s, p, s.posts[p], Done, debit)
    ensures p in t.posts
    ensures Posted(s, p, creditIo.Done?,
                   Ledger.AfterInsert(Ledger.InsertIfAbsent(s.rows, Ledger.DebitRow(s.posts[p].event, debit)),
                                      Ledger.CreditRow(s.posts[p].event, credit), creditIo),
                   StepPost(t, p, t.posts[p], creditIo, credit))
  {
    OtherPostsKept(s.posts, p, s.posts[p].(pc := PostCredit));
    LastPost(t, p, creditIo, credit);
  }

  /** What an attempt at recording the payment of p's delivery is to come to. */
  predicate RecordsAs(s: State, p: nat, debitIo: Io, creditIo: Io, debit: Ledger.Stamp, credit: Ledger.Stamp, u: State)
    requires p in s.posts
  {
    var e := s.posts[p].event;
    Posted(s, p, Ledger.Recorded(e, debitIo, creditIo),
           Ledger.Deliver(s.rows, Ledger.Delivery(e, Ledger.InsertsMade(debitIo, creditIo), debit, credit)), u)
  }

  lemma OneInsertRecords(s: State, p: nat, debitIo: Io, creditIo: Io, debit: Ledger.Stamp, credit: Ledger.Stamp)
    requires p in s.posts && s.posts[p].pc == PostDebit && (!debitIo.Done? || !Ledger.HasDriverSide(s.posts[p].event))
    requires !Ledger.Skipped(s.posts[p].event)
    ensures RecordsAs(s, p, debitIo, creditIo, debit, credit, StepPost(s, p, s.posts[p], debitIo, debit))
  {
    LastPost(s, p, debitIo, debit);
  }

  lemma TwoInsertsRecord(s: State, p: nat, creditIo: Io, debit: Ledger.Stamp, credit: Ledger.Stamp, t: State)
    requires p in s.posts && s.posts[p].pc == PostDebit && !Ledger.Skipped(s.posts[p].event) && Ledger.HasDriverSide(s.posts[p].event)
    requires t == StepPost(s, p, s.posts[p], Done, debit)
    ensures p in t.posts && RecordsAs(s, p, Done, creditIo, debit, credit, StepPost(t, p, t.posts[p], creditIo, credit))
  {
    DebitThenCredit(s, p, creditIo, debit, credit, t);
  }

  /** Every attempt at recording a payment is a run of the protocol from any state, with the rows and success
      RecordTripPayment promises. */
  lemma PostingRefinesProtocol(s: State, p: nat, debitIo: Io, creditIo: Io, debit: Ledger.Stamp, credit: Ledger.Stamp)
    requires p in s.posts && s.posts[p].pc == PostDebit
    ensures var steps := PostingSteps(s.posts[p].event, p, debitIo, creditIo, debit, credit);
            ValidRun(s, steps) && RecordsAs(s, p, debitIo, creditIo, debit, credit, Execute(s, steps))
  {
    var e := s.posts[p].event;
    var first, second := PostStep(p, debitIo, debit), PostStep(p, creditIo, credit);
    RunOne(s, first);
    assert [first] + [] == [first] && [first] + [second] == [first, second];
    if Ledger.Skipped(e) {
      SkippedPost(s, p, debitIo, debit);
    } else if debitIo.Done? && Ledger.HasDriverSide(e) {
      TwoInsertsRecord(s, p, creditIo, debit, credit, Apply(s, first));
      RunTwo(s, first, second);
    } else {
      OneInsertRecords(s, p, debitIo, creditIo, debit, credit);
    }
  }

  // --- IncreaseTripFare ---

  function RaiseSteps(t: Trip, p: nat, io: RaiseIo): seq<Step> {
    if !io.read.Done? || t.status != Pending || t.driver.Some? then [RaiseStep(p, io.read)]
    else if !io.fare.Done? then [RaiseStep(p, io.read), RaiseStep(p, io.fare)]
    else [RaiseStep(p, io.read), RaiseStep(p, io.fare), RaiseStep(p, io.trip)]
  }

  /** The two documents are as promised, the increase is over, and besides them only the history has changed. */
  predicate Raised(s: State, p: nat, e: Raise, u: State) {
    u == s.(trip := e.trip, fareDoc := e.doc, raises := s.raises - {p}, lateFares := u.lateFares)
  }

  lemma RaiseChecked(s: State, p: nat, s1: State)
    requires p in s.raises && s.raises[p].pc == Check && s.trip.status == Pending && s.trip.driver.None?
    requires s1 == StepRaise(s, p, s.raises[p], Done)
    ensures s1 == s.(raises := s.raises[p := s.raises[p].(pc := WriteFare)])
  {
  }

  lemma RaiseFareWritten(s: State, p: nat, io: Io, s1: State, s2: State)
    requires p in s.raises && s.raises[p].pc == Check
    requires s1 == s.(raises := s.raises[p := s.raises[p].(pc := WriteFare)]) && s2 == StepRaise(s1, p, s1.raises[p], io)
    ensures var doc := if io.Failed? then s.fareDoc else s.fareDoc.(totalCents := s.raises[p].cents);
            s2 == s.(fareDoc := doc, raises := if io.Done? then s.raises[p := s.raises[p].(pc := WriteTrip)] else s.raises - {p})
  {
    var run := s.raises[p];
    assert s.raises[p := run.(pc := WriteFare)] - {p} == s.raises - {p};
    assert s.raises[p := run.(pc := WriteFare)][p := run.(pc := WriteTrip)] == s.raises[p := run.(pc := WriteTrip)];
  }

  /** Every call of IncreaseTripFare by the trip's rider at a positive price is a run of the protocol from any
      state, with the effect on the two documents that the method promises; the method itself promises that any
      other call does nothing. */
  lemma RaiseRefinesProtocol(s: State, p: nat, io: RaiseIo)
    requires p in s.raises && s.raises[p].pc == Check && s.raises[p].cents > 0.0
    ensures var steps := RaiseSteps(s.trip, p, io);
            && ValidRun(s, steps)
            && Raised(s, p, RaiseEffect(s.trip, s.fareDoc, s.trip.rider, s.raises[p].cents, io), Execute(s, steps))
  {
    var s1 := StepRaise(s, p, s.raises[p], io.read);
    if !io.read.Done? || s.trip.status != Pending || s.trip.driver.Some? {
      RunOne(s, RaiseStep(p, io.read));
    } else {
      RaiseChecked(s, p, s1);
      var s2 := StepRaise(s1, p, s1.raises[p], io.fare);
      RaiseFareWritten(s, p, io.fare, s1, s2);
      if !io.fare.Done? {
        RunTwo(s, RaiseStep(p, io.read), RaiseStep(p, io.fare));
      } else {
        TripSafety.Run3(s, RaiseStep(p, io.read), RaiseStep(p, io.fare), RaiseStep(p, io.trip));
        assert s.raises[p := s.raises[p].(pc := WriteTrip)] - {p} == s.raises - {p};
      }
    }
  }
}
