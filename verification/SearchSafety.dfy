/** What holds of every message and offer over all runs of the driver search. */
module SearchSafety {
  import opened Prelude
  import opened Dispatch
  import opened DriverSearch
  import DriverRegistry
  import Overlap
  import Route
  import Seats
  import TripProtocol
  import TripStore

  // --- Who is offered the trip --------------------------------------------------------------------

  function TriedOf(item: Item): seq<string> {
    match item
    case Queued(msg) => msg.tried
    case Running(msg, _, _) => msg.tried
    case Offered(offer) => offer.payload.tried
    case Declining(tried, _) => tried
  }

  predicate AllDistinct(items: seq<Item>) {
    forall i :: 0 <= i < |items| ==> Distinct(TriedOf(items[i]))
  }

  /** The offer went to an eligible driver of a trip not known to be taken or dearer, and its payload adds that
      driver to the tried list. */
  ghost predicate WellMade(m: Made) {
    && Open(m.msg, m.turn.env.reply) && ExtendsBy(m.msg, m.offer)
    && (m.turn.env.reply == Undecodable
        || (m.turn.env.reply.Answer? && !m.turn.env.reply.hasDriver
            && m.turn.env.reply.status !in {TripStore.Accepted, TripStore.Completed, TripStore.Cancelled}))
    && Eligible(m.turn.view, m.msg.trip.value, m.msg.tried, m.offer.driver)
    && Distinct(m.offer.payload.tried)
  }

  ghost predicate AllWellMade(made: seq<Made>) {
    forall i :: 0 <= i < |made| ==> WellMade(made[i])
  }

  lemma OutcomeIsDistinct(msg: Search, attempt: Try, env: Env, r: Result, retried: bool)
    requires Distinct(msg.tried) && AttemptOk(msg, env, r)
    ensures AllDistinct(Outcome(msg, attempt, r)) && AllDistinct([Queued(msg)] + Sends(r, retried))
  {
  }

  lemma ReplaceDistinct(items: seq<Item>, i: nat, with_: seq<Item>)
    requires i < |items| && AllDistinct(items) && AllDistinct(with_)
    ensures AllDistinct(Replace(items, i, with_))
  {
    var all := Replace(items, i, with_);
    forall k | 0 <= k < |all| ensures Distinct(TriedOf(all[k])) {
      assert all[k] == if k < i then items[k] else if k < i + |with_| then with_[k - i] else items[k - |with_| + 1];
    }
  }

  lemma MadeStaysWell(made: seq<Made>, msg: Search, turn: Turn)
    requires AllWellMade(made) && Distinct(msg.tried)
    ensures AllWellMade(made + OfferMade(Attempt(turn.view, msg, turn.env), msg, turn))
  {
    OfferIsToEligible(turn.view, msg, turn.env);
  }

  lemma StepKeepsOffersWellMade(g: Setting, s: State, step: Step)
    requires Enabled(g, s, step) && AllDistinct(s.items) && AllWellMade(s.made)
    ensures AllDistinct(Apply(g, s, step).items) && AllWellMade(Apply(g, s, step).made)
  {
    match step
    case Raise(cents) =>
    case Publish(k) =>
    case Begin(i) => ReplaceDistinct(s.items, i, [Running(s.items[i].msg, 0, None)]);
    case Read(i, reply) => ReplaceDistinct(s.items, i, [s.items[i].(reply := Some(reply))]);
    case Finish(i, turn) =>
      var msg := s.items[i].msg;
      var r := Attempt(turn.view, msg, turn.env);
      assert Distinct(TriedOf(s.items[i]));
      OfferIsToEligible(turn.view, msg, turn.env);
      OutcomeIsDistinct(msg, s.items[i].attempt, turn.env, r, true);
      ReplaceDistinct(s.items, i, Outcome(msg, s.items[i].attempt, r));
      MadeStaysWell(s.made, msg, turn);
    case Expire(i) => ReplaceDistinct(s.items, i, []);
    case Decline(i) =>
      assert Distinct(TriedOf(s.items[i]));
      ReplaceDistinct(s.items, i, [Declining(s.items[i].offer.payload.tried, 0)]);
    case Respond(i, k, io) =>
      assert Distinct(TriedOf(s.items[i]));
      ReplaceDistinct(s.items, i, Responded(g, s.items[i].tried, s.items[i].attempt, s.fares[k], io));
    case CrashSearch(i, turn, retried) =>
      var msg := s.items[i].msg;
      var r := Attempt(turn.view, msg, turn.env);
      assert Distinct(TriedOf(s.items[i]));
      OfferIsToEligible(turn.view, msg, turn.env);
      OutcomeIsDistinct(msg, s.items[i].attempt, turn.env, r, retried);
      ReplaceDistinct(s.items, i, [Queued(msg)] + Sends(r, retried));
      MadeStaysWell(s.made, msg, turn);
    case CrashDecline(i, k, published) =>
      assert Distinct(TriedOf(s.items[i]));
      ReplaceDistinct(s.items, i, [Declining(s.items[i].tried, 0)]
                                  + if published then [Queued(MessageAt(g, s.fares[k], s.items[i].tried))] else []);
  }

  /** Over every run, through declines, retries and crashes, no tried list repeats a driver and every offer goes
      to an untried driver with room when he was listed and free when he was checked. */
  lemma {:induction false} OffersAreWellMade(g: Setting, s: State, steps: seq<Step>)
    requires ValidRun(g, s, steps) && AllDistinct(s.items) && AllWellMade(s.made)
    ensures AllDistinct(Execute(g, s, steps).items) && AllWellMade(Execute(g, s, steps).made)
    decreases |steps|
  {
    if steps != [] {
      StepKeepsOffersWellMade(g, s, steps[0]);
      OffersAreWellMade(g, Apply(g, s, steps[0]), steps[1..]);
    }
  }

  // --- What is offered ----------------------------------------------------------------------------------

  /** The message is about the trip of this setting: its id, package, seats and route, at a total it has had. */
  predicate AboutTrip(g: Setting, m: Search, fares: seq<real>) {
    && m.trip.Some? && m.trip.value.id == g.id && m.trip.value.route == Some(g.route)
    && m.trip.value.fare.Some?
    && m.trip.value.fare.value.slug == g.trip.fare.slug && m.trip.value.fare.value.seats == g.trip.fare.seats
    && m.trip.value.fare.value.cents in fares
  }

  predicate ItemAboutTrip(g: Setting, item: Item, fares: seq<real>) {
    match item
    case Queued(msg) => AboutTrip(g, msg, fares)
    case Running(msg, _, _) => AboutTrip(g, msg, fares)
    case Offered(offer) => AboutTrip(g, offer.payload, fares)
    case Declining(_, _) => true
  }

  predicate ItemsAboutTrip(g: Setting, items: seq<Item>, fares: seq<real>) {
    forall i :: 0 <= i < |items| ==> ItemAboutTrip(g, items[i], fares)
  }

  /** The driver has no active trip, or the trip is a carpool and one of his has a known route that overlaps it. */
  predicate CanTake(c: Check, id: string, slug: string, route: Route.ProtoRoute) {
    var active := DriverRegistry.ActiveTrips(c.ds, id);
    || active == []
    || (slug == "carpool" && exists i :: 0 <= i < |active| && active[i] in c.routes
                                         && Overlap.Dispatchable(Some(c.routes[active[i]]), Some(route)))
  }

  lemma FreeCanTake(c: Check, t: TripInfo, id: string, route: Route.ProtoRoute)
    requires t.fare.Some? && t.route == Some(route) && Free(c, t, id)
    ensures CanTake(c, id, t.fare.value.slug, route)
  {
  }

  /** The offer is of the trip, and went to a driver who, when the drivers were listed, was registered for its
      package with as many seats free as its fare asks for, one at least, and who could take it when checked. */
  ghost predicate Fits(g: Setting, m: Made, fares: seq<real>) {
    && AboutTrip(g, m.offer.payload, fares) && m.offer.payload == m.msg.(tried := m.msg.tried + [m.offer.driver])
    && (exists d :: d in m.turn.view.listing && d.id == m.offer.driver && d.slug == g.trip.fare.slug
                    && d.available >= (if g.trip.fare.seats < 1 then 1 else g.trip.fare.seats))
    && exists k: nat :: CanTake(CheckAt(m.turn.view, k), m.offer.driver, g.trip.fare.slug, g.route)
  }

  ghost predicate AllFit(g: Setting, made: seq<Made>, fares: seq<real>) {
    forall i :: 0 <= i < |made| ==> Fits(g, made[i], fares)
  }

  lemma ReplaceAboutTrip(g: Setting, items: seq<Item>, i: nat, with_: seq<Item>, fares: seq<real>)
    requires i < |items| && ItemsAboutTrip(g, items, fares) && ItemsAboutTrip(g, with_, fares)
    ensures ItemsAboutTrip(g, Replace(items, i, with_), fares)
  {
    var all := Replace(items, i, with_);
    forall k | 0 <= k < |all| ensures ItemAboutTrip(g, all[k], fares) {
      assert all[k] == if k < i then items[k] else if k < i + |with_| then with_[k - i] else items[k - |with_| + 1];
    }
  }

  /** One attempt on a message about the trip sends messages about the trip, and its offer fits. */
  lemma AttemptFits(g: Setting, msg: Search, attempt: Try, turn: Turn, r: Result, retried: bool, fares: seq<real>)
    requires AboutTrip(g, msg, fares) && r == Attempt(turn.view, msg, turn.env)
    ensures ItemsAboutTrip(g, Outcome(msg, attempt, r), fares) && ItemsAboutTrip(g, [Queued(msg)] + Sends(r, retried), fares)
    ensures AllFit(g, OfferMade(r, msg, turn), fares)
  {
    OfferIsToEligible(turn.view, msg, turn.env);
    if r.offer.Some? {
      assert AboutTrip(g, r.offer.value.payload, fares);
      var t, id := msg.trip.value, r.offer.value.driver;
      EligibleHasRoom(turn.view, t, msg.tried, id);
      var k: nat :| PassesAt(Listed(turn.view, t), k, turn.view, t, id);
      FreeCanTake(CheckAt(turn.view, k), t, id, g.route);
    }
  }

  lemma AttemptKeepsFit(g: Setting, s: State, i: nat, turn: Turn, step: Step)
    requires Enabled(g, s, step) && ItemsAboutTrip(g, s.items, s.fares) && AllFit(g, s.made, s.fares)
    requires step == Finish(i, turn) || step == CrashSearch(i, turn, true) || step == CrashSearch(i, turn, false)
    ensures ItemsAboutTrip(g, Apply(g, s, step).items, s.fares) && AllFit(g, Apply(g, s, step).made, s.fares)
  {
    var run := s.items[i];
    var r := Attempt(turn.view, run.msg, turn.env);
    var retried := if step.Finish? then true else step.retried;
    assert ItemAboutTrip(g, run, s.fares);
    AttemptFits(g, run.msg, run.attempt, turn, r, retried, s.fares);
    ReplaceAboutTrip(g, s.items, i, if step.Finish? then Outcome(run.msg, run.attempt, r) else [Queued(run.msg)] + Sends(r, retried),
                     s.fares);
  }

  lemma MoreFares(g: Setting, s: State, cents: real)
    requires ItemsAboutTrip(g, s.items, s.fares) && AllFit(g, s.made, s.fares)
    ensures ItemsAboutTrip(g, s.items, s.fares + [cents]) && AllFit(g, s.made, s.fares + [cents])
  {
    forall i | 0 <= i < |s.items| ensures ItemAboutTrip(g, s.items[i], s.fares + [cents]) {
      assert ItemAboutTrip(g, s.items[i], s.fares);
    }
    forall i | 0 <= i < |s.made| ensures Fits(g, s.made[i], s.fares + [cents]) {
      assert Fits(g, s.made[i], s.fares);
    }
  }

  lemma StepKeepsFit(g: Setting, s: State, step: Step)
    requires Enabled(g, s, step) && ItemsAboutTrip(g, s.items, s.fares) && AllFit(g, s.made, s.fares)
    ensures var t := Apply(g, s, step); ItemsAboutTrip(g, t.items, t.fares) && AllFit(g, t.made, t.fares)
  {
    match step
    case Raise(cents) => MoreFares(g, s, cents);
    case Publish(k) => assert AboutTrip(g, MessageAt(g, s.fares[k], []), s.fares);
    case Begin(i) =>
      assert ItemAboutTrip(g, s.items[i], s.fares);
      ReplaceAboutTrip(g, s.items, i, [Running(s.items[i].msg, 0, None)], s.fares);
    case Read(i, reply) =>
      assert ItemAboutTrip(g, s.items[i], s.fares);
      ReplaceAboutTrip(g, s.items, i, [s.items[i].(reply := Some(reply))], s.fares);
    case Finish(i, turn) => AttemptKeepsFit(g, s, i, turn, step);
    case Expire(i) => ReplaceAboutTrip(g, s.items, i, [], s.fares);
    case Decline(i) => ReplaceAboutTrip(g, s.items, i, [Declining(s.items[i].offer.payload.tried, 0)], s.fares);
    case Respond(i, k, io) =>
      assert AboutTrip(g, MessageAt(g, s.fares[k], s.items[i].tried), s.fares);
      ReplaceAboutTrip(g, s.items, i, Responded(g, s.items[i].tried, s.items[i].attempt, s.fares[k], io), s.fares);
    case CrashSearch(i, turn, retried) => AttemptKeepsFit(g, s, i, turn, step);
    case CrashDecline(i, k, published) =>
      assert AboutTrip(g, MessageAt(g, s.fares[k], s.items[i].tried), s.fares);
      ReplaceAboutTrip(g, s.items, i, [Declining(s.items[i].tried, 0)]
                                      + if published then [Queued(MessageAt(g, s.fares[k], s.items[i].tried))] else [], s.fares);
  }

  lemma {:induction false} RunsKeepFit(g: Setting, s: State, steps: seq<Step>)
    requires ValidRun(g, s, steps) && ItemsAboutTrip(g, s.items, s.fares) && AllFit(g, s.made, s.fares)
    ensures var t := Execute(g, s, steps); ItemsAboutTrip(g, t.items, t.fares) && AllFit(g, t.made, t.fares)
    decreases |steps|
  {
    if steps != [] {
      StepKeepsFit(g, s, steps[0]);
      RunsKeepFit(g, Apply(g, s, steps[0]), steps[1..]);
    }
  }

  /** Over every run, whatever becomes of the fare's total, all that is sent is about the trip, and every offer
      goes to a driver registered for its package with the seats its fare asks for, who has no active trip or, for
      carpool, one that overlaps. */
  lemma OffersFitTheTrip(g: Setting, cents: real, steps: seq<Step>)
    requires ValidRun(g, Start(cents), steps)
    ensures var s := Execute(g, Start(cents), steps); ItemsAboutTrip(g, s.items, s.fares) && AllFit(g, s.made, s.fares)
  {
    RunsKeepFit(g, Start(cents), steps);
  }

  /** What a search looks for is what an acceptance takes: for a driver of the package, the number of seats the
      trip's reservation asks for can be reserved exactly if he has room for the number in its search message. */
  lemma {:induction false} ReservedAsSearched(ds: seq<Seats.DriverRec>, id: string, t: TripStore.Trip, route: Route.ProtoRoute, tried: seq<string>,
                           call: TripProtocol.SeatCall, d: Seats.DriverRec)
    requires call in TripProtocol.SeatCalls(t)
    requires Seats.Find(ds, call.driver) < |ds| && d == ds[Seats.Find(ds, call.driver)] && d.slug == t.fare.slug
    ensures var asked := ToMessage(id, t, route, tried).trip.value.fare.value;
            Seats.CanReserve(ds, call.driver, call.seats) <==> DriverRegistry.HasRoom(d, asked.slug, asked.seats)
    ensures Seats.CanReserve(ds, call.driver, call.seats) <==> d.available >= (if t.fare.seats < 1 then 1 else t.fare.seats)
  {
  }

  // --- Which fare is offered ------------------------------------------------------------------------

  function CentsOf(m: Search): real {
    if m.trip.Some? && m.trip.value.fare.Some? then m.trip.value.fare.value.cents else 0.0
  }

  function Newest(s: State): real
    requires s.fares != []
  {
    s.fares[|s.fares| - 1]
  }

  /** The message is about the trip, at a total the trip has had that is at most `newest`. */
  predicate Current(g: Setting, m: Search, fares: seq<real>, newest: real) {
    m == MessageAt(g, CentsOf(m), m.tried) && CentsOf(m) in fares && CentsOf(m) <= newest
  }

  predicate FreshItem(g: Setting, item: Item, fares: seq<real>, newest: real) {
    match item
    case Queued(msg) => Current(g, msg, fares, newest)
    case Running(msg, _, reply) =>
      && Current(g, msg, fares, newest)
      && (reply.Some? && FareRead(reply.value).Some? ==> CentsOf(msg) <= FareRead(reply.value).value)
    case Offered(offer) => Current(g, offer.payload, fares, newest)
    case Declining(_, _) => true
  }

  predicate AllFresh(g: Setting, items: seq<Item>, fares: seq<real>, newest: real) {
    forall i :: 0 <= i < |items| ==> FreshItem(g, items[i], fares, newest)
  }

  /** The offer carries exactly the total its own attempt read. */
  predicate CarriesFareRead(m: Made) {
    FareRead(m.turn.env.reply).Some? ==> CentsOf(m.offer.payload) == FareRead(m.turn.env.reply).value
  }

  predicate Tops(fares: seq<real>, newest: real) {
    forall k :: 0 <= k < |fares| ==> fares[k] <= newest
  }

  predicate Fresh(g: Setting, s: State) {
    && s.fares != [] && Tops(s.fares, Newest(s))
    && AllFresh(g, s.items, s.fares, Newest(s))
    && forall i :: 0 <= i < |s.made| ==> CarriesFareRead(s.made[i])
  }

  /** IncreaseTripFare never lowers the total. */
  predicate NeverLowers(g: Setting, s: State, steps: seq<Step>)
    requires ValidRun(g, s, steps)
    decreases |steps|
  {
    steps != [] ==>
      && (steps[0].Raise? ==> s.fares != [] && steps[0].cents >= Newest(s))
      && NeverLowers(g, Apply(g, s, steps[0]), steps[1..])
  }

  lemma MessageIsCurrent(g: Setting, fares: seq<real>, newest: real, k: nat, tried: seq<string>)
    requires k < |fares| && Tops(fares, newest)
    ensures Current(g, MessageAt(g, fares[k], tried), fares, newest)
  {
  }

  /** The outdated-fare check stops a message below the total read; one above it passes. */
  lemma OfferFareIff(v: View, msg: Search, env: Env)
    requires Attempt(v, msg, env).offer.Some? && FareRead(env.reply).Some?
    ensures var offered := CentsOf(Attempt(v, msg, env).offer.value.payload);
            && offered >= FareRead(env.reply).value
            && (offered == FareRead(env.reply).value <==> CentsOf(msg) <= FareRead(env.reply).value)
  {
    OfferIsToEligible(v, msg, env);
  }

  lemma SendsAreFresh(g: Setting, msg: Search, attempt: Try, env: Env, r: Result, retried: bool, fares: seq<real>, newest: real)
    requires Current(g, msg, fares, newest) && AttemptOk(msg, env, r)
    ensures AllFresh(g, Outcome(msg, attempt, r), fares, newest) && AllFresh(g, [Queued(msg)] + Sends(r, retried), fares, newest)
  {
    if r.offer.Some? {
      assert Current(g, r.offer.value.payload, fares, newest);
    }
  }

  lemma ReplaceFresh(g: Setting, items: seq<Item>, i: nat, with_: seq<Item>, fares: seq<real>, newest: real)
    requires i < |items| && AllFresh(g, items, fares, newest) && AllFresh(g, with_, fares, newest)
    ensures AllFresh(g, Replace(items, i, with_), fares, newest)
  {
    var all := Replace(items, i, with_);
    forall k | 0 <= k < |all| ensures FreshItem(g, all[k], fares, newest) {
      assert all[k] == if k < i then items[k] else if k < i + |with_| then with_[k - i] else items[k - |with_| + 1];
    }
  }

  lemma RaiseKeepsFresh(g: Setting, s: State, cents: real)
    requires Fresh(g, s) && cents >= Newest(s)
    ensures Fresh(g, s.(fares := s.fares + [cents]))
  {
    forall i | 0 <= i < |s.items| ensures FreshItem(g, s.items[i], s.fares + [cents], cents) {
      assert FreshItem(g, s.items[i], s.fares, Newest(s));
    }
  }

  lemma AttemptKeepsFresh(g: Setting, s: State, i: nat, turn: Turn, step: Step)
    requires Fresh(g, s) && Enabled(g, s, step)
    requires step == Finish(i, turn) || step == CrashSearch(i, turn, true) || step == CrashSearch(i, turn, false)
    ensures Fresh(g, Apply(g, s, step))
  {
    var run := s.items[i];
    var r := Attempt(turn.view, run.msg, turn.env);
    var retried := if step.Finish? then true else step.retried;
    assert FreshItem(g, run, s.fares, Newest(s));
    OfferIsToEligible(turn.view, run.msg, turn.env);
    SendsAreFresh(g, run.msg, run.attempt, turn.env, r, retried, s.fares, Newest(s));
    ReplaceFresh(g, s.items, i, if step.Finish? then Outcome(run.msg, run.attempt, r) else [Queued(run.msg)] + Sends(r, retried),
                 s.fares, Newest(s));
    if r.offer.Some? && FareRead(turn.env.reply).Some? {
      OfferFareIff(turn.view, run.msg, turn.env);
    }
  }

  lemma StepKeepsFresh(g: Setting, s: State, step: Step)
    requires Fresh(g, s) && Enabled(g, s, step) && (step.Raise? ==> step.cents >= Newest(s))
    ensures Fresh(g, Apply(g, s, step))
  {
    var f, n := s.fares, Newest(s);
    match step
    case Raise(cents) => RaiseKeepsFresh(g, s, cents);
    case Publish(k) => MessageIsCurrent(g, f, n, k, []);
    case Begin(i) =>
      assert FreshItem(g, s.items[i], f, n);
      ReplaceFresh(g, s.items, i, [Running(s.items[i].msg, 0, None)], f, n);
    case Read(i, reply) =>
      assert FreshItem(g, s.items[i], f, n);
      ReplaceFresh(g, s.items, i, [s.items[i].(reply := Some(reply))], f, n);
    case Finish(i, turn) => AttemptKeepsFresh(g, s, i, turn, step);
    case Expire(i) => ReplaceFresh(g, s.items, i, [], f, n);
    case Decline(i) => ReplaceFresh(g, s.items, i, [Declining(s.items[i].offer.payload.tried, 0)], f, n);
    case Respond(i, k, io) =>
      MessageIsCurrent(g, f, n, k, s.items[i].tried);
      ReplaceFresh(g, s.items, i, Responded(g, s.items[i].tried, s.items[i].attempt, f[k], io), f, n);
    case CrashSearch(i, turn, retried) => AttemptKeepsFresh(g, s, i, turn, step);
    case CrashDecline(i, k, published) =>
      MessageIsCurrent(g, f, n, k, s.items[i].tried);
      ReplaceFresh(g, s.items, i, [Declining(s.items[i].tried, 0)]
                                  + if published then [Queued(MessageAt(g, f[k], s.items[i].tried))] else [], f, n);
  }

  /** Over every run in which the fare is never lowered, every message in flight carries a total at most the
      stored one, and every offer carries exactly the total its attempt's status check read. */
  lemma {:induction false} OffersAreFresh(g: Setting, s: State, steps: seq<Step>)
    requires ValidRun(g, s, steps) && Fresh(g, s) && NeverLowers(g, s, steps)
    ensures Fresh(g, Execute(g, s, steps))
    decreases |steps|
  {
    if steps != [] {
      StepKeepsFresh(g, s, steps[0]);
      OffersAreFresh(g, Apply(g, s, steps[0]), steps[1..]);
    }
  }

  // --- A lowered fare --------------------------------------------------------------------------------

  /** The attempt a queued message gets when nothing goes wrong, right after the fare is set to p. */
  function Pursue(i: nat, p: real, turn: Turn): seq<Step> {
    [Raise(p), Begin(i), Read(i, turn.env.reply), Finish(i, turn)]
  }

  ghost predicate CanBeOffered(g: Setting, msg: Search, turn: Turn) {
    !Malformed(msg) && Known(g, turn.view) && turn.env.offerIo.Done?
    && exists id :: Eligible(turn.view, msg.trip.value, msg.tried, id)
  }

  lemma AttemptAtFare(g: Setting, msg: Search, turn: Turn, p: real)
    requires CanBeOffered(g, msg, turn) && turn.env.reply == Answer(TripStore.Pending, false, Some(p))
    ensures var r := Attempt(turn.view, msg, turn.env);
            && (r.offer.Some? <==> p <= CentsOf(msg))
            && (r.offer.Some? ==> CentsOf(r.offer.value.payload) == CentsOf(msg))
  {
    if p <= CentsOf(msg) {
      assert Open(msg, turn.env.reply);
      ExhaustedIffNoneEligible(turn.view, msg, turn.env);
      OfferIsToEligible(turn.view, msg, turn.env);
    }
  }

  /** Setting the fare to p while a message is queued: above the message's total the message is turned away,
      at that total it is offered as read, and below it the offer goes out with the old, higher total. So
      freshness needs every change not to go below any total in flight. */
  lemma SettingTheFareDecides(g: Setting, s: State, i: nat, p: real, turn: Turn)
    requires s.fares != [] && p > 0.0
    requires i < |s.items| && s.items[i].Queued? && CanBeOffered(g, s.items[i].msg, turn)
    requires turn.env.reply == Answer(TripStore.Pending, false, Some(p))
    ensures ValidRun(g, s, Pursue(i, p, turn))
    ensures var msg := s.items[i].msg; var after := Execute(g, s, Pursue(i, p, turn));
            if p > CentsOf(msg) then after.made == s.made
            else |after.made| == |s.made| + 1 && (CarriesFareRead(after.made[|s.made|]) <==> p == CentsOf(msg))
  {
    var msg := s.items[i].msg;
    AttemptAtFare(g, msg, turn, p);
    var s1 := Apply(g, s, Raise(p));
    var s2 := Apply(g, s1, Begin(i));
    assert s2.items[i] == Running(msg, 0, None);
    var s3 := Apply(g, s2, Read(i, turn.env.reply));
    assert s3.items[i] == Running(msg, 0, Some(turn.env.reply));
    var s4 := Apply(g, s3, Finish(i, turn));
    assert s4.made == s.made + OfferMade(Attempt(turn.view, msg, turn.env), msg, turn);
    FourSteps(g, s, Raise(p), Begin(i), Read(i, turn.env.reply), Finish(i, turn));
  }

  lemma FourSteps(g: Setting, s: State, a: Step, b: Step, c: Step, d: Step)
    requires Enabled(g, s, a) && Enabled(g, Apply(g, s, a), b) && Enabled(g, Apply(g, Apply(g, s, a), b), c)
    requires Enabled(g, Apply(g, Apply(g, Apply(g, s, a), b), c), d)
    ensures ValidRun(g, s, [a, b, c, d])
    ensures Execute(g, s, [a, b, c, d]) == Apply(g, Apply(g, Apply(g, Apply(g, s, a), b), c), d)
  {
    var s1 := Apply(g, s, a);
    var s2 := Apply(g, s1, b);
    var s3 := Apply(g, s2, c);
    RunCons(g, s3, d, []);
    RunCons(g, s2, c, [d]);
    RunCons(g, s1, b, [c, d]);
    RunCons(g, s, a, [b, c, d]);
    assert [a] + [b, c, d] == [a, b, c, d] && [b] + [c, d] == [b, c, d] && [c] + [d] == [c, d] && [d] + [] == [d];
  }

  lemma RunCons(g: Setting, s: State, step: Step, rest: seq<Step>)
    requires Enabled(g, s, step) && ValidRun(g, Apply(g, s, step), rest)
    ensures ValidRun(g, s, [step] + rest) && Execute(g, s, [step] + rest) == Execute(g, Apply(g, s, step), rest)
  {
    assert ([step] + rest)[0] == step && ([step] + rest)[1..] == rest;
  }
}
