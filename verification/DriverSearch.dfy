/** The whole search for a driver of one trip, over every interleaving of published trip events, attempts,
    timed retries, offers, declines, expiries and crashes: it ends, and its offers are eligible and fresh. */
module DriverSearch {
  import opened Prelude
  import opened Dispatch
  import TripStore
  import Route

  /** The attempt a delivery is at. */
  type Try = n: nat | n < ATTEMPTS

  /** Trip.ToProto with a tried list: the payload of every trip event. */
  function ToMessage(id: string, t: TripStore.Trip, route: Route.ProtoRoute, tried: seq<string>): Search {
    Search(Some(TripInfo(id, Some(FareInfo(t.fare.slug, t.fare.totalCents, t.fare.seats)), Some(route))), tried)
  }

  /** One attempt at handleTripDeclined: the trip is read again and republished, with its route in protobuf form
      and the tried list echoed by the driver who declines. */
  method HandleTripDeclined(repo: TripStore.MongoRepository, id: string, tried: seq<string>, readIo: Io, publishIo: Io)
    returns (ok: bool, published: Option<Search>)
    requires id in repo.trips ==> Route.WellFormed(repo.trips[id].fare.route)
    ensures ok <==> id in repo.trips && readIo.Done? && publishIo.Done?
    ensures published.Some? <==> id in repo.trips && readIo.Done? && !publishIo.Failed?
    ensures published.Some? ==>
              exists r :: Route.IsProto(repo.trips[id].fare.route, r) && published.value == ToMessage(id, repo.trips[id], r, tried)
    ensures published.Some? ==>
              var fare := repo.trips[id].fare;
              && published.value.tried == tried && published.value.trip.Some?
              && published.value.trip.value.id == id && published.value.trip.value.route.Some?
              && published.value.trip.value.fare == Some(FareInfo(fare.slug, fare.totalCents, fare.seats))
              && Route.IsProto(fare.route, published.value.trip.value.route.value)
  {
    var t := repo.GetTripByID(id, readIo);
    if t.None? {
      return false, None;
    }
    var route := Route.ToProto(t.value.fare.route);
    ok := publishIo.Done?;
    published := if publishIo.Failed? then None else Some(ToMessage(id, t.value, route, tried));
  }

  // --- The machine ---------------------------------------------------------------------------

  /** What stays fixed: the trip apart from its fare's total, its route in protobuf form, and all driver ids that
      can ever be registered. */
  datatype Setting = Setting(id: string, trip: TripStore.Trip, route: Route.ProtoRoute, ids: set<string>)

  datatype Item =
    | Queued(msg: Search)
    | Running(msg: Search, attempt: Try, reply: Option<StatusReply>)
    | Offered(offer: Offer)
    | Declining(tried: seq<string>, attempt: Try)

  /** An offer that went out, with the message and the surroundings of the attempt that made it. */
  datatype Made = Made(offer: Offer, msg: Search, turn: Turn)

  /** `fares` lists every total the trip has had, newest last; `items` is all that is in flight; `made` all
      offers so far. */
  datatype State = State(fares: seq<real>, items: seq<Item>, made: seq<Made>)

  /** A crash sends the message back; one before the status is read, or before anything is published, is a
      CrashSearch whose turn publishes nothing. */
  datatype Step =
    | Raise(cents: real)                        // IncreaseTripFare's write
    | Publish(k: nat)                           // the trip created, or its fare increased: with a total read before
    | Begin(i: nat)
    | Read(i: nat, reply: StatusReply)
    | Finish(i: nat, turn: Turn)
    | Expire(i: nat)                            // a queued message's time to live, an offer accepted or ignored
    | Decline(i: nat)
    | Respond(i: nat, k: nat, io: Io)           // an attempt at handleTripDeclined; a failed read is a Failed
    | CrashSearch(i: nat, turn: Turn, retried: bool)
    | CrashDecline(i: nat, k: nat, published: bool)

  function MessageAt(g: Setting, cents: real, tried: seq<string>): Search {
    ToMessage(g.id, g.trip.(fare := g.trip.fare.(totalCents := cents)), g.route, tried)
  }

  /** What handleTripDeclined republishes is the machine's message at the total stored when it read the trip. */
  lemma DeclineRepublishes(g: Setting, t: TripStore.Trip, cents: real, r: Route.ProtoRoute, tried: seq<string>)
    requires Route.WellFormed(g.trip.fare.route) && Route.IsProto(g.trip.fare.route, g.route)
    requires t.fare == g.trip.fare.(totalCents := cents) && Route.IsProto(t.fare.route, r)
    ensures ToMessage(g.id, t, r, tried) == MessageAt(g, cents, tried)
  {
    Route.ProtoIsUnique(g.trip.fare.route, r, g.route);
  }

  function FareRead(reply: StatusReply): Option<real> { if reply.Answer? then reply.cents else None }

  predicate Known(g: Setting, v: View) {
    forall k :: 0 <= k < |v.listing| ==> v.listing[k].id in g.ids
  }

  function Replace(items: seq<Item>, i: nat, with_: seq<Item>): seq<Item>
    requires i < |items|
  {
    items[..i] + with_ + items[i + 1..]
  }

  /** What an attempt that returned r leaves in flight: nothing of the message after an ack or the last attempt. */
  function Outcome(msg: Search, attempt: Try, r: Result): seq<Item> {
    Sends(r, true) + if r.error.Some? && attempt + 1 < ATTEMPTS then [Running(msg, attempt + 1, None)] else []
  }

  function Sends(r: Result, retried: bool): seq<Item> {
    (if r.offer.Some? then [Offered(r.offer.value)] else [])
    + if r.retry.Some? && retried then [Queued(r.retry.value)] else []
  }

  function OfferMade(r: Result, msg: Search, turn: Turn): seq<Made> {
    if r.offer.Some? then [Made(r.offer.value, msg, turn)] else []
  }

  function Responded(g: Setting, tried: seq<string>, attempt: Try, cents: real, io: Io): seq<Item> {
    (if io.Failed? then [] else [Queued(MessageAt(g, cents, tried))])
    + if !io.Done? && attempt + 1 < ATTEMPTS then [Declining(tried, attempt + 1)] else []
  }

  /** The surroundings of an attempt, its status reply being the one it read. */
  predicate TurnFits(g: Setting, reply: StatusReply, turn: Turn) {
    Known(g, turn.view) && turn.env.reply == reply
  }

  predicate IsSearch(s: State, i: nat) { i < |s.items| && s.items[i].Running? && s.items[i].reply.Some? }

  predicate IsDecline(s: State, i: nat, k: nat) { i < |s.items| && s.items[i].Declining? && k < |s.fares| }

  predicate Enabled(g: Setting, s: State, step: Step) {
    match step
    case Raise(cents) => cents > 0.0
    case Publish(k) => k < |s.fares|
    case Begin(i) => i < |s.items| && s.items[i].Queued?
    case Read(i, reply) =>
      && i < |s.items| && s.items[i].Running? && s.items[i].reply.None? && s.fares != []
      && (FareRead(reply).Some? ==> FareRead(reply).value == s.fares[|s.fares| - 1])
    case Finish(i, turn) => IsSearch(s, i) && TurnFits(g, s.items[i].reply.value, turn)
    case Expire(i) => i < |s.items| && (s.items[i].Queued? || s.items[i].Offered?)
    case Decline(i) => i < |s.items| && s.items[i].Offered?
    case Respond(i, k, io) => IsDecline(s, i, k)
    case CrashSearch(i, turn, retried) => IsSearch(s, i) && TurnFits(g, s.items[i].reply.value, turn)
    case CrashDecline(i, k, published) => IsDecline(s, i, k)
  }

  function Apply(g: Setting, s: State, step: Step): State
    requires Enabled(g, s, step)
  {
    match step
    case Raise(cents) => s.(fares := s.fares + [cents])
    case Publish(k) => s.(items := s.items + [Queued(MessageAt(g, s.fares[k], []))])
    case Begin(i) => s.(items := Replace(s.items, i, [Running(s.items[i].msg, 0, None)]))
    case Read(i, reply) => s.(items := Replace(s.items, i, [s.items[i].(reply := Some(reply))]))
    case Finish(i, turn) =>
      var run := s.items[i];
      var r := Attempt(turn.view, run.msg, turn.env);
      s.(items := Replace(s.items, i, Outcome(run.msg, run.attempt, r)), made := s.made + OfferMade(r, run.msg, turn))
    case Expire(i) => s.(items := Replace(s.items, i, []))
    case Decline(i) => s.(items := Replace(s.items, i, [Declining(s.items[i].offer.payload.tried, 0)]))
    case Respond(i, k, io) =>
      s.(items := Replace(s.items, i, Responded(g, s.items[i].tried, s.items[i].attempt, s.fares[k], io)))
    case CrashSearch(i, turn, retried) =>
      var run := s.items[i];
      var r := Attempt(turn.view, run.msg, turn.env);
      s.(items := Replace(s.items, i, [Queued(run.msg)] + Sends(r, retried)), made := s.made + OfferMade(r, run.msg, turn))
    case CrashDecline(i, k, published) =>
      s.(items := Replace(s.items, i, [Declining(s.items[i].tried, 0)]
                                      + if published then [Queued(MessageAt(g, s.fares[k], s.items[i].tried))] else []))
  }

  predicate ValidRun(g: Setting, s: State, steps: seq<Step>)
    decreases |steps|
  {
    steps == [] || (Enabled(g, s, steps[0]) && ValidRun(g, Apply(g, s, steps[0]), steps[1..]))
  }

  function Execute(g: Setting, s: State, steps: seq<Step>): State
    requires ValidRun(g, s, steps)
    decreases |steps|
  {
    if steps == [] then s else Execute(g, Apply(g, s, steps[0]), steps[1..])
  }

  function Start(cents: real): State { State([cents], [], []) }

  // --- Termination -------------------------------------------------------------------------------

  function Publishes(steps: seq<Step>): nat {
    if steps == [] then 0 else (if steps[0].Publish? then 1 else 0) + Publishes(steps[1..])
  }

  function Crashes(steps: seq<Step>): nat {
    if steps == [] then 0 else (if steps[0].CrashSearch? || steps[0].CrashDecline? then 1 else 0) + Crashes(steps[1..])
  }

  /** Steps the search takes by itself: all but the rider's and the crashes. */
  function Work(steps: seq<Step>): nat {
    if steps == [] then 0 else Worked(steps[0]) + Work(steps[1..])
  }

  function Worked(step: Step): nat {
    match step
    case Raise(_) => 0
    case Publish(_) => 0
    case CrashSearch(_, _, _) => 0
    case CrashDecline(_, _, _) => 0
    case _ => 1
  }

  function Untried(g: Setting, tried: seq<string>): nat { |g.ids - (set x | x in tried)| }

  /** Most steps a queued message can still cause when n drivers are untried. */
  function SearchCost(n: nat): nat
    decreases n, 1
  {
    4 * AttemptCost(n) + 1
  }

  function AttemptCost(n: nat): (cost: nat)
    ensures cost >= 2
    decreases n, 0
  {
    if n == 0 then 2 else OfferCost(SearchCost(n - 1)) + SearchCost(n - 1) + 2
  }

  /** A declined offer may be republished by each of four attempts. */
  function OfferCost(search: nat): nat { 4 * (search + 1) + 1 }

  /** The cost of the attempts left. */
  function Times(left: nat, cost: nat): (total: nat)
    ensures left >= 1 ==> total >= cost
  {
    if left == 0 then 0 else Times(left - 1, cost) + cost
  }

  function Weight(g: Setting, item: Item): nat {
    match item
    case Queued(msg) => SearchCost(Untried(g, msg.tried))
    case Running(msg, attempt, reply) =>
      Times(ATTEMPTS - attempt, AttemptCost(Untried(g, msg.tried))) - if reply.Some? then 1 else 0
    case Offered(offer) => OfferCost(SearchCost(Untried(g, offer.payload.tried)))
    case Declining(tried, attempt) => Times(ATTEMPTS - attempt, SearchCost(Untried(g, tried)) + 1)
  }

  function Potential(g: Setting, items: seq<Item>): nat {
    if items == [] then 0 else Weight(g, items[0]) + Potential(g, items[1..])
  }

  lemma {:induction false} PotentialConcat(g: Setting, a: seq<Item>, b: seq<Item>)
    ensures Potential(g, a + b) == Potential(g, a) + Potential(g, b)
  {
    if a == [] {
      assert a + b == b;
    } else {
      assert (a + b)[1..] == a[1..] + b;
      PotentialConcat(g, a[1..], b);
    }
  }

  lemma PotentialReplace(g: Setting, items: seq<Item>, i: nat, with_: seq<Item>)
    requires i < |items|
    ensures Potential(g, Replace(items, i, with_)) == Potential(g, items) - Weight(g, items[i]) + Potential(g, with_)
  {
    PotentialConcat(g, items[..i] + with_, items[i + 1..]);
    PotentialConcat(g, items[..i], with_);
    assert items == items[..i] + items[i..];
    PotentialConcat(g, items[..i], items[i..]);
    assert items[i..][1..] == items[i + 1..];
  }

  lemma {:induction false} CostGrows(m: nat, n: nat)
    requires m <= n
    ensures SearchCost(m) <= SearchCost(n)
    decreases n
  {
    if m < n {
      CostGrows(m, n - 1);
    }
  }

  lemma UntriedAtMost(g: Setting, tried: seq<string>)
    ensures Untried(g, tried) <= |g.ids|
  {
    SubsetIsSmaller(g.ids - (set x | x in tried), g.ids);
  }

  lemma UntriedShrinks(g: Setting, msg: Search, o: Offer)
    requires ExtendsBy(msg, o) && o.driver in g.ids
    ensures Untried(g, msg.tried) == Untried(g, o.payload.tried) + 1
  {
    var before := g.ids - (set x | x in msg.tried);
    var after := g.ids - (set x | x in o.payload.tried);
    assert before == after + {o.driver};
  }

  predicate OfferKnown(g: Setting, r: Result) { r.offer.Some? ==> r.offer.value.driver in g.ids }

  /** Every offer goes to a driver of the universe. */
  lemma OfferIsKnown(g: Setting, msg: Search, turn: Turn)
    requires Known(g, turn.view)
    ensures OfferKnown(g, Attempt(turn.view, msg, turn.env))
  {
    OfferIsToEligible(turn.view, msg, turn.env);
    var r := Attempt(turn.view, msg, turn.env);
    if r.offer.Some? {
      EligibleHasRoom(turn.view, msg.trip.value, msg.tried, r.offer.value.driver);
    }
  }

  lemma SendsAreCheap(g: Setting, msg: Search, env: Env, r: Result, retried: bool)
    requires AttemptOk(msg, env, r) && OfferKnown(g, r)
    ensures Potential(g, Sends(r, retried)) + 2 <= AttemptCost(Untried(g, msg.tried))
  {
    if r.offer.Some? {
      UntriedShrinks(g, msg, r.offer.value);
      var first := [Offered(r.offer.value)];
      var second := if r.retry.Some? && retried then [Queued(r.retry.value)] else [];
      PotentialConcat(g, first, second);
      assert Potential(g, first) == Weight(g, first[0]);
    }
  }

  lemma TimesFour(cost: nat)
    ensures Times(ATTEMPTS, cost) == 4 * cost
  {
    assert Times(1, cost) == cost;
    assert Times(2, cost) == 2 * cost;
    assert Times(3, cost) == 3 * cost;
  }

  lemma OneMore(n: nat, cost: nat)
    ensures (n + 1) * cost == n * cost + cost
  {
  }

  lemma FinishLowers(g: Setting, msg: Search, attempt: Try, reply: StatusReply, env: Env, r: Result)
    requires AttemptOk(msg, env, r) && OfferKnown(g, r)
    ensures Potential(g, Outcome(msg, attempt, r)) < Weight(g, Running(msg, attempt, Some(reply)))
  {
    SendsAreCheap(g, msg, env, r, true);
    var cost := AttemptCost(Untried(g, msg.tried));
    if r.error.Some? && attempt + 1 < ATTEMPTS {
      AgainCosts(g, Running(msg, attempt + 1, None), Times(ATTEMPTS - attempt - 1, cost));
      PotentialConcat(g, Sends(r, true), [Running(msg, attempt + 1, None)]);
    } else {
      assert Outcome(msg, attempt, r) == Sends(r, true);
    }
  }

  lemma AgainCosts(g: Setting, item: Item, cost: nat)
    requires Weight(g, item) == cost
    ensures Potential(g, [item]) == cost
  {
  }

  lemma CrashCostsASearch(g: Setting, msg: Search, attempt: Try, reply: StatusReply, env: Env, r: Result, retried: bool)
    requires AttemptOk(msg, env, r) && OfferKnown(g, r)
    ensures Potential(g, [Queued(msg)] + Sends(r, retried))
            <= Weight(g, Running(msg, attempt, Some(reply))) + SearchCost(|g.ids|)
  {
    SendsAreCheap(g, msg, env, r, retried);
    PotentialConcat(g, [Queued(msg)], Sends(r, retried));
    UntriedAtMost(g, msg.tried);
    CostGrows(Untried(g, msg.tried), |g.ids|);
    AgainCosts(g, Queued(msg), SearchCost(Untried(g, msg.tried)));
  }

  lemma RespondLowers(g: Setting, d: Item, cents: real, io: Io)
    requires d.Declining?
    ensures Potential(g, Responded(g, d.tried, d.attempt, cents, io)) < Weight(g, d)
  {
    var cost := SearchCost(Untried(g, d.tried)) + 1;
    var first := if io.Failed? then [] else [Queued(MessageAt(g, cents, d.tried))];
    var again := if !io.Done? && d.attempt + 1 < ATTEMPTS then [Declining(d.tried, d.attempt + 1)] else [];
    PotentialConcat(g, first, again);
    assert Potential(g, first) < cost;
    if again != [] {
      AgainCosts(g, again[0], Times(ATTEMPTS - d.attempt - 1, cost));
    }
  }

  lemma CrashCostsADecline(g: Setting, d: Item, cents: real, published: bool)
    requires d.Declining?
    ensures Potential(g, [Declining(d.tried, 0)] + if published then [Queued(MessageAt(g, cents, d.tried))] else [])
            <= Weight(g, d) + OfferCost(SearchCost(|g.ids|))
  {
    UntriedAtMost(g, d.tried);
    CostGrows(Untried(g, d.tried), |g.ids|);
    TimesFour(SearchCost(Untried(g, d.tried)) + 1);
    AgainCosts(g, Declining(d.tried, 0), 4 * (SearchCost(Untried(g, d.tried)) + 1));
    if published {
      AgainCosts(g, Queued(MessageAt(g, cents, d.tried)), SearchCost(Untried(g, d.tried)));
      PotentialConcat(g, [Declining(d.tried, 0)], [Queued(MessageAt(g, cents, d.tried))]);
    } else {
      assert [Declining(d.tried, 0)] + [] == [Declining(d.tried, 0)];
    }
  }

  /** What a step from outside may add to the steps still to come. */
  function Fed(g: Setting, step: Step): nat {
    if step.Publish? then SearchCost(|g.ids|)
    else if step.CrashSearch? || step.CrashDecline? then OfferCost(SearchCost(|g.ids|))
    else 0
  }

  lemma PublishFeeds(g: Setting, s: State, k: nat)
    requires k < |s.fares|
    ensures Potential(g, Apply(g, s, Publish(k)).items) <= Potential(g, s.items) + SearchCost(|g.ids|)
  {
    var item := Queued(MessageAt(g, s.fares[k], []));
    PotentialConcat(g, s.items, [item]);
    UntriedAtMost(g, []);
    CostGrows(Untried(g, []), |g.ids|);
    AgainCosts(g, item, SearchCost(Untried(g, [])));
  }

  lemma SingleLowers(g: Setting, s: State, i: nat, item: Item)
    requires i < |s.items| && Weight(g, item) < Weight(g, s.items[i])
    ensures Potential(g, Replace(s.items, i, [item])) < Potential(g, s.items)
  {
    PotentialReplace(g, s.items, i, [item]);
    AgainCosts(g, item, Weight(g, item));
  }

  lemma SearchStepPotential(g: Setting, s: State, i: nat, turn: Turn, step: Step)
    requires Enabled(g, s, step) && (step == Finish(i, turn) || step == CrashSearch(i, turn, true) || step == CrashSearch(i, turn, false))
    ensures Potential(g, Apply(g, s, step).items) + Worked(step) <= Potential(g, s.items) + Fed(g, step)
  {
    var run := s.items[i];
    var r := Attempt(turn.view, run.msg, turn.env);
    OfferIsToEligible(turn.view, run.msg, turn.env);
    OfferIsKnown(g, run.msg, turn);
    if step.Finish? {
      PotentialReplace(g, s.items, i, Outcome(run.msg, run.attempt, r));
      FinishLowers(g, run.msg, run.attempt, run.reply.value, turn.env, r);
    } else {
      PotentialReplace(g, s.items, i, [Queued(run.msg)] + Sends(r, step.retried));
      CrashCostsASearch(g, run.msg, run.attempt, run.reply.value, turn.env, r, step.retried);
    }
  }

  /** Every step the search takes by itself lowers the potential; a published trip event or a crash raises it
      by no more than a fixed amount. */
  lemma StepLowersPotential(g: Setting, s: State, step: Step)
    requires Enabled(g, s, step)
    ensures Potential(g, Apply(g, s, step).items) + Worked(step) <= Potential(g, s.items) + Fed(g, step)
  {
    match step
    case Raise(cents) =>
    case Publish(k) => PublishFeeds(g, s, k);
    case Begin(i) =>
      TimesFour(AttemptCost(Untried(g, s.items[i].msg.tried)));
      SingleLowers(g, s, i, Running(s.items[i].msg, 0, None));
    case Read(i, reply) =>
      SingleLowers(g, s, i, s.items[i].(reply := Some(reply)));
    case Finish(i, turn) => SearchStepPotential(g, s, i, turn, step);
    case Expire(i) => PotentialReplace(g, s.items, i, []);
    case Decline(i) =>
      TimesFour(SearchCost(Untried(g, s.items[i].offer.payload.tried)) + 1);
      SingleLowers(g, s, i, Declining(s.items[i].offer.payload.tried, 0));
    case Respond(i, k, io) =>
      PotentialReplace(g, s.items, i, Responded(g, s.items[i].tried, s.items[i].attempt, s.fares[k], io));
      RespondLowers(g, s.items[i], s.fares[k], io);
    case CrashSearch(i, turn, retried) => SearchStepPotential(g, s, i, turn, step);
    case CrashDecline(i, k, published) =>
      PotentialReplace(g, s.items, i, [Declining(s.items[i].tried, 0)]
                                      + if published then [Queued(MessageAt(g, s.fares[k], s.items[i].tried))] else []);
      CrashCostsADecline(g, s.items[i], s.fares[k], published);
  }

  function FedBy(g: Setting, steps: seq<Step>): nat {
    if steps == [] then 0 else Fed(g, steps[0]) + FedBy(g, steps[1..])
  }

  lemma {:induction false} WorkIsFed(g: Setting, s: State, steps: seq<Step>)
    requires ValidRun(g, s, steps)
    ensures Work(steps) + Potential(g, Execute(g, s, steps).items) <= Potential(g, s.items) + FedBy(g, steps)
    decreases |steps|
  {
    if steps != [] {
      StepLowersPotential(g, s, steps[0]);
      WorkIsFed(g, Apply(g, s, steps[0]), steps[1..]);
    }
  }

  /** Most steps that so many published events and crashes can lead to. */
  function Allowance(g: Setting, publishes: nat, crashes: nat): nat {
    SearchCost(|g.ids|) * publishes + OfferCost(SearchCost(|g.ids|)) * crashes
  }

  lemma AllowanceStep(g: Setting, step: Step, publishes: nat, crashes: nat)
    ensures Fed(g, step) + Allowance(g, publishes, crashes)
            == Allowance(g, publishes + (if step.Publish? then 1 else 0),
                         crashes + if step.CrashSearch? || step.CrashDecline? then 1 else 0)
  {
    OneMore(publishes, SearchCost(|g.ids|));
    OneMore(crashes, OfferCost(SearchCost(|g.ids|)));
  }

  lemma {:induction false} FedIsAllowed(g: Setting, steps: seq<Step>)
    ensures FedBy(g, steps) == Allowance(g, Publishes(steps), Crashes(steps))
  {
    if steps != [] {
      FedIsAllowed(g, steps[1..]);
      AllowanceStep(g, steps[0], Publishes(steps[1..]), Crashes(steps[1..]));
    }
  }

  /** The whole search ends, declines and timeouts included: with finitely many driver ids, the number of
      steps it takes is bounded by what is in flight and the numbers of published events and of crashes. */
  lemma SearchTerminates(g: Setting, s: State, steps: seq<Step>)
    requires ValidRun(g, s, steps)
    ensures Work(steps) + Potential(g, Execute(g, s, steps).items)
            <= Potential(g, s.items) + Allowance(g, Publishes(steps), Crashes(steps))
  {
    WorkIsFed(g, s, steps);
    FedIsAllowed(g, steps);
  }

  lemma {:induction false} OffersTakeWork(g: Setting, s: State, steps: seq<Step>)
    requires ValidRun(g, s, steps)
    ensures |Execute(g, s, steps).made| <= |s.made| + Work(steps) + Crashes(steps)
    decreases |steps|
  {
    if steps != [] {
      OffersTakeWork(g, Apply(g, s, steps[0]), steps[1..]);
    }
  }

  /** So a trip's events lead to finitely many offers; without crashes, to at most SearchCost of the number of
      drivers for each event. */
  lemma OffersAreFinite(g: Setting, cents: real, steps: seq<Step>)
    requires ValidRun(g, Start(cents), steps)
    ensures |Execute(g, Start(cents), steps).made| <= Allowance(g, Publishes(steps), Crashes(steps)) + Crashes(steps)
    ensures Crashes(steps) == 0 ==> |Execute(g, Start(cents), steps).made| <= SearchCost(|g.ids|) * Publishes(steps)
  {
    SearchTerminates(g, Start(cents), steps);
    OffersTakeWork(g, Start(cents), steps);
  }
}
