# Ride sharing: trips, dispatch, seats and the finance ledger

A model, in Dafny 4.11, of the stateful core of the ride-sharing backend, with proofs of what it keeps.
`dafny verify dfyconfig.toml` checks everything.

The parts, one module to a file:

- **The life of a trip.** `TripStore` is the Mongo repository with its conditional updates. `TripProtocol` runs one
  trip as a state machine in which every database operation, RPC and publish is a step of its own; any number of
  accept deliveries, fare increases, payment deliveries and ledger postings are in flight at once, each attempt of a
  delivery may fail, succeed unseen (`Io.Unconfirmed`) or crash between any two steps, and a message may be delivered
  again at any time. `TripSafety` holds what is true over all runs, `TripMishaps` the runs in which something is done
  twice or never. `TripHandlers` is the handlers' code as it runs against the repository; the accept and payment
  handlers, `IncreaseTripFare` and `RecordTripPayment` are each proved to take exactly the protocol's steps. `World`
  puts any number of trips together with one driver registry and one ledger table; `SeatAccounts` says when its seat
  accounts are exact.
- **Drivers and seats.** `DriverRegistry` is the in-memory registry with its in-place updates; `Seats` is what it
  computes and why no seat is lost.
- **The search for a driver.** `Dispatch` is one attempt, one delivery and the chain driven by the timer.
  `DriverSearch` is the whole search as a machine over messages, attempts, offers, declines, expiries and crashes, with
  the potential that makes it end; `SearchSafety` is what holds of every offer.
- **The ledger.** `Ledger` records payments idempotently; `Selections` and `DoubleEntry` are sums over the table and
  what every intermediate state satisfies; `RevenueViews` the dashboards; `SqlText` the text of the WHERE clauses and
  `SqlEval` its meaning, read word by word, `LedgerQuery` the builders that write it, `Wildcards` the e-mail filter; `LedgerPaging` the listing, `RowOrders` the
  orders the database may answer in, and `PagingWalk` a client stepping through the pages.
- **Geometry and helpers.** `Route` cuts a polyline into legs, `Overlap` is the carpool check of the dispatcher and of
  the driver app, `Retry` the backoff and the consume loop, `SqlSplit` the schema splitter, `Text` and `Prelude` what
  they share.

An `Io` value stands for the fate of one remote operation: `Done`, `Failed` (no effect, error seen) or `Unconfirmed`
(effect, error seen). Clocks, ids, the random pick and the order of events are parameters or free choices of a run.
Prices and coordinates are real numbers.

Assumptions, each taken where it is needed and visible as a `requires`:

- Every accept names its driver (`NamesDriver`); Stripe charges the amount it is asked for and hands back the metadata.
- A decline carries the tried list of the offer it answers, and an offer is answered at most once; the search of one
  trip meets only driver ids of a finite set.
- Numbers of seats stay below 2^30 in `World`, and fit the 32-bit counter in `Seats`.

What the code does not do, each shown by a concrete input or an exact condition:

- An accept without a driver takes a paid trip back to accepted, after which its seats are released twice
  (`TripMishaps.DriverlessAcceptReleasesTwice`, a run from a new trip).
- An accepted trip whose winner fails, crashes or goes unconfirmed before the session is published never gets a payment
  session (`TripMishaps.SessionCanComeIff`; a run in `TripMishaps.UnconfirmedUpdateLosesTheSession`).
- The seats of a paid trip whose update to `payed` goes unconfirmed, whose read before it fails, or whose process crashes
  after it are never released (`TripMishaps.ReleaseCanComeIff`; a run in
  `TripMishaps.UnconfirmedPaymentWithholdsTheSeats`).
- A trip whose reservation was refused or lost still releases seats when it is paid: a driver who does not carpool can
  then be on two trips at once (`SeatAccounts.RefusedReservationFreesTheCar`; exactly when not,
  `SeatAccounts.AccountsStayExactIff`).
- A fare increase that passes its check before the trip is accepted and is written after it changes the charge
  (`TripSafety.LateRaiseChangesTheCharge`); the exact charge is in `TripSafety.LedgerMatchesTrip`.
- Lowering the fare, which `IncreaseTripFare` allows, sends out offers at the old, higher fare
  (`SearchSafety.SettingTheFareDecides`).
- The registry may change between listing the drivers and checking each, so an offer can go to a driver who was fit at
  neither read (`Dispatch.ReadsApartOfferTheUnfit`). No change can do so exactly if every listed, untried driver was free
  already when listed (`Dispatch.CandidatesAreFitIff`).
- Paging returns every row once exactly if the matches are within (100000 / limit + 1) * limit and no page ends between
  two rows of equal time, which the database may order differently at each request (`PagingWalk.PagingWorksIff`).
- The e-mail filter means "contains" exactly for texts free of `%`, `_` and `\`
  (`Wildcards.EmailFilterIsContainsIff`).
- A large release of seats wraps the 32-bit counter (`Seats.ReleaseOverflowIff`).
- Splitting SQL again after joining drops an empty last statement (`SqlSplit.SplitIsIdempotentIff`).

## Model

| member | source | states |
|---|---|---|
| TripStore.MongoRepository.UpdateTrip | services/trip-service/internal/infrastructure/repository/mongodb.go:56-93 | The whole new collection; success exactly if the database confirms and the document really changed; a driver is set, with the status, on a pending trip only, and a status alone keeps the driver |
| TripStore.MongoRepository.UpdateRideFareSeats | services/trip-service/internal/infrastructure/repository/mongodb.go:162-178 | Changes the fare document alone, never the copy in a trip |
| TripStore.MongoRepository.UpdateTripRideFareTotal | services/trip-service/internal/infrastructure/repository/mongodb.go:144-160 | Changes the total in the trip, whatever its status |
| TripStore.MongoRepository.IncreaseTripFare | services/trip-service/internal/service/service.go:242-276 | For every fate of its four operations both documents afterwards; a trip is returned exactly if its rider asks for a positive price while it is pending without a driver and nothing fails, and for anyone else, no price or a later trip nothing is written |
| TripStore.AcceptIsOrderlyIff | services/trip-service/internal/infrastructure/repository/mongodb.go:75-90 | An accept keeps the lifecycle if and only if it names a driver or the trip is accepted already |
| TripStore.PaymentIsOrderlyIff | services/trip-service/internal/infrastructure/repository/mongodb.go:75-90 | A payment keeps the lifecycle if and only if the trip has been accepted |
| TripStore.AssignmentSucceedsOnce | services/trip-service/internal/infrastructure/repository/mongodb.go:77-90 | Of all drivers' updates on a trip only the one that finds it pending succeeds; the others leave it as it was |
| TripHandlers.HandleTripAccepted | services/trip-service/internal/infrastructure/events/driver_consumer.go:101-167 | The trip afterwards, the reservation, the two publishes and the outcome, for every fate of its six operations; exactly when it succeeds, and then the seats of the fare, one at least, reserved with the driver, and the session in the fare's own fields |
| TripHandlers.DeliverAccept | shared/messaging/rabbitmq.go:83-113 | A whole delivery, with or without a driver: the effect of up to four attempts on one another's results, acknowledged exactly if one succeeds, unsettled after a panic |
| TripHandlers.AttemptWinsOrDoesNothing | services/trip-service/internal/infrastructure/events/driver_consumer.go:111-164 | An attempt wins a pending trip, and then acts for the trip as stored, or leaves no trace at all |
| TripHandlers.DeliveryWinsOrDoesNothing | services/trip-service/internal/infrastructure/events/driver_consumer.go:101-167 | So does a delivery over all its attempts: each effect at most once, each exactly once if acknowledged |
| TripHandlers.DeliveryIsRetried | shared/messaging/rabbitmq.go:83-113 | While no attempt has written anything, the first of the four that meets no failure wins the pending trip and is acknowledged |
| TripHandlers.HandlePaymentSuccess | services/trip-service/internal/infrastructure/events/payment_consumer.go:48-70 | Exactly when a payment succeeds; it then releases the seats of the trip's fare, one at least, from its driver, if the trip could be read; on a paid trip it changes nothing |
| TripHandlers.AttemptSendsSessionIff | services/trip-service/internal/infrastructure/events/driver_consumer.go:111-164 | An attempt gets the payment session out if and only if it wins the trip and nothing fails from its update to that publish |
| TripHandlers.AttemptRefinesProtocol | services/trip-service/internal/infrastructure/events/driver_consumer.go:101-167 | From any state, with anything else in flight, the handler's attempt is a run of the protocol's steps, ends where they end and leaves the rest of the state alone |
| TripHandlers.PaymentRefinesProtocol | services/trip-service/internal/infrastructure/events/payment_consumer.go:48-70 | So is an attempt at a payment |
| TripHandlers.PostingRefinesProtocol | services/platform-service/internal/infrastructure/repository/postgres_ledger.go:70-102 | So is an attempt at recording a payment, with the rows and success RecordTripPayment promises |
| TripHandlers.RaiseRefinesProtocol | services/trip-service/internal/service/service.go:242-276 | So is a fare increase by the trip's rider, with the documents IncreaseTripFare promises |
| TripProtocol.StepKeepsInv | services/trip-service/internal/infrastructure/events/driver_consumer.go:101-167 | Every step of every delivery keeps the invariant of the protocol |
| TripSafety.AtMostOnce | services/trip-service/internal/infrastructure/events/driver_consumer.go:101-167 | Over every run: one reservation, one announcement, one session, one release at most, all for the stored driver, and as many seats released as reserved |
| TripSafety.EffectsCarryTheFare | services/trip-service/internal/infrastructure/events/driver_consumer.go:120-161 | Over every run every reservation and release is for the stored driver and the seats of the fare the trip was created with, one at least, whatever happens to the fare document; nobody is announced without it; the session names that rider, driver, package and the last fare written before the winner's re-read |
| TripSafety.RunsMoveForward | services/trip-service/internal/infrastructure/repository/mongodb.go:56-93 | Over every run the status only moves pending, accepted, payed, a driver once set never changes, and no effect is taken back |
| TripSafety.LedgerMatchesTrip | services/payment-service/internal/events/trip_consumer.go:56-64 | Every ledger row of a trip is its rider's debit or its stored driver's credit under its package, one of each at most, both for the whole cents of the last fare written before the winner's re-read |
| TripSafety.AtomicRaisesChargeTheAcceptedFare | services/trip-service/internal/infrastructure/events/driver_consumer.go:120-151 | With atomic fare increases both amounts are the floor of the fare stored at acceptance |
| TripSafety.LateRaiseChangesTheCharge | services/trip-service/internal/service/service.go:256-273 | A run in which an increase checked before the accept and written after it sets the charge |
| TripMishaps.DriverlessAcceptReleasesTwice | services/trip-service/internal/infrastructure/repository/mongodb.go:77-82 | A run from a new trip, with one driverless accept, in which the driver's seats are released twice |
| TripMishaps.SessionCanComeIff | services/trip-service/internal/infrastructure/events/driver_consumer.go:111-164 | An accepted trip without a session can still get one if and only if the delivery that won it is still in flight |
| TripMishaps.UnconfirmedUpdateLosesTheSession | services/trip-service/internal/infrastructure/events/driver_consumer.go:111-114 | A run from a new trip after which it is accepted and no session can come |
| TripMishaps.ReleaseCanComeIff | services/trip-service/internal/infrastructure/events/payment_consumer.go:48-68 | A paid trip's seats can still be released if and only if a payment delivery that read it with its driver and wrote payed is still in flight |
| TripMishaps.UnconfirmedPaymentWithholdsTheSeats | services/trip-service/internal/infrastructure/events/payment_consumer.go:53-60 | A run from a new trip to a paid one whose reserved seats can never be released |
| DriverRegistry.Driver.AppendTrip | services/driver-service/service.go:141 | Appends in place or into a larger array; the list gains the trip at its end |
| DriverRegistry.Driver.DropTrip | services/driver-service/service.go:167-173 | In-place compaction leaves the other trips, in order |
| DriverRegistry.Service.RegisterDriver | services/driver-service/service.go:73-105 | The registry gains one entry: the capacity asked for, else four for carpool and one otherwise, all free |
| DriverRegistry.Service.UnregisterDriver | services/driver-service/service.go:107-117 | The first entry under the id goes, the others stay in order |
| DriverRegistry.Service.NotifyTripAccepted | services/driver-service/service.go:119-143 | Succeeds exactly if the driver is known and has the seats; the new registry |
| DriverRegistry.Service.NotifyTripCompleted | services/driver-service/service.go:145-175 | Succeeds exactly if the driver is known; the new registry, member or not |
| DriverRegistry.Service.GetDriverActiveTrips | services/driver-service/service.go:177-187 | The trips of the first registration under the id |
| DriverRegistry.Service.FindAvailableDrivers | services/driver-service/service.go:41-71 | The list of ids, in order, of the registrations with the package and the seats |
| DriverRegistry.AvailableDriversMeans | services/driver-service/service.go:55-68 | An id is listed if and only if some registration under it has the package and the seats |
| DriverRegistry.AvailableInOrder | services/driver-service/service.go:55-68 | Listed in the order of registration, each as often as a registration under it fits |
| Seats.WithoutMeans | services/driver-service/service.go:167-173 | What is left after a completion is every other trip |
| Seats.WithoutOfConcat | services/driver-service/service.go:167-173 | And the others stay in order |
| Seats.AcceptedInFields | services/driver-service/service.go:119-143 | In the fields of the entry found: granted exactly if the seats asked for, one at least, are free; a carpool driver gives just those, any other all he has |
| Seats.CompletedInFields | services/driver-service/service.go:145-175 | In the fields of the entry found: the trip goes, the seats come back up to the capacity, with the 32-bit sum when it overflows |
| Seats.UnregisteredDropsTheFirst | services/driver-service/service.go:107-117 | Unregistering drops the first entry under the id and no other; all others stay in order |
| Seats.ReserveConserves | services/driver-service/service.go:131-141 | A reservation keeps seats conserved, and exact accounts exact |
| Seats.ReleaseConserves | services/driver-service/service.go:158-173 | A release of any trip keeps seats conserved; it keeps them exact if and only if the driver is on the trip or idle, and then the clamp cuts nothing |
| Seats.ReleaseOverflowIff | services/driver-service/service.go:161-164 | The counter stays non-negative if and only if the sum fits 32 bits |
| Seats.SeatsAreConserved | services/driver-service/service.go:119-175 | Over every orderly history, free seats and seats of active trips make up a carpool driver's capacity at least |
| Seats.SeatsAreExact | services/driver-service/service.go:119-175 | If completions name active trips they make it up exactly, and a driver who does not carpool never has two trips |
| World.HistoryKeepsWInv | services/trip-service/internal/infrastructure/driverclient/client.go:53-79 | Over every history of many trips, one registry and one table: protocol, seats and ledger stay consistent with one another |
| World.NoSeatIsEverLost | services/driver-service/service.go:119-175 | In every such history no seat of a carpool driver is lost, and an idle one has all free: the protocol supplies what the seat lemmas ask of their callers |
| World.SeatsAreHeldByTheWinner | services/trip-service/internal/infrastructure/events/driver_consumer.go:129-131 | A trip is on one registration at most, under its stored driver's id |
| SeatAccounts.AccountsStayExactIff | services/driver-service/service.go:119-175 | Over every such history seat accounts stay exact, and no exclusive driver is on two trips, if and only if every trip whose seats are released is then on the registration the release finds |
| SeatAccounts.RefusedReservationFreesTheCar | services/driver-service/service.go:131-160 | A history in which they do not: a refused reservation's payment frees a sedan on a trip, and a third trip joins it |
| World.LedgerIsInDoubleEntry | services/platform-service/internal/infrastructure/repository/postgres_ledger.go:70-102 | In every such history credits never exceed debits, nets add up to minus the open debits, and trip counts add up |
| Dispatch.CheckDriverOverlap | services/driver-service/trip_consumer.go:144-173 | True if and only if the driver is idle or one fetched active route overlaps |
| Dispatch.FindCandidates | services/driver-service/trip_consumer.go:210-237 | The candidate list, in order, for whatever the registry holds when it is listed and at each later check |
| Dispatch.CandidatesAreTheEligible | services/driver-service/trip_consumer.go:214-237 | A driver is a candidate if and only if he is untried, had the package and the seats when listed, and met the overlap or idle rule when checked |
| Dispatch.SuitableInOrder | services/driver-service/trip_consumer.go:216-237 | Those that pass come in the order they were listed |
| Dispatch.SteadyEligible | services/driver-service/service.go:46-47 | If the registry stays as it is during the attempt, that is room and freedom at one moment |
| Dispatch.CandidatesAreFitIff | services/driver-service/trip_consumer.go:214-237 | Whatever changes between the reads, every candidate was fit at one of his two if and only if every listed, untried driver was free when listed |
| Dispatch.ReadsApartOfferTheUnfit | services/driver-service/service.go:177-180 | A change, with real routes, that makes a driver a candidate who was fit at neither read: between them he is given a trip along the very route asked for, which fills his seats |
| Dispatch.RoutesApart | services/driver-service/trip_consumer.go:77-127 | Routes for it: a stored route and another that does not overlap its protobuf form |
| Dispatch.HandleFindAndNotifyDrivers | services/driver-service/trip_consumer.go:175-278 | Error, offer and retry of one attempt for every status reply, every state of the registry at each of its reads, every pick and fate of the publishes; nothing at all for a trip that has a driver, is accepted, completed or cancelled, or whose status cannot be had |
| Dispatch.NothingIsSentUnlessOpen | services/driver-service/trip_consumer.go:175-206 | In the reply's own fields: when a message is dropped in silence, exactly when it is turned away as outdated, and that no offer goes out in either case |
| Dispatch.ExhaustedIffNoneEligible | services/driver-service/trip_consumer.go:241-243 | The search is exhausted if and only if the trip is open and nobody is eligible |
| Dispatch.OfferedIff | services/driver-service/trip_consumer.go:241-275 | An offer goes out if and only if the trip is open, someone is eligible and the publish takes effect; exactly when a retry follows |
| Dispatch.EveryEligibleCanBePicked | services/driver-service/trip_consumer.go:246-247 | For every eligible driver there is a pick that offers to exactly that driver |
| Dispatch.OfferIsToEligible | services/driver-service/trip_consumer.go:246-275 | An offer goes to an eligible driver and adds just that driver to the tried list; a retry carries the same list |
| Dispatch.DeliverBounds | shared/retry/retry.go:33-55 | One delivery makes a single offer below the limit of twelve and up to one per attempt at it |
| Dispatch.TimerChainBounds | services/driver-service/trip_consumer.go:266-275 | A chain driven by the timer never repeats a driver, and its retries and offers are bounded by the hops left |
| Dispatch.TimerChainReachesBounds | services/driver-service/trip_consumer.go:266-275 | The bounds are met |
| Dispatch.FreshChainBounds | services/driver-service/trip_consumer.go:266-275 | For a fresh message that is at most 11 retries and at most 15 offers |
| Dispatch.FreshChainReachesBounds | services/driver-service/trip_consumer.go:266-275 | And with enough drivers exactly 11 and 15 |
| Dispatch.TwelveIdleDriversAreAbundant | services/driver-service/trip_consumer.go:214-237 | Twelve idle drivers with the seats are enough to meet them |
| DriverSearch.HandleTripDeclined | services/trip-service/internal/infrastructure/events/driver_consumer.go:70-99 | What a decline republishes: the trip as stored now, its own route in protobuf form, and the tried list it came with |
| DriverSearch.DeclineRepublishes | services/trip-service/internal/domain/trip.go:43-52 | That is the search's message at the total stored when the trip was read |
| DriverSearch.StepLowersPotential | services/driver-service/trip_consumer.go:216-278 | Every step of the search lowers a potential weighted by the untried drivers; a published event or a crash raises it by a fixed amount at most |
| DriverSearch.SearchTerminates | services/driver-service/trip_consumer.go:175-278 | Over every run, with declines, timeouts, unconfirmed publishes and redeliveries, the search takes boundedly many steps for each event and crash |
| DriverSearch.OffersAreFinite | services/driver-service/trip_consumer.go:253-275 | So a trip's events lead to finitely many offers, with the bound |
| SearchSafety.OffersAreWellMade | services/driver-service/trip_consumer.go:214-263 | Over every run of the search no tried list repeats a driver, and every offer goes to an untried driver with room when listed and free when checked, of a trip whose status could not be decoded or was read as neither taken, completed nor cancelled |
| SearchSafety.OffersFitTheTrip | services/driver-service/trip_consumer.go:207-263 | Over every run all that is sent is about the trip, and every offer goes to a driver registered for its package with as many seats free as its fare asks for, who has no active trip or, for carpool, one along an overlapping route |
| SearchSafety.ReservedAsSearched | services/trip-service/internal/infrastructure/events/driver_consumer.go:121-131 | For a driver of the package the number of seats an acceptance reserves can be had exactly if he has room for the number in the search message |
| SearchSafety.OffersAreFresh | services/driver-service/trip_consumer.go:196-199 | If the fare is never lowered, every message in flight carries a total the trip has had, at most the stored one, and every offer carries exactly the total its attempt read |
| SearchSafety.OfferFareIff | services/driver-service/trip_consumer.go:196-199 | An offer is never below the total read, and equals it if and only if the message's was not above it |
| SearchSafety.SettingTheFareDecides | services/trip-service/internal/service/service.go:242-276 | After the fare is set to p a queued message is turned away above its total, offered at p exactly at it, and offered at its stale total below it |
| Ledger.PostgresLedger.RecordTripPayment | services/platform-service/internal/infrastructure/repository/postgres_ledger.go:70-102 | The new table for every fate of the two inserts, and success exactly if nothing was left undone; every row it adds, column by column, is the rider's debit or the driver's credit of this payment, and after a success both are there |
| Ledger.ReplayEntries | services/platform-service/internal/infrastructure/repository/postgres_ledger.go:85-101 | After any history the table holds exactly the postings reached, however often delivered |
| Ledger.DeliveriesConverge | services/platform-service/internal/infrastructure/repository/postgres_ledger.go:85-101 | Any order, duplication and crashes between the inserts lead to the same postings (trip, user, kind, amount) once every event has run through |
| Ledger.RowsConverge | services/platform-service/internal/infrastructure/repository/postgres_ledger.go:75-101 | If a trip's events also agree on currency, region and package, the tables agree in every column but ids and times |
| Ledger.OrderIrrelevantIffCompatible | services/platform-service/internal/infrastructure/repository/postgres_ledger.go:85-101 | Two events commute if and only if they agree on every key they share |
| Ledger.ReplayKeepsUniqueKeys | infra/sql/001_schema.sql:71 | The unique index is never violated |
| DoubleEntry.DeliverFollowsPlans | services/platform-service/internal/infrastructure/repository/postgres_ledger.go:90-101 | A delivery, wherever it crashes, leaves each trip with nothing, its debit, or its debit and credit; a complete one leaves both sides |
| DoubleEntry.InsertIsPerTrip | services/platform-service/internal/infrastructure/repository/postgres_ledger.go:85-89 | An insert acts on its own trip's rows as on a table of their own |
| DoubleEntry.ReplayFollowsPlans | services/platform-service/internal/infrastructure/repository/postgres_ledger.go:70-102 | So after every history of consistent events |
| DoubleEntry.CreditsNeverExceedDebits | services/platform-service/internal/infrastructure/repository/postgres_ledger.go:90-101 | In every intermediate state credits of a trip never exceed its debits, and equal them exactly if it is credited or not posted |
| DoubleEntry.NetsSumToOpenDebits | services/platform-service/internal/infrastructure/repository/postgres_ledger.go:268-277 | The users' dashboard nets add up to minus the debits of trips without a credited driver, half-done events included |
| RevenueViews.GroupsAddUp | services/platform-service/internal/infrastructure/repository/postgres_ledger.go:137-141 | Any GROUP BY of the selected rows adds up to the ungrouped sum and count |
| RevenueViews.RevenueViewsAgree | services/platform-service/internal/infrastructure/repository/postgres_ledger.go:127-188 | Total, trend buckets, regions and packages show the same revenue for every table and range |
| RevenueViews.TripCountsAddUpIff | services/platform-service/internal/infrastructure/repository/postgres_ledger.go:184-188 | The packages' trip counts add up to the debit rows if and only if no trip has two debits in one package |
| RevenueViews.TripCountsAddUp | services/platform-service/internal/infrastructure/repository/postgres_ledger.go:184-188 | They do in every ledger with one rider, driver and amount for each trip |
| RevenueViews.PaymentIsRevenueOnce | services/platform-service/internal/infrastructure/repository/postgres_ledger.go:70-188 | Recording a new trip's payment adds its amount once to the revenue of its own region and of its own package, and to no other |
| RevenueViews.PaymentMovesMoneyOnce | services/platform-service/internal/infrastructure/repository/postgres_ledger.go:268-277 | And once to its rider's expense and its driver's income, and to nobody else's |
| RevenueViews.FirstPaymentIsAllTheRevenue | services/platform-service/internal/infrastructure/repository/postgres_ledger.go:70-188 | In an empty table it is all the revenue of its region and package, and the two nets |
| RevenueViews.CategoryInsights | services/platform-service/internal/infrastructure/repository/postgres_ledger.go:179-252 | Each package with its own revenue, trips, riders and credited drivers, zero where no driver was credited |
| LedgerQuery.BuildLedgerListWhere | services/platform-service/internal/infrastructure/repository/postgres_ledger.go:320-348 | The text of the WHERE clause: read word by word under the arguments (columns, operators, constants, placeholders), it selects exactly the rows meeting all filters given; its placeholders are 1..n in order, one for each argument |
| LedgerQuery.AppendCreatedRange | services/platform-service/internal/infrastructure/repository/postgres_ledger.go:33-43 | The text appended, read word by word, selects exactly the rows within the date range; it narrows any query to it and changes nothing else in it |
| LedgerQuery.TextMeans | services/platform-service/internal/infrastructure/repository/postgres_ledger.go:320-348 | The text of any list of conditions, read word by word, says that they all hold |
| SqlText.TextIsUnambiguous | services/platform-service/internal/infrastructure/repository/postgres_ledger.go:320-348 | A text states one list of conditions and placeholders only |
| LedgerQuery.MoreArgsSameMeaning | services/platform-service/internal/infrastructure/repository/postgres_ledger.go:376-384 | Conditions keep their meaning when arguments are appended |
| Wildcards.EmailFilterIsContainsIff | services/platform-service/internal/infrastructure/repository/postgres_ledger.go:331-334 | The filter is "contains", letter case aside, if and only if the text is free of wildcards |
| Wildcards.WildcardMatchesMore | services/platform-service/internal/infrastructure/repository/postgres_ledger.go:331-334 | Every text with a wildcard selects some non-empty e-mail that does not contain it |
| LedgerPaging.BuildQueries | services/platform-service/internal/infrastructure/repository/postgres_ledger.go:364-384 | The count and page queries: offset and limit are placeholders n+1 and n+2, bound to the clamped values, and the filters' text means the same in both |
| LedgerPaging.ListLedger | services/platform-service/internal/infrastructure/repository/postgres_ledger.go:350-405 | The page is the clamped window of the matching rows in some newest-first order, with the total and whether more follow |
| LedgerPaging.MatchingKeepsCopies | services/platform-service/internal/infrastructure/repository/postgres_ledger.go:364-384 | A row is among those asked for as often as it is in the table |
| PagingWalk.PagingIsComplete | services/platform-service/internal/infrastructure/repository/postgres_ledger.go:350-404 | With distinct times and within reach, whatever orders the database uses, stepping while more follow returns exactly the rows asked for, each once, newest first, in ceil(total / limit) pages |
| PagingWalk.PagingWorksIff | services/platform-service/internal/infrastructure/repository/postgres_ledger.go:359-384 | Stepping returns every row once, newest first, for all orders of equal times at each request, if and only if the matches are within reach of the offset clamp and no page ends between two rows of equal time |
| PagingWalk.BeyondReachRepeats | services/platform-service/internal/infrastructure/repository/postgres_ledger.go:359-362 | Beyond reach a client that is told to stop has been given more rows than there are |
| PagingWalk.HundredThousandIsWithinReach | services/platform-service/internal/infrastructure/repository/postgres_ledger.go:359-362 | 100,000 matches are always within reach |
| RowOrders.NewestFirstIsUnique | services/platform-service/internal/infrastructure/repository/postgres_ledger.go:382 | With distinct times there is one newest-first order only |
| RowOrders.SameRowsUpTo | services/platform-service/internal/infrastructure/repository/postgres_ledger.go:382 | Any two newest-first orders have the same rows up to a place where no tie crosses |
| Route.ToProto | services/trip-service/pkg/types/types.go:18-77 | The legs are those cut at the first nearest remaining point to each waypoint |
| Route.ClosestFrom | services/trip-service/pkg/types/types.go:33-43 | The inner search finds the first nearest point from a position on |
| Route.ProtoIsUnique | services/trip-service/pkg/types/types.go:18-77 | The cuts, and so the legs, are determined: a route has one protobuf form only |
| Route.LegsCoverAPrefix | services/trip-service/pkg/types/types.go:25-57 | One non-empty leg per pair of waypoints, sharing their joints; without the doubled joints they are a prefix of the geometry, axes swapped |
| Route.LegEndsNearItsWaypoint | services/trip-service/pkg/types/types.go:33-57 | Each leg is the slice of the geometry up to the first nearest point to its waypoint |
| Route.NearestInCoordinates | services/trip-service/pkg/types/types.go:33-43 | First nearest in coordinates: no remaining point is nearer, none before it as near, by squared distance |
| Overlap.RoutesOverlap | services/driver-service/trip_consumer.go:77-127 | The dispatcher's decision, missing data counting as a match |
| Overlap.DispatchableMeans | services/driver-service/trip_consumer.go:77-142 | In degrees: let through exactly if the first leg is not empty and no point is farther than 0.005 outside the extent of the stored path |
| Overlap.MissingDataMatches | services/driver-service/trip_consumer.go:77-117 | Missing data lets a route through |
| Overlap.AllRoutePointsWithinBounds | services/driver-service/trip_consumer.go:129-142 | True if and only if every point of every leg lies in the box |
| Overlap.OwnRouteOverlaps | services/driver-service/trip_consumer.go:77-127 | A route always overlaps its own protobuf form |
| Overlap.AppImpliesDispatcher | web/src/components/DriverTripOverview.tsx:10-29 | Where the app lets any route through, the dispatcher does if and only if its first leg is non-empty or the trip has no path |
| Overlap.AppImpliesDispatcherOnTrips | web/src/components/DriverTripOverview.tsx:10-29 | So for the routes of real trips the app never lets through what the dispatcher turns away |
| Overlap.ChecksAgree | web/src/components/DriverTripOverview.tsx:10-29 | The two checks agree when the legs cover the whole geometry |
| Retry.WithBackoff | shared/retry/retry.go:29-58 | Runs to the first success, a cancellation or the last attempt; the waits sat through; the last error |
| Retry.WaitInClosedForm | shared/retry/retry.go:44-48 | The k-th wait is the initial one doubled k times, capped |
| Retry.ConsumeMessages | shared/messaging/rabbitmq.go:78-117 | Each delivery is settled exactly once, by an ack if and only if one of at most four attempts succeeds |
| SqlSplit.SplitSQL | shared/sqlmigrate/sqlmigrate.go:38-60 | The trimmed pieces between semicolons outside dollar-quoted bodies, an empty tail dropped |
| SqlSplit.CutMeans | shared/sqlmigrate/sqlmigrate.go:44-53 | A semicolon ends a statement exactly if an even number of `$$`, overlapping ones counted, starts before it |
| SqlSplit.PiecesRestoreTheSource | shared/sqlmigrate/sqlmigrate.go:38-60 | The untrimmed pieces joined by semicolons are the source |
| SqlSplit.CutUndoesJoinIff | shared/sqlmigrate/sqlmigrate.go:44-53 | Which lists survive joining and cutting: exactly those with no semicolon outside dollar quotes and, but for the last, balanced quotes |
| SqlSplit.SplitUndoesJoin | shared/sqlmigrate/sqlmigrate.go:38-60 | Splitting undoes joining for trimmed, non-empty statements of that kind |
| SqlSplit.StatementsAreClean | shared/sqlmigrate/sqlmigrate.go:44-58 | What comes out is trimmed and holds no semicolon outside dollar quotes |
| SqlSplit.SplitIsIdempotentIff | shared/sqlmigrate/sqlmigrate.go:38-60 | Joining and splitting again gives the same statements if and only if the last is not empty |

## Left out

- The AMQP, Mongo, Postgres, Stripe, OSRM, gRPC and WebSocket clients: their operations are `Io` outcomes, message bags and status replies.
- Timers and time-to-live: a retry or an expiry may come at any moment; durations are unbounded integers, so the doubling of a wait does not wrap.
- Authentication, roles, password reset, tracing, configuration, generated code, the UI except `routesOverlap`, and the in-memory trip repository.
- Decoding of message bodies, and the headers set on a rejected message; a rejected message just leaves its queue.
- Whether an exhausted search reaches the rider: messages of the retry queue carry no owner, so it need not.
- IEEE rounding of fares and coordinates; `int64(x)` of a fare is truncation toward zero.
- A trip or status reply without a fare document, other than a status reply without a total: `CreateTrip` always embeds the fare.
- `rand.Intn`, plates, avatars and geohashes of a new driver: the pick is a free choice, the rest has no effect on dispatch.
- Fare previews (`GenerateTripFares`, `GetAndValidateFare`, base fares) and the user-facing trip list: no state that the properties here depend on.
- Evaluation of SQL by the database beyond WHERE clauses of comparisons: ORDER BY of grouped queries and the calendar functions of the trend are any order and any key.
- `CustomerDashboard`'s series and recent rows, `ListByUser`: further GROUP BY and newest-first queries of the kinds proved.
- Letters outside A-Z in `ToLower`, and Unicode case folding in ILIKE.
- RegisterDriver: the slice of drivers is a sequence, so its growth and the shift on removal are not modelled in place; the lists of active trips are arrays.
- The driver app keeping one tried list per trip: a decline is taken to echo the list of its own offer, as the search's bound needs.
- Delivery of one offer to a driver more than once.
- Two answers for one trip within the check of one driver: the routes fetched during a check are one map.
