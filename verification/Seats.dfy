/** Seat accounting of the driver registry, on values: what each operation does to the list of drivers, and
    the conservation of seats over whole histories. */
module Seats {
  import opened Prelude

  const CARPOOL := "carpool"
  const INT32_MAX := 0x7FFF_FFFF

  /** Two's complement 32-bit addition results. */
  function Wrap32(x: int): int { (x + 0x8000_0000) % 0x1_0000_0000 - 0x8000_0000 }

  datatype DriverRec = DriverRec(id: string, slug: string, capacity: int, available: int, active: seq<string>)

  function DefaultCapacity(slug: string, requested: int): int {
    if requested > 0 then requested else if slug == CARPOOL then 4 else 1
  }

  function AtLeastOne(n: int): int { if n < 1 then 1 else n }

  /** The position of the first driver registered under an id; past the end if there is none. */
  function Find(ds: seq<DriverRec>, id: string): (i: nat)
    ensures i <= |ds| && (i < |ds| ==> ds[i].id == id)
    ensures forall j :: 0 <= j < i ==> ds[j].id != id
  {
    if ds == [] || ds[0].id == id then 0 else 1 + Find(ds[1..], id)
  }

  function Without(s: seq<string>, x: string): seq<string> {
    if s == [] then []
    else Without(s[..|s| - 1], x) + if s[|s| - 1] != x then [s[|s| - 1]] else []
  }

  function Reserve(d: DriverRec, trip: string, n: int): DriverRec {
    d.(available := if d.slug != CARPOOL then 0 else d.available - n, active := d.active + [trip])
  }

  function Release(d: DriverRec, trip: string, n: int): DriverRec {
    var sum := Wrap32(d.available + n);
    d.(available := if d.slug != CARPOOL || sum > d.capacity then d.capacity else sum,
       active := Without(d.active, trip))
  }

  predicate CanReserve(ds: seq<DriverRec>, id: string, n: int) {
    Find(ds, id) < |ds| && ds[Find(ds, id)].available >= AtLeastOne(n)
  }

  function AfterAccepted(ds: seq<DriverRec>, id: string, trip: string, n: int): seq<DriverRec> {
    if CanReserve(ds, id, n) then ds[Find(ds, id) := Reserve(ds[Find(ds, id)], trip, AtLeastOne(n))] else ds
  }

  function AfterCompleted(ds: seq<DriverRec>, id: string, trip: string, n: int): seq<DriverRec> {
    if Find(ds, id) < |ds| then ds[Find(ds, id) := Release(ds[Find(ds, id)], trip, AtLeastOne(n))] else ds
  }

  function AfterRegistered(ds: seq<DriverRec>, id: string, slug: string, requested: int): seq<DriverRec> {
    var c := DefaultCapacity(slug, requested);
    ds + [DriverRec(id, slug, c, c, [])]
  }

  function AfterUnregistered(ds: seq<DriverRec>, id: string): seq<DriverRec> {
    var i := Find(ds, id);
    if i < |ds| then ds[..i] + ds[i + 1..] else ds
  }

  // --- The operations in the fields of an entry ----------------------------------------

  /** The i-th entry is the one a call for this id finds. */
  predicate IsFirst(ds: seq<DriverRec>, id: string, i: nat) {
    i < |ds| && ds[i].id == id && forall j :: 0 <= j < i ==> ds[j].id != id
  }

  /** A reservation of n seats, one at least, is granted exactly if the first entry under the id has them free;
      a carpool driver gives just those, any other driver all he has. */
  lemma AcceptedInFields(ds: seq<DriverRec>, id: string, trip: string, n: int, i: nat)
    requires IsFirst(ds, id, i)
    ensures CanReserve(ds, id, n) <==> ds[i].available >= n && ds[i].available >= 1
    ensures ds[i].available < n || ds[i].available < 1 ==> AfterAccepted(ds, id, trip, n) == ds
    ensures ds[i].available >= n && ds[i].available >= 1 ==>
              var taken := if ds[i].slug != "carpool" then ds[i].available else if n < 1 then 1 else n;
              AfterAccepted(ds, id, trip, n) == ds[i := ds[i].(available := ds[i].available - taken, active := ds[i].active + [trip])]
  {
    assert Find(ds, id) == i;
  }

  /** A completion takes the trip off the first entry under the id and gives n seats back, one at least, up to the
      capacity, or all of them if the driver does not carpool. */
  lemma CompletedInFields(ds: seq<DriverRec>, id: string, trip: string, n: int, i: nat)
    requires IsFirst(ds, id, i) && 0 <= ds[i].available <= ds[i].capacity <= INT32_MAX && n <= INT32_MAX
    ensures var after := AfterCompleted(ds, id, trip, n);
            && |after| == |ds| && after == ds[i := after[i]]
            && after[i] == ds[i].(available := after[i].available, active := Without(ds[i].active, trip))
            && (ds[i].slug != "carpool" ==> after[i].available == ds[i].capacity)
            && var sum := ds[i].available + if n < 1 then 1 else n;
               ds[i].slug == "carpool" ==>
                 after[i].available == if sum > 0x7FFF_FFFF then sum - 0x1_0000_0000 else if sum > ds[i].capacity then ds[i].capacity else sum
  {
    assert Find(ds, id) == i;
  }

  lemma {:induction false} AbsentIsNotFound(ds: seq<DriverRec>, id: string)
    requires forall d :: d in ds ==> d.id != id
    ensures Find(ds, id) == |ds|
  {
    if ds != [] {
      AbsentIsNotFound(ds[1..], id);
    }
  }

  /** For an id nobody is registered under, nothing happens. */
  lemma UnknownDriverChangesNothing(ds: seq<DriverRec>, id: string, trip: string, n: int)
    requires forall d :: d in ds ==> d.id != id
    ensures AfterAccepted(ds, id, trip, n) == AfterCompleted(ds, id, trip, n) == AfterUnregistered(ds, id) == ds
    ensures !CanReserve(ds, id, n)
  {
    AbsentIsNotFound(ds, id);
  }

  /** The entries under an id, and those under any other, in order. */
  function Under(ds: seq<DriverRec>, id: string): seq<DriverRec> {
    if ds == [] then [] else (if ds[0].id == id then [ds[0]] else []) + Under(ds[1..], id)
  }

  function Others(ds: seq<DriverRec>, id: string): seq<DriverRec> {
    if ds == [] then [] else (if ds[0].id != id then [ds[0]] else []) + Others(ds[1..], id)
  }

  /** Unregistering drops the first entry under the id, if there is any; the other entries under it, and all
      entries under other ids, stay in order. */
  lemma {:induction false} UnregisteredDropsTheFirst(ds: seq<DriverRec>, id: string)
    ensures Others(AfterUnregistered(ds, id), id) == Others(ds, id)
    ensures Under(AfterUnregistered(ds, id), id) == if Under(ds, id) == [] then [] else Under(ds, id)[1..]
  {
    if ds != [] {
      var after := AfterUnregistered(ds, id);
      if ds[0].id == id {
        assert after == ds[1..];
      } else {
        UnregisteredDropsTheFirst(ds[1..], id);
        assert after == [ds[0]] + AfterUnregistered(ds[1..], id);
        assert after[1..] == AfterUnregistered(ds[1..], id);
      }
    }
  }

  lemma WithoutSnoc(s: seq<string>, y: string, x: string)
    ensures Without(s + [y], x) == Without(s, x) + if y == x then [] else [y]
  {
    assert (s + [y])[..|s|] == s;
  }

  /** A single trip stays unless it is the one dropped. */
  lemma WithoutOfOne(y: string, x: string)
    ensures Without([y], x) == if y == x then [] else [y]
  {
    WithoutSnoc([], y, x);
    assert [] + [y] == [y];
  }

  lemma Associates(a: seq<string>, b: seq<string>, c: seq<string>)
    ensures a + (b + c) == (a + b) + c
  {
  }

  /** Dropping a trip keeps the others in order: a list can be dealt with in two pieces. */
  lemma {:induction false} WithoutOfConcat(s: seq<string>, t: seq<string>, x: string)
    ensures Without(s + t, x) == Without(s, x) + Without(t, x)
  {
    if t == [] {
      assert s + t == s;
    } else {
      var init, last := t[..|t| - 1], t[|t| - 1];
      var kept: seq<string> := if last == x then [] else [last];
      WithoutOfConcat(s, init, x);
      assert t == init + [last];
      Associates(s, init, [last]);
      WithoutSnoc(s + init, last, x);
      WithoutSnoc(init, last, x);
      Associates(Without(s, x), Without(init, x), kept);
    }
  }

  // --- Conservation ---------------------------------------------------------------

  function SeatsFor(seats: map<string, int>, trip: string): (n: int)
    ensures n >= 1
  {
    if trip in seats then AtLeastOne(seats[trip]) else 1
  }

  /** The seats of a list of trips. */
  function Booked(active: seq<string>, seats: map<string, int>): (n: int)
    ensures n >= |active|
  {
    if active == [] then 0 else Booked(active[..|active| - 1], seats) + SeatsFor(seats, active[|active| - 1])
  }

  /** No seat is lost: what is free and what the active trips hold make up the capacity at least. */
  predicate Sound(d: DriverRec, seats: map<string, int>) {
    && 1 <= d.capacity <= INT32_MAX && 0 <= d.available <= d.capacity
    && Distinct(d.active)
    && (d.slug == CARPOOL ==> d.available + Booked(d.active, seats) >= d.capacity)
  }

  /** Seats are accounted for exactly; a driver who does not carpool is idle or has exactly one trip. */
  predicate Exact(d: DriverRec, seats: map<string, int>) {
    && Sound(d, seats)
    && if d.slug == CARPOOL then d.available + Booked(d.active, seats) == d.capacity
       else (d.active == [] && d.available == d.capacity) || (|d.active| == 1 && d.available == 0)
  }

  lemma {:induction false} WithoutMeans(s: seq<string>, x: string, y: string)
    ensures y in Without(s, x) <==> y in s && y != x
  {
    if s != [] {
      WithoutMeans(s[..|s| - 1], x, y);
      assert s == s[..|s| - 1] + [s[|s| - 1]];
    }
  }

  lemma DistinctSnoc(init: seq<string>, last: string)
    ensures Distinct(init + [last]) <==> Distinct(init) && last !in init
  {
    var s := init + [last];
    if Distinct(s) {
      forall i, j | 0 <= i < j < |init| ensures init[i] != init[j] { assert s[i] != s[j]; }
      forall i | 0 <= i < |init| ensures init[i] != last { assert s[i] != s[|init|]; }
    }
  }

  lemma {:induction false} WithoutKeepsDistinct(s: seq<string>, x: string)
    requires Distinct(s)
    ensures Distinct(Without(s, x))
  {
    if s != [] {
      var init, last := s[..|s| - 1], s[|s| - 1];
      assert s == init + [last];
      DistinctSnoc(init, last);
      WithoutKeepsDistinct(init, x);
      WithoutMeans(init, x, last);
      DistinctSnoc(Without(init, x), last);
    }
  }

  lemma {:induction false} BookedWithout(s: seq<string>, x: string, seats: map<string, int>)
    requires Distinct(s)
    ensures Booked(Without(s, x), seats) == Booked(s, seats) - if x in s then SeatsFor(seats, x) else 0
    ensures |Without(s, x)| == |s| - if x in s then 1 else 0
  {
    if s != [] {
      var init, last := s[..|s| - 1], s[|s| - 1];
      assert s == init + [last];
      DistinctSnoc(init, last);
      BookedWithout(init, x, seats);
      BookedAppend(init, last, seats);
      BookedAppend(Without(init, x), last, seats);
      assert last == x ==> Without(s, x) == Without(init, x);
    }
  }

  lemma BookedAppend(s: seq<string>, x: string, seats: map<string, int>)
    ensures Booked(s + [x], seats) == Booked(s, seats) + SeatsFor(seats, x)
  {
    assert (s + [x])[..|s|] == s;
  }

  lemma ReserveConserves(d: DriverRec, trip: string, n: int, seats: map<string, int>)
    requires Sound(d, seats) && trip !in d.active && n == SeatsFor(seats, trip) <= d.available
    ensures Sound(Reserve(d, trip, n), seats)
    ensures Exact(d, seats) ==> Exact(Reserve(d, trip, n), seats)
  {
    BookedAppend(d.active, trip, seats);
    if Exact(d, seats) && d.slug != CARPOOL {
      assert d.active == [];
    }
  }

  lemma Wrap32Fits(x: int)
    requires 0 <= x <= INT32_MAX
    ensures Wrap32(x) == x
  {
  }

  lemma AvailableAfterRelease(d: DriverRec, trip: string, n: int)
    requires 0 <= d.available + n <= INT32_MAX && d.slug == CARPOOL
    ensures Release(d, trip, n).available == if d.available + n > d.capacity then d.capacity else d.available + n
  {
    Wrap32Fits(d.available + n);
  }

  lemma CarpoolRelease(d: DriverRec, trip: string, n: int, seats: map<string, int>)
    requires Sound(d, seats) && n == SeatsFor(seats, trip) && d.available + n <= INT32_MAX && d.slug == CARPOOL
    ensures var r := Release(d, trip, n);
            && Distinct(r.active)
            && r.available == (if d.available + n > d.capacity then d.capacity else d.available + n)
            && Booked(r.active, seats) == Booked(d.active, seats) - (if trip in d.active then n else 0)
            && (trip in d.active ==> Booked(d.active, seats) >= n)
  {
    AvailableAfterRelease(d, trip, n);
    WithoutKeepsDistinct(d.active, trip);
    BookedWithout(d.active, trip, seats);
    if trip in d.active {
      BookedAtLeast(d.active, trip, seats);
    }
  }

  lemma ExclusiveRelease(d: DriverRec, trip: string, n: int, seats: map<string, int>)
    requires Sound(d, seats) && n == SeatsFor(seats, trip) && d.slug != CARPOOL
    ensures Sound(Release(d, trip, n), seats)
    ensures Exact(d, seats) ==> (Exact(Release(d, trip, n), seats) <==> trip in d.active || d.available == d.capacity)
  {
    WithoutKeepsDistinct(d.active, trip);
    BookedWithout(d.active, trip, seats);
  }

  /** A release keeps the seats conserved, even of a trip the driver is not on; it keeps them exact if and only
      if the trip is one of the driver's or no seat is taken. For an active trip the clamp to the capacity never
      has anything to cut. */
  lemma ReleaseConserves(d: DriverRec, trip: string, n: int, seats: map<string, int>)
    requires Sound(d, seats) && n == SeatsFor(seats, trip) && d.available + n <= INT32_MAX
    ensures Sound(Release(d, trip, n), seats)
    ensures Exact(d, seats) ==> (Exact(Release(d, trip, n), seats) <==> trip in d.active || d.available == d.capacity)
    ensures Exact(d, seats) && d.slug == CARPOOL && trip in d.active ==>
              d.available + n <= d.capacity && Release(d, trip, n).available == d.available + n
  {
    if d.slug == CARPOOL {
      CarpoolRelease(d, trip, n, seats);
    } else {
      ExclusiveRelease(d, trip, n, seats);
    }
  }

  lemma {:induction false} BookedAtLeast(s: seq<string>, x: string, seats: map<string, int>)
    requires x in s
    ensures Booked(s, seats) >= SeatsFor(seats, x)
  {
    var init, last := s[..|s| - 1], s[|s| - 1];
    if last != x {
      BookedAtLeast(init, x, seats);
    }
  }

  /** The 32-bit counter survives a carpool release exactly if the sum fits; otherwise it turns negative. */
  lemma ReleaseOverflowIff(d: DriverRec, trip: string, n: int)
    requires d.slug == CARPOOL && 0 <= d.available <= d.capacity <= INT32_MAX && 0 <= n <= INT32_MAX
    ensures Release(d, trip, n).available >= 0 <==> d.available + n <= INT32_MAX
  {
  }

  // --- Histories --------------------------------------------------------------------

  datatype Op =
    | Register(id: string, slug: string, requested: int)
    | Unregister(id: string)
    | Accepted(id: string, trip: string, seats: int)
    | Completed(id: string, trip: string, seats: int)

  function Apply(ds: seq<DriverRec>, op: Op): seq<DriverRec> {
    match op
    case Register(id, slug, requested) => AfterRegistered(ds, id, slug, requested)
    case Unregister(id) => AfterUnregistered(ds, id)
    case Accepted(id, trip, n) => AfterAccepted(ds, id, trip, n)
    case Completed(id, trip, n) => AfterCompleted(ds, id, trip, n)
  }

  function Run(ops: seq<Op>): seq<DriverRec> {
    if ops == [] then [] else Apply(Run(ops[..|ops| - 1]), ops[|ops| - 1])
  }

  /** What the callers owe: a trip is not reserved again while the driver is on it, it is released with the
      seats it was reserved with, and the numbers fit the 32-bit counter. */
  predicate Orderly(ds: seq<DriverRec>, op: Op, seats: map<string, int>) {
    match op
    case Register(_, _, requested) => requested <= INT32_MAX
    case Unregister(_) => true
    case Accepted(id, trip, n) =>
      AtLeastOne(n) == SeatsFor(seats, trip) && (Find(ds, id) < |ds| ==> trip !in ds[Find(ds, id)].active)
    case Completed(id, trip, n) =>
      AtLeastOne(n) == SeatsFor(seats, trip) && (Find(ds, id) < |ds| ==> ds[Find(ds, id)].available + AtLeastOne(n) <= INT32_MAX)
  }

  /** A completion names a trip its driver is on. */
  predicate NamesActiveTrip(ds: seq<DriverRec>, op: Op) {
    op.Completed? && Find(ds, op.id) < |ds| ==> op.trip in ds[Find(ds, op.id)].active
  }

  predicate OrderlyRun(ops: seq<Op>, seats: map<string, int>) {
    forall i :: 0 <= i < |ops| ==> Orderly(Run(ops[..i]), ops[i], seats)
  }

  predicate CompletionsNameActiveTrips(ops: seq<Op>) {
    forall i :: 0 <= i < |ops| ==> NamesActiveTrip(Run(ops[..i]), ops[i])
  }

  predicate AllSound(ds: seq<DriverRec>, seats: map<string, int>) {
    forall i :: 0 <= i < |ds| ==> Sound(ds[i], seats)
  }

  predicate AllExact(ds: seq<DriverRec>, seats: map<string, int>) {
    forall i :: 0 <= i < |ds| ==> Exact(ds[i], seats)
  }

  lemma ApplyKeepsSound(ds: seq<DriverRec>, op: Op, seats: map<string, int>)
    requires AllSound(ds, seats) && Orderly(ds, op, seats)
    ensures AllSound(Apply(ds, op), seats)
    ensures AllExact(ds, seats) && NamesActiveTrip(ds, op) ==> AllExact(Apply(ds, op), seats)
  {
    if op.Accepted? && CanReserve(ds, op.id, op.seats) {
      ReserveConserves(ds[Find(ds, op.id)], op.trip, AtLeastOne(op.seats), seats);
    }
    if op.Completed? && Find(ds, op.id) < |ds| {
      ReleaseConserves(ds[Find(ds, op.id)], op.trip, AtLeastOne(op.seats), seats);
    }
  }

  lemma PrefixOf(ops: seq<Op>, seats: map<string, int>)
    requires ops != []
    ensures var n := |ops| - 1;
            && (OrderlyRun(ops, seats) ==> OrderlyRun(ops[..n], seats) && Orderly(Run(ops[..n]), ops[n], seats))
            && (CompletionsNameActiveTrips(ops) ==>
                  CompletionsNameActiveTrips(ops[..n]) && NamesActiveTrip(Run(ops[..n]), ops[n]))
  {
    var n := |ops| - 1;
    assert forall i :: 0 <= i < n ==> ops[..n][i] == ops[i] && ops[..n][..i] == ops[..i];
  }

  /** Over every orderly history no seat of a carpool driver is ever lost. */
  lemma {:induction false} SeatsAreConserved(ops: seq<Op>, seats: map<string, int>)
    requires OrderlyRun(ops, seats)
    ensures AllSound(Run(ops), seats)
  {
    if ops != [] {
      var init, last := ops[..|ops| - 1], ops[|ops| - 1];
      PrefixOf(ops, seats);
      SeatsAreConserved(init, seats);
      ApplyKeepsSound(Run(init), last, seats);
    }
  }

  /** A carpool driver with no active trip has every seat free. */
  lemma IdleMeansEmpty(d: DriverRec, seats: map<string, int>)
    requires Sound(d, seats) && d.slug == CARPOOL && d.active == []
    ensures d.available == d.capacity
  {
  }

  /** If moreover every completion names an active trip, the accounts are exact throughout: free seats and the
      seats of active trips make up the capacity, and a driver who does not carpool never has two trips. */
  lemma {:induction false} SeatsAreExact(ops: seq<Op>, seats: map<string, int>)
    requires OrderlyRun(ops, seats) && CompletionsNameActiveTrips(ops)
    ensures AllExact(Run(ops), seats)
  {
    if ops != [] {
      var init, last := ops[..|ops| - 1], ops[|ops| - 1];
      PrefixOf(ops, seats);
      SeatsAreExact(init, seats);
      assert AllSound(Run(init), seats);
      ApplyKeepsSound(Run(init), last, seats);
    }
  }
}
