/** Double entry: what every intermediate state of the ledger satisfies when each trip has one rider,
    one driver and one amount. */
module DoubleEntry {
  import opened Prelude
  import opened Ledger
  import opened Selections

  /** Who pays whom how much for a trip. */
  datatype Plan = Plan(rider: string, driver: string, amount: int)

  predicate HasPayee(plan: Plan) { plan.driver != "" && plan.driver != plan.rider }

  predicate Matches(p: Payment, plan: Plan) {
    p.rider == plan.rider && p.driver == plan.driver && p.amount == plan.amount
  }

  predicate IsDebit(r: Row, plan: Plan) { r.kind == Debit && r.user == plan.rider && r.amount == plan.amount }

  predicate IsCredit(r: Row, plan: Plan) {
    r.kind == Credit && r.user == plan.driver && r.amount == plan.amount && HasPayee(plan)
  }

  /** One trip's rows: nothing, the rider's debit, or the rider's debit and then the driver's credit. */
  predicate TripRows(rows: seq<Row>, plan: Plan) {
    && |rows| <= 2
    && (|rows| >= 1 ==> IsDebit(rows[0], plan) && plan.amount > 0)
    && (|rows| == 2 ==> IsCredit(rows[1], plan))
  }

  /** The rows of one trip, in table order. */
  function RowsOf(rows: seq<Row>, trip: string): seq<Row> {
    if rows == [] then []
    else
      var init, r := rows[..|rows| - 1], rows[|rows| - 1];
      RowsOf(init, trip) + if r.trip == Some(trip) then [r] else []
  }

  predicate FollowsPlans(rows: seq<Row>, plans: map<string, Plan>) {
    && (forall r :: r in rows ==> r.trip.Some? && r.trip.value in plans)
    && (forall t :: t in plans ==> TripRows(RowsOf(rows, t), plans[t]))
  }

  lemma RowsOfAppend(rows: seq<Row>, r: Row, trip: string)
    ensures RowsOf(rows + [r], trip) == RowsOf(rows, trip) + if r.trip == Some(trip) then [r] else []
  {
    assert (rows + [r])[..|rows|] == rows;
  }

  lemma {:induction false} RowsOfMembers(rows: seq<Row>, trip: string, r: Row)
    ensures r in RowsOf(rows, trip) <==> r in rows && r.trip == Some(trip)
  {
    if rows != [] {
      RowsOfMembers(rows[..|rows| - 1], trip, r);
    }
  }

  lemma HasRowOfTrip(rows: seq<Row>, trip: string, user: string)
    ensures HasRow(rows, Some(trip), user) <==> HasRow(RowsOf(rows, trip), Some(trip), user)
  {
    if HasRow(rows, Some(trip), user) {
      var i :| 0 <= i < |rows| && rows[i].trip == Some(trip) && rows[i].user == user;
      RowsOfMembers(rows, trip, rows[i]);
      var j :| 0 <= j < |RowsOf(rows, trip)| && RowsOf(rows, trip)[j] == rows[i];
    }
    if HasRow(RowsOf(rows, trip), Some(trip), user) {
      var i :| 0 <= i < |RowsOf(rows, trip)| && RowsOf(rows, trip)[i].trip == Some(trip) && RowsOf(rows, trip)[i].user == user;
      RowsOfMembers(rows, trip, RowsOf(rows, trip)[i]);
    }
  }

  /** An insert touches its own trip's rows only, and acts there as it does on the whole table. */
  lemma InsertIsPerTrip(rows: seq<Row>, row: Row, trip: string)
    requires row.trip.Some?
    ensures RowsOf(InsertIfAbsent(rows, row), trip) ==
            if row.trip == Some(trip) then InsertIfAbsent(RowsOf(rows, trip), row) else RowsOf(rows, trip)
  {
    RowsOfAppend(rows, row, trip);
    HasRowOfTrip(rows, row.trip.value, row.user);
  }

  lemma InsertDebitKeepsTripRows(rows: seq<Row>, row: Row, plan: Plan)
    requires TripRows(rows, plan) && IsDebit(row, plan) && plan.amount > 0
    requires forall r :: r in rows ==> r.trip == row.trip
    ensures TripRows(InsertIfAbsent(rows, row), plan) && |InsertIfAbsent(rows, row)| >= 1
  {
    if rows != [] {
      assert rows[0] in rows;
      assert rows[0].trip == row.trip && rows[0].user == row.user;
    }
  }

  lemma InsertCreditKeepsTripRows(rows: seq<Row>, row: Row, plan: Plan)
    requires TripRows(rows, plan) && |rows| >= 1 && IsCredit(row, plan)
    requires forall r :: r in rows ==> r.trip == row.trip
    ensures TripRows(InsertIfAbsent(rows, row), plan) && |InsertIfAbsent(rows, row)| == 2
  {
    if |rows| == 2 {
      assert rows[1] in rows;
      assert rows[1].trip == row.trip && rows[1].user == row.user;
    }
  }

  /** A delivery of a payment that matches its trip's plan keeps the table to the plans,
      wherever it crashes; if it runs to the end the trip is fully posted. */
  lemma DeliverFollowsPlans(rows: seq<Row>, d: Delivery, plans: map<string, Plan>)
    requires FollowsPlans(rows, plans)
    requires !Skipped(d.payment) ==> d.payment.trip in plans && Matches(d.payment, plans[d.payment.trip])
    ensures FollowsPlans(Deliver(rows, d), plans)
    ensures Complete(d) && !Skipped(d.payment) ==>
              |RowsOf(Deliver(rows, d), d.payment.trip)| == if HasDriverSide(d.payment) then 2 else 1
  {
    var p := d.payment;
    if !Skipped(p) && d.inserts > 0 {
      var debit, credit := DebitRow(p, d.debitStamp), CreditRow(p, d.creditStamp);
      var posted := InsertIfAbsent(rows, debit);
      var final := Deliver(rows, d);
      forall t | t in plans ensures TripRows(RowsOf(final, t), plans[t]) {
        PostingKeepsTripRows(rows, d, t, plans[t]);
      }
      PostingKeepsTripRows(rows, d, p.trip, plans[p.trip]);
      forall r | r in final ensures r.trip.Some? && r.trip.value in plans {
        assert r in rows || r == debit || r == credit;
      }
    }
  }

  lemma PostingKeepsTripRows(rows: seq<Row>, d: Delivery, trip: string, plan: Plan)
    requires TripRows(RowsOf(rows, trip), plan)
    requires !Skipped(d.payment) && d.inserts > 0
    requires d.payment.trip == trip ==> Matches(d.payment, plan)
    ensures TripRows(RowsOf(Deliver(rows, d), trip), plan)
    ensures d.payment.trip == trip && Complete(d) ==>
              |RowsOf(Deliver(rows, d), trip)| == if HasDriverSide(d.payment) then 2 else 1
  {
    var p := d.payment;
    var debit, credit := DebitRow(p, d.debitStamp), CreditRow(p, d.creditStamp);
    if p.trip == trip {
      PostingOfItsTrip(rows, trip, plan, p, debit, credit);
    } else {
      InsertIsPerTrip(rows, debit, trip);
      InsertIsPerTrip(InsertIfAbsent(rows, debit), credit, trip);
    }
  }

  lemma PostingOfItsTrip(rows: seq<Row>, trip: string, plan: Plan, p: Payment, debit: Row, credit: Row)
    requires TripRows(RowsOf(rows, trip), plan) && !Skipped(p) && p.trip == trip && Matches(p, plan)
    requires debit.trip == credit.trip == Some(trip)
    requires debit.kind == Debit && debit.user == p.rider && debit.amount == p.amount
    requires credit.kind == Credit && credit.user == p.driver && credit.amount == p.amount
    ensures var posted := InsertIfAbsent(rows, debit);
            && TripRows(RowsOf(posted, trip), plan) && |RowsOf(posted, trip)| >= 1
            && (!HasDriverSide(p) ==> |RowsOf(posted, trip)| == 1)
            && (HasDriverSide(p) ==>
                  TripRows(RowsOf(InsertIfAbsent(posted, credit), trip), plan) && |RowsOf(InsertIfAbsent(posted, credit), trip)| == 2)
  {
    var posted := InsertIfAbsent(rows, debit);
    InsertIsPerTrip(rows, debit, trip);
    OwnRows(rows, trip);
    InsertDebitKeepsTripRows(RowsOf(rows, trip), debit, plan);
    if HasDriverSide(p) {
      InsertIsPerTrip(posted, credit, trip);
      OwnRows(posted, trip);
      InsertCreditKeepsTripRows(RowsOf(posted, trip), credit, plan);
    }
  }

  lemma OwnRows(rows: seq<Row>, trip: string)
    ensures forall r :: r in RowsOf(rows, trip) ==> r.trip == Some(trip)
  {
    forall r ensures r in RowsOf(rows, trip) ==> r.trip == Some(trip) { RowsOfMembers(rows, trip, r); }
  }

  // --- Sums ---------------------------------------------------------------

  predicate TripPosted(rows: seq<Row>, trip: string) { |RowsOf(rows, trip)| >= 1 }

  predicate TripCredited(rows: seq<Row>, trip: string) { |RowsOf(rows, trip)| == 2 }

  lemma {:induction false} SumOfTrip(rows: seq<Row>, trip: string, kind: Kind)
    ensures SumOf(rows, OfTrip(trip, kind)) == SumOf(RowsOf(rows, trip), OfTrip(trip, kind))
  {
    if rows != [] {
      var init, r := rows[..|rows| - 1], rows[|rows| - 1];
      SumOfTrip(init, trip, kind);
      if r.trip == Some(trip) {
        SumOfAppend(RowsOf(init, trip), r, OfTrip(trip, kind));
      } else {
        assert RowsOf(rows, trip) == RowsOf(init, trip);
      }
    }
  }

  lemma SumOfOne(r: Row, s: Selection)
    ensures SumOf([r], s) == if Selects(s, r) then r.amount else 0
  {
    SumOfAppend([], r, s);
    assert [] + [r] == [r];
  }

  lemma SumOfTwo(q: Row, r: Row, s: Selection)
    ensures SumOf([q, r], s) == SumOf([q], s) + if Selects(s, r) then r.amount else 0
  {
    SumOfAppend([q], r, s);
    assert [q] + [r] == [q, r];
  }

  lemma SumOfOwn(own: seq<Row>, trip: string, plan: Plan, kind: Kind)
    requires TripRows(own, plan) && forall r :: r in own ==> r.trip == Some(trip)
    ensures SumOf(own, OfTrip(trip, kind)) == if |own| >= (if kind == Debit then 1 else 2) then plan.amount else 0
  {
    if own != [] {
      assert own[0] in own;
      SumOfOne(own[0], OfTrip(trip, kind));
      if |own| == 1 {
        assert own == [own[0]];
      } else {
        assert own[1] in own && own == [own[0], own[1]];
        SumOfTwo(own[0], own[1], OfTrip(trip, kind));
      }
    }
  }

  lemma TripSums(rows: seq<Row>, trip: string, plan: Plan)
    requires TripRows(RowsOf(rows, trip), plan)
    ensures SumOf(rows, OfTrip(trip, Debit)) == if TripPosted(rows, trip) then plan.amount else 0
    ensures SumOf(rows, OfTrip(trip, Credit)) == if TripCredited(rows, trip) then plan.amount else 0
  {
    OwnRows(rows, trip);
    SumOfTrip(rows, trip, Debit);
    SumOfTrip(rows, trip, Credit);
    SumOfOwn(RowsOf(rows, trip), trip, plan, Debit);
    SumOfOwn(RowsOf(rows, trip), trip, plan, Credit);
  }

  /** In every table that follows the plans, half-done postings included: a trip's credits never exceed
      its debits; the two are equal exactly when the trip is credited or not posted at all. */
  lemma CreditsNeverExceedDebits(rows: seq<Row>, plans: map<string, Plan>, trip: string)
    requires FollowsPlans(rows, plans) && trip in plans
    ensures SumOf(rows, OfTrip(trip, Credit)) <= SumOf(rows, OfTrip(trip, Debit))
    ensures SumOf(rows, OfTrip(trip, Credit)) == SumOf(rows, OfTrip(trip, Debit)) <==>
            TripCredited(rows, trip) || !TripPosted(rows, trip)
  {
    TripSums(rows, trip, plans[trip]);
  }

  /** Sum over a list of users of their dashboard nets. */
  function SumOfNets(rows: seq<Row>, users: seq<string>): int {
    if users == [] then 0
    else SumOfNets(rows, users[..|users| - 1]) + Net(rows, users[|users| - 1], ALL_TIME)
  }

  function Signed(r: Row): int { if r.kind == Credit then r.amount else -r.amount }

  lemma {:induction false} SumOfNetsAppend(rows: seq<Row>, r: Row, users: seq<string>)
    requires Distinct(users)
    ensures SumOfNets(rows + [r], users) == SumOfNets(rows, users) + if r.user in users then Signed(r) else 0
  {
    if users != [] {
      var init, u := users[..|users| - 1], users[|users| - 1];
      SumOfNetsAppend(rows, r, init);
      SumOfAppend(rows, r, OfUser(u, Credit, ALL_TIME));
      SumOfAppend(rows, r, OfUser(u, Debit, ALL_TIME));
      assert users == init + [u] && u !in init;
    }
  }

  lemma {:induction false} SumOfNetsEmpty(users: seq<string>)
    ensures SumOfNets([], users) == 0
  {
    if users != [] {
      SumOfNetsEmpty(users[..|users| - 1]);
    }
  }

  /** A debit whose trip has no credited driver anywhere in the table. */
  function OpenAmount(rows: seq<Row>, r: Row): int {
    if r.kind == Debit && r.trip.Some? && !TripCredited(rows, r.trip.value) then r.amount else 0
  }

  /** Those debits among the first k rows. */
  function OpenDebits(rows: seq<Row>, k: nat): int
    requires k <= |rows|
  {
    if k == 0 then 0 else OpenDebits(rows, k - 1) + OpenAmount(rows, rows[k - 1])
  }

  lemma OtherStaysOpen(rows: seq<Row>, r: Row, q: Row)
    requires r.trip.Some? && q.trip != r.trip
    ensures OpenAmount(rows + [r], q) == OpenAmount(rows, q)
  {
    if q.trip.Some? {
      RowsOfAppend(rows, r, q.trip.value);
    }
  }

  lemma CreditCloses(rows: seq<Row>, r: Row, q: Row)
    requires r.trip.Some? && r.kind == Credit && |RowsOf(rows, r.trip.value)| == 1
    ensures OpenAmount(rows + [r], q)
            == OpenAmount(rows, q) - if Selects(OfTrip(r.trip.value, Debit), q) then q.amount else 0
  {
    if q.trip == r.trip {
      RowsOfAppend(rows, r, r.trip.value);
    } else {
      OtherStaysOpen(rows, r, q);
    }
  }

  /** Crediting a trip closes its one debit and leaves every other open debit open. */
  lemma {:induction false} OpenDebitsAfterCredit(rows: seq<Row>, r: Row, k: nat)
    requires k <= |rows| && r.trip.Some? && r.kind == Credit && |RowsOf(rows, r.trip.value)| == 1
    ensures OpenDebits(rows + [r], k) == OpenDebits(rows, k) - SumOf(rows[..k], OfTrip(r.trip.value, Debit))
  {
    if k > 0 {
      OpenDebitsAfterCredit(rows, r, k - 1);
      var q := rows[k - 1];
      assert (rows + [r])[k - 1] == q;
      assert rows[..k] == rows[..k - 1] + [q];
      SumOfAppend(rows[..k - 1], q, OfTrip(r.trip.value, Debit));
      CreditCloses(rows, r, q);
    }
  }

  lemma {:induction false} OpenDebitsAfterDebit(rows: seq<Row>, r: Row, k: nat)
    requires k <= |rows| && r.trip.Some? && forall q :: q in rows ==> q.trip != r.trip
    ensures OpenDebits(rows + [r], k) == OpenDebits(rows, k)
  {
    if k > 0 {
      OpenDebitsAfterDebit(rows, r, k - 1);
      assert (rows + [r])[k - 1] == rows[k - 1] && rows[k - 1] in rows;
      OtherStaysOpen(rows, r, rows[k - 1]);
    }
  }

  /** Dropping the newest row of a table that follows the plans leaves one that does. */
  lemma PrefixFollowsPlans(rows: seq<Row>, r: Row, plans: map<string, Plan>)
    requires FollowsPlans(rows + [r], plans)
    ensures FollowsPlans(rows, plans)
  {
    forall q | q in rows ensures q in rows + [r] {}
    forall t | t in plans ensures TripRows(RowsOf(rows, t), plans[t]) {
      RowsOfAppend(rows, r, t);
    }
  }

  /** The users' dashboard nets add up to minus the debits of trips without a credited driver. */
  lemma {:induction false} NetsSumToOpenDebits(rows: seq<Row>, plans: map<string, Plan>, users: seq<string>)
    requires FollowsPlans(rows, plans) && Distinct(users)
    requires forall r :: r in rows ==> r.user in users
    ensures SumOfNets(rows, users) == -OpenDebits(rows, |rows|)
  {
    if rows == [] {
      SumOfNetsEmpty(users);
    } else {
      var init, r := rows[..|rows| - 1], rows[|rows| - 1];
      assert rows == init + [r];
      assert r in rows;
      PrefixFollowsPlans(init, r, plans);
      NetsSumToOpenDebits(init, plans, users);
      SumOfNetsAppend(init, r, users);
      LastRowMovesOpenDebits(init, r, plans);
    }
  }

  lemma NewDebitOpens(init: seq<Row>, r: Row, trip: string)
    requires r.trip == Some(trip) && r.kind == Debit && RowsOf(init, trip) == []
    ensures OpenDebits(init + [r], |init| + 1) == OpenDebits(init, |init|) + r.amount
  {
    forall q | q in init ensures q.trip != r.trip { RowsOfMembers(init, trip, q); }
    OpenDebitsAfterDebit(init, r, |init|);
    RowsOfAppend(init, r, trip);
    assert (init + [r])[|init|] == r;
  }

  lemma NewCreditCloses(init: seq<Row>, r: Row, trip: string, plan: Plan)
    requires r.trip == Some(trip) && r.kind == Credit && TripRows(RowsOf(init, trip), plan) && |RowsOf(init, trip)| == 1
    ensures OpenDebits(init + [r], |init| + 1) == OpenDebits(init, |init|) - plan.amount
  {
    OpenDebitsAfterCredit(init, r, |init|);
    TripSums(init, trip, plan);
    assert init[..|init|] == init && (init + [r])[|init|] == r;
  }

  lemma LastRowMovesOpenDebits(init: seq<Row>, r: Row, plans: map<string, Plan>)
    requires FollowsPlans(init, plans) && FollowsPlans(init + [r], plans)
    ensures OpenDebits(init + [r], |init| + 1) == OpenDebits(init, |init|) - Signed(r)
  {
    assert r in init + [r];
    var trip := r.trip.value;
    RowsOfAppend(init, r, trip);
    assert TripRows(RowsOf(init, trip), plans[trip]) && TripRows(RowsOf(init + [r], trip), plans[trip]);
    if RowsOf(init, trip) == [] {
      assert RowsOf(init + [r], trip)[0] == r;
      NewDebitOpens(init, r, trip);
    } else {
      assert RowsOf(init + [r], trip)[1] == r;
      NewCreditCloses(init, r, trip, plans[trip]);
    }
  }

  // --- The ledger over whole delivery histories ------------------------------

  /** The payments of each trip name one rider, one driver and one amount. */
  predicate OnePlanPerTrip(ds: seq<Delivery>, plans: map<string, Plan>) {
    forall i :: 0 <= i < |ds| && !Skipped(ds[i].payment) ==>
      ds[i].payment.trip in plans && Matches(ds[i].payment, plans[ds[i].payment.trip])
  }

  /** After any history of deliveries, in any order, repeated and interrupted anywhere, the table follows the plans. */
  lemma {:induction false} ReplayFollowsPlans(ds: seq<Delivery>, plans: map<string, Plan>)
    requires OnePlanPerTrip(ds, plans)
    ensures FollowsPlans(Replay(ds), plans)
  {
    if ds != [] {
      var init := ds[..|ds| - 1];
      forall i | 0 <= i < |init| ensures init[i] == ds[i] {}
      ReplayFollowsPlans(init, plans);
      DeliverFollowsPlans(Replay(init), ds[|ds| - 1], plans);
    }
  }
}
