/** The finance dashboards: GROUP BY queries over the transactions table, and why they agree. */
module RevenueViews {
  import opened Prelude
  import opened Ledger
  import opened Selections
  import DoubleEntry
  import Text

  /** A row of a GROUP BY query: the key, SUM(amount_cents), COUNT(*), COUNT(DISTINCT source_trip_id)
      and COUNT(DISTINCT user_id). */
  datatype Group = Group(key: string, sum: int, count: int, trips: int, users: int)

  /** Rider debits only: the platform's revenue. */
  function Revenue(range: Range): Selection { Selection(None, None, Some(Debit), range) }

  function DriverIncome(range: Range): Selection { Selection(None, None, Some(Credit), range) }

  function RegionKey(r: Row): string { r.region }

  /** COALESCE(NULLIF(TRIM(package_slug),''), ''); SQL's TRIM removes blanks only. */
  function PackageKey(r: Row): string {
    if r.slug.None? then "" else SqlTrim(r.slug.value)
  }

  function SqlTrim(s: string): string {
    if s != [] && s[0] == ' ' then SqlTrim(s[1..])
    else if s != [] && s[|s| - 1] == ' ' then SqlTrim(s[..|s| - 1])
    else s
  }

  predicate InGroup(r: Row, s: Selection, key: Row -> string, k: string) {
    Selects(s, r) && key(r) == k
  }

  function GroupSum(rows: seq<Row>, s: Selection, key: Row -> string, k: string): int {
    if rows == [] then 0
    else GroupSum(rows[..|rows| - 1], s, key, k) + if InGroup(rows[|rows| - 1], s, key, k) then rows[|rows| - 1].amount else 0
  }

  function GroupCount(rows: seq<Row>, s: Selection, key: Row -> string, k: string): nat {
    if rows == [] then 0
    else GroupCount(rows[..|rows| - 1], s, key, k) + if InGroup(rows[|rows| - 1], s, key, k) then 1 else 0
  }

  function GroupTrips(rows: seq<Row>, s: Selection, key: Row -> string, k: string): set<string> {
    set r | r in rows && InGroup(r, s, key, k) && r.trip.Some? :: r.trip.value
  }

  function GroupUsers(rows: seq<Row>, s: Selection, key: Row -> string, k: string): set<string> {
    set r | r in rows && InGroup(r, s, key, k) :: r.user
  }

  function CountOf(rows: seq<Row>, s: Selection): nat {
    if rows == [] then 0 else CountOf(rows[..|rows| - 1], s) + if Selects(s, rows[|rows| - 1]) then 1 else 0
  }

  predicate HasGroup(groups: seq<Group>, k: string) {
    exists i :: 0 <= i < |groups| && groups[i].key == k
  }

  predicate DistinctKeys(groups: seq<Group>) {
    forall i, j :: 0 <= i < j < |groups| ==> groups[i].key != groups[j].key
  }

  /** What SQL promises of SELECT key, SUM, COUNT, ... WHERE s GROUP BY key, in any order of the groups. */
  predicate GroupedBy(groups: seq<Group>, rows: seq<Row>, s: Selection, key: Row -> string) {
    && DistinctKeys(groups)
    && (forall r :: r in rows && Selects(s, r) ==> HasGroup(groups, key(r)))
    && (forall i :: 0 <= i < |groups| ==>
          && groups[i].sum == GroupSum(rows, s, key, groups[i].key)
          && groups[i].count == GroupCount(rows, s, key, groups[i].key)
          && groups[i].trips == |GroupTrips(rows, s, key, groups[i].key)|
          && groups[i].users == |GroupUsers(rows, s, key, groups[i].key)| > 0)
  }

  function TotalSum(groups: seq<Group>): int {
    if groups == [] then 0 else TotalSum(groups[..|groups| - 1]) + groups[|groups| - 1].sum
  }

  function TotalCount(groups: seq<Group>): int {
    if groups == [] then 0 else TotalCount(groups[..|groups| - 1]) + groups[|groups| - 1].count
  }

  function TotalTrips(groups: seq<Group>): int {
    if groups == [] then 0 else TotalTrips(groups[..|groups| - 1]) + groups[|groups| - 1].trips
  }

  // --- Sums over distinct keys ---------------------------------------------

  function SumOverKeys(groups: seq<Group>, rows: seq<Row>, s: Selection, key: Row -> string): int {
    if groups == [] then 0
    else SumOverKeys(groups[..|groups| - 1], rows, s, key) + GroupSum(rows, s, key, groups[|groups| - 1].key)
  }

  function CountOverKeys(groups: seq<Group>, rows: seq<Row>, s: Selection, key: Row -> string): int {
    if groups == [] then 0
    else CountOverKeys(groups[..|groups| - 1], rows, s, key) + GroupCount(rows, s, key, groups[|groups| - 1].key)
  }

  function TripsOverKeys(groups: seq<Group>, rows: seq<Row>, s: Selection, key: Row -> string): int {
    if groups == [] then 0
    else TripsOverKeys(groups[..|groups| - 1], rows, s, key) + |GroupTrips(rows, s, key, groups[|groups| - 1].key)|
  }

  /** Is r the first selected row of its trip within its group? */
  predicate FirstOfTrip(rows: seq<Row>, r: Row, s: Selection, key: Row -> string) {
    r.trip.Some? && r.trip.value !in GroupTrips(rows, s, key, key(r))
  }

  lemma GroupTripsAppend(rows: seq<Row>, r: Row, s: Selection, key: Row -> string, k: string)
    ensures GroupTrips(rows + [r], s, key, k) ==
            GroupTrips(rows, s, key, k) + if InGroup(r, s, key, k) && r.trip.Some? then {r.trip.value} else {}
  {
    var before, after := GroupTrips(rows, s, key, k), GroupTrips(rows + [r], s, key, k);
    assert r in rows + [r];
    forall t | t in before ensures t in after {
      var q :| q in rows && InGroup(q, s, key, k) && q.trip.Some? && q.trip.value == t;
      assert q in rows + [r];
    }
    forall t | t in after && t !in before ensures InGroup(r, s, key, k) && r.trip == Some(t) {
      var q :| q in rows + [r] && InGroup(q, s, key, k) && q.trip.Some? && q.trip.value == t;
      assert q in rows || q == r;
    }
  }

  lemma OneGroupMoreRow(rows: seq<Row>, r: Row, s: Selection, key: Row -> string, k: string)
    ensures var mine := Selects(s, r) && key(r) == k;
            && GroupSum(rows + [r], s, key, k) == GroupSum(rows, s, key, k) + (if mine then r.amount else 0)
            && GroupCount(rows + [r], s, key, k) == GroupCount(rows, s, key, k) + (if mine then 1 else 0)
            && |GroupTrips(rows + [r], s, key, k)| ==
               |GroupTrips(rows, s, key, k)| + (if mine && FirstOfTrip(rows, r, s, key) then 1 else 0)
  {
    assert (rows + [r])[..|rows|] == rows;
    GroupTripsAppend(rows, r, s, key, k);
    var before := GroupTrips(rows, s, key, k);
    if InGroup(r, s, key, k) && r.trip.Some? && r.trip.value in before {
      assert before + {r.trip.value} == before;
    }
  }

  lemma HasGroupInInit(groups: seq<Group>, k: string)
    requires groups != [] && DistinctKeys(groups)
    ensures HasGroup(groups, k) <==> HasGroup(groups[..|groups| - 1], k) || groups[|groups| - 1].key == k
    ensures groups[|groups| - 1].key == k ==> !HasGroup(groups[..|groups| - 1], k)
  {
    var init := groups[..|groups| - 1];
    if HasGroup(groups, k) {
      var i :| 0 <= i < |groups| && groups[i].key == k;
      assert i < |init| ==> init[i] == groups[i];
    }
  }

  /** One more row changes the group of its own key and no other. */
  lemma {:induction false} OneMoreRow(groups: seq<Group>, rows: seq<Row>, r: Row, s: Selection, key: Row -> string)
    requires DistinctKeys(groups)
    ensures var mine := Selects(s, r) && HasGroup(groups, key(r));
            && SumOverKeys(groups, rows + [r], s, key) == SumOverKeys(groups, rows, s, key) + (if mine then r.amount else 0)
            && CountOverKeys(groups, rows + [r], s, key) == CountOverKeys(groups, rows, s, key) + (if mine then 1 else 0)
            && TripsOverKeys(groups, rows + [r], s, key) ==
               TripsOverKeys(groups, rows, s, key) + (if mine && FirstOfTrip(rows, r, s, key) then 1 else 0)
  {
    if groups != [] {
      var init, g := groups[..|groups| - 1], groups[|groups| - 1];
      OneMoreRow(init, rows, r, s, key);
      OneGroupMoreRow(rows, r, s, key, g.key);
      HasGroupInInit(groups, key(r));
    }
  }

  lemma {:induction false} NothingToSum(groups: seq<Group>, s: Selection, key: Row -> string)
    ensures SumOverKeys(groups, [], s, key) == CountOverKeys(groups, [], s, key) == TripsOverKeys(groups, [], s, key) == 0
  {
    if groups != [] {
      NothingToSum(groups[..|groups| - 1], s, key);
      assert GroupTrips([], s, key, groups[|groups| - 1].key) == {};
    }
  }

  /** The selected rows that are the first of their trip in their group. */
  function FirstRows(rows: seq<Row>, s: Selection, key: Row -> string): nat {
    if rows == [] then 0
    else
      var init, r := rows[..|rows| - 1], rows[|rows| - 1];
      FirstRows(init, s, key) + if Selects(s, r) && FirstOfTrip(init, r, s, key) then 1 else 0
  }

  lemma {:induction false} KeysCoverRows(groups: seq<Group>, rows: seq<Row>, s: Selection, key: Row -> string)
    requires DistinctKeys(groups)
    requires forall r :: r in rows && Selects(s, r) ==> HasGroup(groups, key(r))
    ensures SumOverKeys(groups, rows, s, key) == SumOf(rows, s)
    ensures CountOverKeys(groups, rows, s, key) == CountOf(rows, s)
    ensures TripsOverKeys(groups, rows, s, key) == FirstRows(rows, s, key)
  {
    if rows == [] {
      NothingToSum(groups, s, key);
    } else {
      var init, r := rows[..|rows| - 1], rows[|rows| - 1];
      assert rows == init + [r];
      forall q | q in init && Selects(s, q) ensures HasGroup(groups, key(q)) {
        assert q in rows;
      }
      KeysCoverRows(groups, init, s, key);
      assert r in rows;
      OneMoreRow(groups, init, r, s, key);
    }
  }

  lemma {:induction false} TotalsAreOverKeys(groups: seq<Group>, rows: seq<Row>, s: Selection, key: Row -> string)
    requires forall i :: 0 <= i < |groups| ==>
               && groups[i].sum == GroupSum(rows, s, key, groups[i].key)
               && groups[i].count == GroupCount(rows, s, key, groups[i].key)
               && groups[i].trips == |GroupTrips(rows, s, key, groups[i].key)|
    ensures TotalSum(groups) == SumOverKeys(groups, rows, s, key)
    ensures TotalCount(groups) == CountOverKeys(groups, rows, s, key)
    ensures TotalTrips(groups) == TripsOverKeys(groups, rows, s, key)
  {
    if groups != [] {
      TotalsAreOverKeys(groups[..|groups| - 1], rows, s, key);
    }
  }

  // --- The views agree --------------------------------------------------------

  /** Any GROUP BY of the same rows adds up to the ungrouped SUM and COUNT, whatever the key. */
  lemma GroupsAddUp(groups: seq<Group>, rows: seq<Row>, s: Selection, key: Row -> string)
    requires GroupedBy(groups, rows, s, key)
    ensures TotalSum(groups) == SumOf(rows, s)
    ensures TotalCount(groups) == CountOf(rows, s)
    ensures TotalTrips(groups) == FirstRows(rows, s, key)
  {
    KeysCoverRows(groups, rows, s, key);
    TotalsAreOverKeys(groups, rows, s, key);
  }

  /** GlobalRevenue's total, its trend buckets, the regions and the packages show one and the same revenue,
      for every table, date range and calendar; the regions' counts add up to the number of debit rows. */
  lemma RevenueViewsAgree(rows: seq<Row>, range: Range, period: Row -> string,
                          trend: seq<Group>, regions: seq<Group>, packages: seq<Group>)
    requires GroupedBy(trend, rows, Revenue(range), period)
    requires GroupedBy(regions, rows, Revenue(range), RegionKey)
    requires GroupedBy(packages, rows, Revenue(range), PackageKey)
    ensures SumOf(rows, Revenue(range)) == TotalSum(trend) == TotalSum(regions) == TotalSum(packages)
    ensures TotalCount(regions) == CountOf(rows, Revenue(range))
  {
    GroupsAddUp(trend, rows, Revenue(range), period);
    GroupsAddUp(regions, rows, Revenue(range), RegionKey);
    GroupsAddUp(packages, rows, Revenue(range), PackageKey);
  }

  /** No two selected rows of one group share their trip, and every selected row names one. */
  predicate OneRowPerTrip(rows: seq<Row>, s: Selection, key: Row -> string) {
    && (forall i :: 0 <= i < |rows| && Selects(s, rows[i]) ==> rows[i].trip.Some?)
    && (forall i, j :: 0 <= i < j < |rows| && Selects(s, rows[i]) && Selects(s, rows[j]) && key(rows[i]) == key(rows[j]) ==>
          rows[i].trip != rows[j].trip)
  }

  lemma FirstOfTripMeans(rows: seq<Row>, r: Row, s: Selection, key: Row -> string)
    ensures FirstOfTrip(rows, r, s, key) <==>
            r.trip.Some? && forall i :: 0 <= i < |rows| && Selects(s, rows[i]) && key(rows[i]) == key(r) ==> rows[i].trip != r.trip
  {
    if r.trip.Some? && r.trip.value in GroupTrips(rows, s, key, key(r)) {
      var q :| q in rows && InGroup(q, s, key, key(r)) && q.trip.Some? && q.trip.value == r.trip.value;
      var i :| 0 <= i < |rows| && rows[i] == q;
    } else {
      forall i | 0 <= i < |rows| && Selects(s, rows[i]) && key(rows[i]) == key(r) && r.trip.Some?
        ensures rows[i].trip != r.trip
      {
        assert rows[i] in rows && InGroup(rows[i], s, key, key(r));
      }
    }
  }

  lemma {:induction false} FirstRowsMeans(rows: seq<Row>, s: Selection, key: Row -> string)
    ensures FirstRows(rows, s, key) <= CountOf(rows, s)
    ensures FirstRows(rows, s, key) == CountOf(rows, s) <==> OneRowPerTrip(rows, s, key)
  {
    if rows != [] {
      var init, r := rows[..|rows| - 1], rows[|rows| - 1];
      FirstRowsMeans(init, s, key);
      FirstOfTripMeans(init, r, s, key);
      assert OneRowPerTrip(rows, s, key) <==>
             OneRowPerTrip(init, s, key) && (Selects(s, r) ==> FirstOfTrip(init, r, s, key)) by {
        assert forall i :: 0 <= i < |init| ==> init[i] == rows[i];
      }
    }
  }

  /** The packages' trip counts add up to the number of debit rows exactly when no trip has two debit rows
      in one package and every debit names its trip. */
  lemma TripCountsAddUpIff(rows: seq<Row>, range: Range, packages: seq<Group>)
    requires GroupedBy(packages, rows, Revenue(range), PackageKey)
    ensures TotalTrips(packages) <= CountOf(rows, Revenue(range))
    ensures TotalTrips(packages) == CountOf(rows, Revenue(range)) <==> OneRowPerTrip(rows, Revenue(range), PackageKey)
  {
    GroupsAddUp(packages, rows, Revenue(range), PackageKey);
    FirstRowsMeans(rows, Revenue(range), PackageKey);
  }

  /** They do in every ledger where each trip has one rider, driver and amount. */
  lemma TripCountsAddUp(rows: seq<Row>, plans: map<string, DoubleEntry.Plan>, range: Range, packages: seq<Group>)
    requires UniqueKeys(rows) && DoubleEntry.FollowsPlans(rows, plans)
    requires GroupedBy(packages, rows, Revenue(range), PackageKey)
    ensures TotalTrips(packages) == CountOf(rows, Revenue(range))
  {
    forall i, j | 0 <= i < j < |rows| && rows[i].kind == Debit && rows[j].kind == Debit
      ensures rows[i].trip.Some? && rows[i].trip != rows[j].trip
    {
      DebitIsTheRiders(rows, plans, i);
      DebitIsTheRiders(rows, plans, j);
    }
    assert forall i :: 0 <= i < |rows| ==> rows[i] in rows && rows[i].trip.Some?;
    assert OneRowPerTrip(rows, Revenue(range), PackageKey);
    TripCountsAddUpIff(rows, range, packages);
  }

  lemma DebitIsTheRiders(rows: seq<Row>, plans: map<string, DoubleEntry.Plan>, i: nat)
    requires DoubleEntry.FollowsPlans(rows, plans) && i < |rows| && rows[i].kind == Debit
    ensures rows[i].trip.Some? && rows[i].trip.value in plans && rows[i].user == plans[rows[i].trip.value].rider
  {
    assert rows[i] in rows;
    var trip := rows[i].trip.value;
    DoubleEntry.RowsOfMembers(rows, trip, rows[i]);
    var own := DoubleEntry.RowsOf(rows, trip);
    assert DoubleEntry.TripRows(own, plans[trip]);
    var j :| 0 <= j < |own| && own[j] == rows[i];
  }

  // --- From a payment to the dashboards -------------------------------------------

  lemma NoBlankAtTheEnds(s: string)
    requires Text.Trimmed(s)
    ensures SqlTrim(s) == s
  {
    assert Text.IsSpace(' ');
  }

  lemma PackageKeyOf(r: Row, slug: string)
    requires r.slug == SlugColumn(slug)
    ensures PackageKey(r) == Text.Trim(Text.ToLower(slug))
  {
    var i, j := Text.TrimCutsTheEnds(Text.ToLower(slug));
    NoBlankAtTheEnds(Text.Trim(Text.ToLower(slug)));
  }

  /** What a table that has no row of the payment's trip holds after one complete delivery. */
  lemma FreshDelivery(rows: seq<Row>, p: Payment, debit: Stamp, credit: Stamp)
    requires !Skipped(p) && p.driver != "" && p.driver != p.rider && forall r :: r in rows ==> r.trip != Some(p.trip)
    ensures Deliver(rows, Delivery(p, 2, debit, credit)) == (rows + [DebitRow(p, debit)]) + [CreditRow(p, credit)]
  {
    var d, c := DebitRow(p, debit), CreditRow(p, credit);
    assert !HasRow(rows, d.trip, d.user);
    assert forall r :: r in rows + [d] ==> r in rows || r == d;
    assert !HasRow(rows + [d], c.trip, c.user) by {
      forall i | 0 <= i < |rows + [d]| ensures (rows + [d])[i].trip == c.trip ==> (rows + [d])[i].user != c.user {
        assert (rows + [d])[i] in rows + [d];
      }
    }
  }

  /** One complete delivery of a new trip's payment adds its amount once to the platform's revenue under its own
      region, "unspecified" if it has none, and under its own package, and under no other. */
  lemma PaymentIsRevenueOnce(rows: seq<Row>, p: Payment, debit: Stamp, credit: Stamp, after: seq<Row>, k: string)
    requires p.trip != "" && p.rider != "" && p.amount > 0 && p.driver != "" && p.driver != p.rider
    requires forall r :: r in rows ==> r.trip != Some(p.trip)
    requires after == Deliver(rows, Delivery(p, 2, debit, credit))
    ensures GroupSum(after, Revenue(ALL_TIME), RegionKey, k) == GroupSum(rows, Revenue(ALL_TIME), RegionKey, k)
            + if k == (if p.region == "" then "unspecified" else p.region) then p.amount else 0
    ensures GroupSum(after, Revenue(ALL_TIME), PackageKey, k) == GroupSum(rows, Revenue(ALL_TIME), PackageKey, k)
            + if k == Text.Trim(Text.ToLower(p.slug)) then p.amount else 0
  {
    var d, c := DebitRow(p, debit), CreditRow(p, credit);
    FreshDelivery(rows, p, debit, credit);
    PackageKeyOf(d, p.slug);
    OneGroupMoreRow(rows, d, Revenue(ALL_TIME), RegionKey, k);
    OneGroupMoreRow(rows + [d], c, Revenue(ALL_TIME), RegionKey, k);
    OneGroupMoreRow(rows, d, Revenue(ALL_TIME), PackageKey, k);
    OneGroupMoreRow(rows + [d], c, Revenue(ALL_TIME), PackageKey, k);
  }

  /** It adds the amount once to the expense of its rider and to the income of its driver, and to nobody else's. */
  lemma PaymentMovesMoneyOnce(rows: seq<Row>, p: Payment, debit: Stamp, credit: Stamp, after: seq<Row>, k: string)
    requires p.trip != "" && p.rider != "" && p.amount > 0 && p.driver != "" && p.driver != p.rider
    requires forall r :: r in rows ==> r.trip != Some(p.trip)
    requires after == Deliver(rows, Delivery(p, 2, debit, credit))
    ensures Expense(after, k, ALL_TIME) == Expense(rows, k, ALL_TIME) + if k == p.rider then p.amount else 0
    ensures Income(after, k, ALL_TIME) == Income(rows, k, ALL_TIME) + if k == p.driver then p.amount else 0
  {
    var d, c := DebitRow(p, debit), CreditRow(p, credit);
    FreshDelivery(rows, p, debit, credit);
    SumOfAppend(rows, d, OfUser(k, Debit, ALL_TIME));
    SumOfAppend(rows + [d], c, OfUser(k, Debit, ALL_TIME));
    SumOfAppend(rows, d, OfUser(k, Credit, ALL_TIME));
    SumOfAppend(rows + [d], c, OfUser(k, Credit, ALL_TIME));
  }

  /** In an empty table the payment is all there is. */
  lemma FirstPaymentIsAllTheRevenue(p: Payment, debit: Stamp, credit: Stamp, after: seq<Row>)
    requires p.trip != "" && p.rider != "" && p.amount > 0 && p.driver != "" && p.driver != p.rider && p.region != ""
    requires after == Deliver([], Delivery(p, 2, debit, credit))
    ensures GroupSum(after, Revenue(ALL_TIME), RegionKey, p.region) == p.amount
    ensures GroupSum(after, Revenue(ALL_TIME), PackageKey, Text.Trim(Text.ToLower(p.slug))) == p.amount
    ensures Net(after, p.rider, ALL_TIME) == -p.amount && Net(after, p.driver, ALL_TIME) == p.amount
  {
    PaymentIsRevenueOnce([], p, debit, credit, after, p.region);
    PaymentIsRevenueOnce([], p, debit, credit, after, Text.Trim(Text.ToLower(p.slug)));
    PaymentMovesMoneyOnce([], p, debit, credit, after, p.rider);
    PaymentMovesMoneyOnce([], p, debit, credit, after, p.driver);
  }

  // --- CategoryInsights ---------------------------------------------------------

  /** One line of the package dashboard. */
  datatype Insight = Insight(slug: string, amount: int, trips: int, riders: int, drivers: int)

  /** The map from package to distinct drivers, filled from the second query's rows. */
  method DriversByPackage(groups: seq<Group>) returns (drivers: map<string, int>)
    requires DistinctKeys(groups)
    ensures forall k :: k in drivers <==> HasGroup(groups, k)
    ensures forall i :: 0 <= i < |groups| ==> groups[i].key in drivers && drivers[groups[i].key] == groups[i].users
  {
    drivers := map[];
    for i := 0 to |groups|
      invariant forall k :: k in drivers <==> HasGroup(groups[..i], k)
      invariant forall j :: 0 <= j < i ==> groups[j].key in drivers && drivers[groups[j].key] == groups[j].users
    {
      drivers := drivers[groups[i].key := groups[i].users];
      assert groups[..i + 1] == groups[..i] + [groups[i]];
      forall k ensures k in drivers <==> HasGroup(groups[..i + 1], k) {
        if HasGroup(groups[..i], k) {
          var j :| 0 <= j < i && groups[..i][j].key == k;
          assert groups[..i + 1][j].key == k;
        }
        assert groups[..i + 1][i] == groups[i];
      }
    }
    assert groups[..|groups|] == groups;
  }

  /** Joins the debit groups with the number of distinct drivers credited under the same package, zero if none. */
  method CategoryInsights(ghost rows: seq<Row>, ghost range: Range, debits: seq<Group>, credits: seq<Group>)
    returns (out: seq<Insight>)
    requires GroupedBy(debits, rows, Revenue(range), PackageKey)
    requires GroupedBy(credits, rows, DriverIncome(range), PackageKey)
    ensures |out| == |debits|
    ensures forall i :: 0 <= i < |out| ==>
              && out[i].slug == debits[i].key
              && out[i].amount == GroupSum(rows, Revenue(range), PackageKey, out[i].slug)
              && out[i].trips == |GroupTrips(rows, Revenue(range), PackageKey, out[i].slug)|
              && out[i].riders == |GroupUsers(rows, Revenue(range), PackageKey, out[i].slug)|
              && out[i].drivers == |GroupUsers(rows, DriverIncome(range), PackageKey, out[i].slug)|
  {
    var drivers := DriversByPackage(credits);
    out := [];
    for i := 0 to |debits|
      invariant |out| == i
      invariant forall j :: 0 <= j < i ==>
                  && out[j].slug == debits[j].key
                  && out[j].amount == debits[j].sum
                  && out[j].trips == debits[j].trips
                  && out[j].riders == debits[j].users
                  && out[j].drivers == |GroupUsers(rows, DriverIncome(range), PackageKey, out[j].slug)|
    {
      var a := debits[i];
      var count := if a.key in drivers then drivers[a.key] else 0;
      DriverCount(rows, range, credits, a.key, drivers);
      out := out + [Insight(a.key, a.sum, a.trips, a.users, count)];
    }
  }

  lemma DriverCount(rows: seq<Row>, range: Range, credits: seq<Group>, k: string, drivers: map<string, int>)
    requires GroupedBy(credits, rows, DriverIncome(range), PackageKey)
    requires forall x :: x in drivers <==> HasGroup(credits, x)
    requires forall i :: 0 <= i < |credits| ==> credits[i].key in drivers && drivers[credits[i].key] == credits[i].users
    ensures (if k in drivers then drivers[k] else 0) == |GroupUsers(rows, DriverIncome(range), PackageKey, k)|
  {
    if HasGroup(credits, k) {
      var i :| 0 <= i < |credits| && credits[i].key == k;
    } else {
      assert GroupUsers(rows, DriverIncome(range), PackageKey, k) == {};
    }
  }
}
