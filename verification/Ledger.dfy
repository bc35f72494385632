/** The finance ledger: idempotent recording of a trip's payment, and double entry. */
module Ledger {
  import opened Prelude
  import Text

  datatype Kind = Debit | Credit

  /** A row of the transactions table; `trip` and `slug` are nullable columns. */
  datatype Row = Row(id: nat, user: string, amount: int, currency: string, kind: Kind, region: string,
                     status: string, trip: Option<string>, slug: Option<string>, at: int)

  /** The arguments of RecordTripPayment, as carried by a payment success event. */
  datatype Payment = Payment(rider: string, driver: string, amount: int, currency: string, region: string,
                             trip: string, slug: string)

  /** uuid.New() and the column default now(). */
  datatype Stamp = Stamp(id: nat, at: int)

  // --- One payment -------------------------------------------------------

  predicate Skipped(p: Payment) {
    p.trip == "" || p.rider == "" || p.amount <= 0
  }

  predicate HasDriverSide(p: Payment) {
    p.driver != "" && p.driver != p.rider
  }

  /** The package as the ledger writes it: trimmed, in lower case, NULL if blank. */
  function SlugColumn(slug: string): Option<string> {
    var text := Text.Trim(Text.ToLower(slug));
    if text == "" then None else Some(text)
  }

  function RowFor(p: Payment, user: string, kind: Kind, st: Stamp): Row {
    Row(st.id, user, p.amount,
        if p.currency == "" then "usd" else Text.ToLower(p.currency),
        kind,
        if p.region == "" then "unspecified" else p.region,
        "completed", Some(p.trip),
        SlugColumn(p.slug),
        st.at)
  }

  /** Column by column: a completed debit of the rider, or a credit of a driver who is someone else, with the
      payment's trip and amount; the currency and the package in lower case; US dollars, no region and no package
      where none is given. */
  predicate IsPostingOf(r: Row, p: Payment) {
    && r.trip == Some(p.trip) && r.amount == p.amount && r.status == "completed"
    && ((r.kind == Debit && r.user == p.rider) || (r.kind == Credit && r.user == p.driver && p.driver != "" && p.driver != p.rider))
    && (if p.currency == "" then r.currency == "usd" else r.currency == Text.ToLower(p.currency))
    && (if p.region == "" then r.region == "unspecified" else r.region == p.region)
    && (if Text.Trim(Text.ToLower(p.slug)) == "" then r.slug.None? else r.slug == Some(Text.Trim(Text.ToLower(p.slug))))
  }

  function DebitRow(p: Payment, st: Stamp): Row { RowFor(p, p.rider, Debit, st) }

  function CreditRow(p: Payment, st: Stamp): Row { RowFor(p, p.driver, Credit, st) }

  predicate HasRow(rows: seq<Row>, trip: Option<string>, user: string) {
    exists i :: 0 <= i < |rows| && rows[i].trip == trip && rows[i].user == user
  }

  /** INSERT ... WHERE NOT EXISTS, atomic thanks to the unique index on (source_trip_id, user_id). */
  function InsertIfAbsent(rows: seq<Row>, row: Row): seq<Row> {
    if HasRow(rows, row.trip, row.user) then rows else rows + [row]
  }

  /** What a table holds after an insert whose fate is `io`. */
  function AfterInsert(rows: seq<Row>, row: Row, io: Io): seq<Row> {
    if io.Failed? then rows else InsertIfAbsent(rows, row)
  }

  /** How many of a payment's two inserts take effect. */
  function InsertsMade(debitIo: Io, creditIo: Io): nat {
    if debitIo.Failed? then 0 else if debitIo.Unconfirmed? || creditIo.Failed? then 1 else 2
  }

  /** Nothing was left undone. */
  predicate Recorded(p: Payment, debitIo: Io, creditIo: Io) {
    Skipped(p) || (debitIo.Done? && (HasDriverSide(p) ==> creditIo.Done?))
  }

  class PostgresLedger {
    var rows: seq<Row>

    constructor ()
      ensures rows == []
    {
      rows := [];
    }

    method Insert(row: Row, io: Io) returns (ok: bool)
      modifies this
      ensures rows == AfterInsert(old(rows), row, io)
      ensures ok <==> io.Done?
    {
      if !io.Failed? {
        var i := 0;
        while i < |rows| && !(rows[i].trip == row.trip && rows[i].user == row.user)
          invariant 0 <= i <= |rows|
          invariant forall j :: 0 <= j < i ==> !(rows[j].trip == row.trip && rows[j].user == row.user)
        {
          i := i + 1;
        }
        if i == |rows| {
          rows := rows + [row];
        }
      }
      ok := io.Done?;
    }

    /** The rider's debit first, then the driver's credit; each insert may fail or go unconfirmed. A debit that
        does not report success returns before the credit is tried. */
    method RecordTripPayment(p: Payment, debitIo: Io, creditIo: Io, debitStamp: Stamp, creditStamp: Stamp)
      returns (ok: bool)
      modifies this
      ensures ok <==> Recorded(p, debitIo, creditIo)
      ensures rows == Deliver(old(rows), Delivery(p, InsertsMade(debitIo, creditIo), debitStamp, creditStamp))
      ensures ok <==>
                || p.trip == "" || p.rider == "" || p.amount <= 0
                || (debitIo.Done? && (p.driver == "" || p.driver == p.rider || creditIo.Done?))
      ensures p.trip == "" || p.rider == "" || p.amount <= 0 ==> rows == old(rows)
      ensures ok && p.trip != "" && p.rider != "" && p.amount > 0 ==>
                && HasPosting(rows, p.trip, p.rider) && (p.driver != "" ==> HasPosting(rows, p.trip, p.driver))
      ensures old(rows) <= rows && |rows| <= |old(rows)| + 2
      ensures forall i :: |old(rows)| <= i < |rows| ==> IsPostingOf(rows[i], p)
    {
      ghost var d := Delivery(p, InsertsMade(debitIo, creditIo), debitStamp, creditStamp);
      DeliverAddsPostings(rows, d);
      if !Skipped(p) && d.inserts >= 1 {
        DeliverMakesPresent(rows, d);
      }
      if p.trip == "" || p.rider == "" || p.amount <= 0 {
        return true;
      }
      ok := Insert(DebitRow(p, debitStamp), debitIo);
      if !ok {
        return;
      }
      if p.driver == "" || p.driver == p.rider {
        return true;
      }
      ok := Insert(CreditRow(p, creditStamp), creditIo);
    }
  }

  lemma DebitIsPosting(p: Payment, st: Stamp)
    ensures IsPostingOf(DebitRow(p, st), p)
  {
  }

  lemma CreditIsPosting(p: Payment, st: Stamp)
    requires HasDriverSide(p)
    ensures IsPostingOf(CreditRow(p, st), p)
  {
  }

  lemma InsertAdds(rows: seq<Row>, row: Row, p: Payment)
    requires IsPostingOf(row, p)
    ensures var after := InsertIfAbsent(rows, row);
            && rows <= after && |after| <= |rows| + 1
            && forall i :: |rows| <= i < |after| ==> IsPostingOf(after[i], p)
  {
  }

  lemma DeliverAddsPostings(rows: seq<Row>, d: Delivery)
    ensures var after := Deliver(rows, d);
            && rows <= after && |after| <= |rows| + 2
            && forall i :: |rows| <= i < |after| ==> IsPostingOf(after[i], d.payment)
  {
    var p := d.payment;
    if !Skipped(p) && d.inserts > 0 {
      DebitIsPosting(p, d.debitStamp);
      InsertAdds(rows, DebitRow(p, d.debitStamp), p);
      if d.inserts > 1 && HasDriverSide(p) {
        CreditIsPosting(p, d.creditStamp);
        InsertAdds(InsertIfAbsent(rows, DebitRow(p, d.debitStamp)), CreditRow(p, d.creditStamp), p);
      }
    }
  }

  predicate HasPosting(rows: seq<Row>, trip: string, user: string) {
    exists r :: r in rows && r.trip == Some(trip) && r.user == user
  }

  /** A delivery that gets as far leaves the rider's posting, and the driver's if there is one. */
  lemma DeliverMakesPresent(rows: seq<Row>, d: Delivery)
    requires !Skipped(d.payment) && d.inserts >= 1
    ensures HasPosting(Deliver(rows, d), d.payment.trip, d.payment.rider)
    ensures d.inserts >= 2 && HasDriverSide(d.payment) ==> HasPosting(Deliver(rows, d), d.payment.trip, d.payment.driver)
  {
    var posted := InsertIfAbsent(rows, DebitRow(d.payment, d.debitStamp));
    InsertMakesPresent(rows, DebitRow(d.payment, d.debitStamp));
    InsertMakesPresent(posted, CreditRow(d.payment, d.creditStamp));
  }

  lemma InsertMakesPresent(rows: seq<Row>, row: Row)
    ensures exists r :: r in InsertIfAbsent(rows, row) && r.trip == row.trip && r.user == row.user
    ensures forall r :: r in rows ==> r in InsertIfAbsent(rows, row)
  {
    var after := InsertIfAbsent(rows, row);
    if HasRow(rows, row.trip, row.user) {
      var i :| 0 <= i < |rows| && rows[i].trip == row.trip && rows[i].user == row.user;
      assert rows[i] in after;
    } else {
      assert row in after;
    }
  }

  // --- Exactly-once effect from at-least-once delivery ---------------------

  /** What identifies a posting; the id, the time and the descriptive columns are left aside. */
  datatype Entry = Entry(trip: string, user: string, kind: Kind, amount: int)

  function Entries(rows: seq<Row>): set<Entry> {
    set r | r in rows && r.trip.Some? :: Entry(r.trip.value, r.user, r.kind, r.amount)
  }

  /** The postings a payment asks for. */
  function Wants(p: Payment): set<Entry> {
    if Skipped(p) then {}
    else {Entry(p.trip, p.rider, Debit, p.amount)} +
         if HasDriverSide(p) then {Entry(p.trip, p.driver, Credit, p.amount)} else {}
  }

  /** One delivery of a payment event that crashes after `inserts` of its inserts (2: it runs to the end). */
  datatype Delivery = Delivery(payment: Payment, inserts: nat, debitStamp: Stamp, creditStamp: Stamp)

  predicate Complete(d: Delivery) { d.inserts >= 2 }

  function Deliver(rows: seq<Row>, d: Delivery): seq<Row> {
    if Skipped(d.payment) || d.inserts == 0 then rows
    else
      var posted := InsertIfAbsent(rows, DebitRow(d.payment, d.debitStamp));
      if d.inserts == 1 || !HasDriverSide(d.payment) then posted
      else InsertIfAbsent(posted, CreditRow(d.payment, d.creditStamp))
  }

  /** The table after a history of deliveries, oldest first. */
  function Replay(ds: seq<Delivery>): seq<Row> {
    if ds == [] then [] else Deliver(Replay(ds[..|ds| - 1]), ds[|ds| - 1])
  }

  /** The postings the deliveries actually reached. */
  function Reached(d: Delivery): set<Entry> {
    if Skipped(d.payment) || d.inserts == 0 then {}
    else if d.inserts == 1 then {Entry(d.payment.trip, d.payment.rider, Debit, d.payment.amount)}
    else Wants(d.payment)
  }

  function AllReached(ds: seq<Delivery>): set<Entry> {
    if ds == [] then {} else AllReached(ds[..|ds| - 1]) + Reached(ds[|ds| - 1])
  }

  function AllWanted(ds: seq<Delivery>): set<Entry> {
    if ds == [] then {} else AllWanted(ds[..|ds| - 1]) + Wants(ds[|ds| - 1].payment)
  }

  /** No two postings disagree about one (trip, user) key. */
  predicate Compatible(es: set<Entry>) {
    forall a, b :: a in es && b in es && a.trip == b.trip && a.user == b.user ==> a == b
  }

  predicate Mentions(ds: seq<Delivery>, p: Payment) {
    exists i :: 0 <= i < |ds| && ds[i].payment == p
  }

  predicate Completes(ds: seq<Delivery>, p: Payment) {
    exists i :: 0 <= i < |ds| && ds[i].payment == p && Complete(ds[i])
  }

  /** Every payment that is delivered at all is delivered to the end at least once. */
  predicate EventuallyComplete(ds: seq<Delivery>) {
    forall i :: 0 <= i < |ds| ==> Completes(ds, ds[i].payment)
  }

  /** The payment events of two histories are the same, whatever their order and multiplicity. */
  predicate SamePayments(ds: seq<Delivery>, es: seq<Delivery>) {
    && (forall i :: 0 <= i < |ds| ==> Mentions(es, ds[i].payment))
    && (forall i :: 0 <= i < |es| ==> Mentions(ds, es[i].payment))
  }

  lemma EntriesAppend(rows: seq<Row>, row: Row)
    requires row.trip.Some?
    ensures Entries(rows + [row]) == Entries(rows) + {Entry(row.trip.value, row.user, row.kind, row.amount)}
  {
    var e := Entry(row.trip.value, row.user, row.kind, row.amount);
    assert row in rows + [row];
    forall x | x in Entries(rows + [row]) ensures x in Entries(rows) + {e} {
      var r :| r in rows + [row] && r.trip.Some? && x == Entry(r.trip.value, r.user, r.kind, r.amount);
      assert r in rows || r == row;
    }
    forall x | x in Entries(rows) ensures x in Entries(rows + [row]) {
      var r :| r in rows && r.trip.Some? && x == Entry(r.trip.value, r.user, r.kind, r.amount);
      assert r in rows + [row];
    }
  }

  lemma InsertEntries(rows: seq<Row>, row: Row, e: Entry)
    requires row.trip.Some? && e == Entry(row.trip.value, row.user, row.kind, row.amount)
    requires Compatible(Entries(rows) + {e})
    ensures Entries(InsertIfAbsent(rows, row)) == Entries(rows) + {e}
  {
    if HasRow(rows, row.trip, row.user) {
      var i :| 0 <= i < |rows| && rows[i].trip == row.trip && rows[i].user == row.user;
      assert rows[i] in rows;
      var f := Entry(rows[i].trip.value, rows[i].user, rows[i].kind, rows[i].amount);
      assert f in Entries(rows) && f == e;
    } else {
      EntriesAppend(rows, row);
    }
  }

  lemma DeliverEntries(rows: seq<Row>, d: Delivery)
    requires Compatible(Entries(rows) + Wants(d.payment))
    ensures Entries(Deliver(rows, d)) == Entries(rows) + Reached(d)
  {
    var p := d.payment;
    if !Skipped(p) && d.inserts > 0 {
      var e := Entry(p.trip, p.rider, Debit, p.amount);
      assert e in Wants(p) && Entries(rows) + {e} <= Entries(rows) + Wants(p);
      InsertEntries(rows, DebitRow(p, d.debitStamp), e);
      if d.inserts > 1 && HasDriverSide(p) {
        var f := Entry(p.trip, p.driver, Credit, p.amount);
        assert Entries(rows) + {e} + {f} == Entries(rows) + Wants(p);
        InsertEntries(InsertIfAbsent(rows, DebitRow(p, d.debitStamp)), CreditRow(p, d.creditStamp), f);
      }
    }
  }

  lemma {:induction false} ReachedIsWanted(ds: seq<Delivery>)
    ensures AllReached(ds) <= AllWanted(ds)
  {
    if ds != [] {
      ReachedIsWanted(ds[..|ds| - 1]);
    }
  }

  /** The table holds exactly the postings reached, however often and in whatever order they were delivered. */
  lemma {:induction false} ReplayEntries(ds: seq<Delivery>)
    requires Compatible(AllWanted(ds))
    ensures Entries(Replay(ds)) == AllReached(ds)
  {
    if ds != [] {
      var init, d := ds[..|ds| - 1], ds[|ds| - 1];
      ReplayEntries(init);
      ReachedIsWanted(init);
      DeliverEntries(Replay(init), d);
    }
  }

  lemma {:induction false} WantedFrom(ds: seq<Delivery>, e: Entry) returns (i: nat)
    requires e in AllWanted(ds)
    ensures i < |ds| && e in Wants(ds[i].payment)
  {
    if e in Wants(ds[|ds| - 1].payment) {
      i := |ds| - 1;
    } else {
      i := WantedFrom(ds[..|ds| - 1], e);
    }
  }

  lemma {:induction false} WantedBy(ds: seq<Delivery>, i: nat)
    requires i < |ds|
    ensures Wants(ds[i].payment) <= AllWanted(ds)
  {
    if i < |ds| - 1 {
      WantedBy(ds[..|ds| - 1], i);
    }
  }

  lemma {:induction false} ReachedBy(ds: seq<Delivery>, i: nat)
    requires i < |ds|
    ensures Reached(ds[i]) <= AllReached(ds)
  {
    if i < |ds| - 1 {
      ReachedBy(ds[..|ds| - 1], i);
    }
  }

  lemma CompleteReachesAll(ds: seq<Delivery>, e: Entry)
    requires EventuallyComplete(ds) && e in AllWanted(ds)
    ensures e in AllReached(ds)
  {
    var i := WantedFrom(ds, e);
    assert Completes(ds, ds[i].payment);
    var j :| 0 <= j < |ds| && ds[j].payment == ds[i].payment && Complete(ds[j]);
    ReachedBy(ds, j);
  }

  lemma SameWanted(ds: seq<Delivery>, es: seq<Delivery>, e: Entry)
    requires SamePayments(ds, es) && e in AllWanted(ds)
    ensures e in AllWanted(es)
  {
    var i := WantedFrom(ds, e);
    assert Mentions(es, ds[i].payment);
    var j :| 0 <= j < |es| && es[j].payment == ds[i].payment;
    WantedBy(es, j);
  }

  /** Two histories of the same payment events, in any order, with any duplication and any crashes between
      the two inserts, leave the same postings, provided that every event is in the end run through once:
      namely all the postings the events ask for, and no other. */
  lemma DeliveriesConverge(ds: seq<Delivery>, es: seq<Delivery>)
    requires Compatible(AllWanted(ds))
    requires EventuallyComplete(ds) && EventuallyComplete(es) && SamePayments(ds, es)
    ensures Entries(Replay(ds)) == Entries(Replay(es)) == AllWanted(ds)
  {
    forall e | e in AllWanted(ds) ensures e in AllWanted(es) && e in AllReached(ds) {
      SameWanted(ds, es, e);
      CompleteReachesAll(ds, e);
    }
    forall e | e in AllWanted(es) ensures e in AllWanted(ds) && e in AllReached(es) {
      SameWanted(es, ds, e);
      CompleteReachesAll(es, e);
    }
    ReachedIsWanted(ds);
    ReachedIsWanted(es);
    assert AllWanted(ds) == AllWanted(es);
    assert AllReached(ds) == AllWanted(ds);
    assert AllReached(es) == AllWanted(es);
    ReplayEntries(ds);
    ReplayEntries(es);
  }

  /** A row apart from what is made up at the insert: its id and its time. */
  function Bare(r: Row): Row { r.(id := 0, at := 0) }

  function BareRows(rows: seq<Row>): set<Row> { set r | r in rows :: Bare(r) }

  /** The payment events of a trip name one currency, region and package, as the ledger writes them. */
  predicate SameDescription(p: Payment, q: Payment) {
    RowFor(p, "", Debit, Stamp(0, 0)).(amount := 0) == RowFor(q, "", Debit, Stamp(0, 0)).(amount := 0)
  }

  predicate Agree(p: Payment, q: Payment) {
    !Skipped(p) && !Skipped(q) && p.trip == q.trip ==> SameDescription(p, q)
  }

  predicate OneDescriptionPerTrip(ds: seq<Delivery>) {
    forall i, j :: 0 <= i < |ds| && 0 <= j < |ds| ==> Agree(ds[i].payment, ds[j].payment)
  }

  /** A row some delivery of p posts. */
  predicate IsRowOf(r: Row, p: Payment) {
    Bare(r) == Bare(DebitRow(p, Stamp(0, 0))) || Bare(r) == Bare(CreditRow(p, Stamp(0, 0)))
  }

  lemma DeliverPostsOwnRows(rows: seq<Row>, d: Delivery, r: Row)
    requires r in Deliver(rows, d)
    ensures r in rows || (IsRowOf(r, d.payment) && !Skipped(d.payment))
  {
  }

  /** Every row of the table was posted by one of the deliveries. */
  lemma {:induction false} RowComesFrom(ds: seq<Delivery>, r: Row) returns (i: nat)
    requires r in Replay(ds)
    ensures i < |ds| && IsRowOf(r, ds[i].payment) && !Skipped(ds[i].payment)
  {
    var n := |ds| - 1;
    DeliverPostsOwnRows(Replay(ds[..n]), ds[n], r);
    if r in Replay(ds[..n]) {
      i := RowComesFrom(ds[..n], r);
    } else {
      i := n;
    }
  }

  /** Rows of one posting, made by events of one description, differ in id and time only. */
  lemma SamePostingSameRow(r: Row, q: Row, p: Payment, o: Payment)
    requires IsRowOf(r, p) && IsRowOf(q, o) && !Skipped(p) && !Skipped(o) && Agree(p, o)
    requires r.trip == q.trip && r.user == q.user && r.kind == q.kind && r.amount == q.amount
    ensures Bare(r) == Bare(q)
  {
    assert Bare(r) == RowFor(p, r.user, r.kind, Stamp(0, 0));
    assert Bare(q) == RowFor(o, q.user, q.kind, Stamp(0, 0));
  }

  lemma EntryHasRow(rows: seq<Row>, e: Entry) returns (r: Row)
    requires e in Entries(rows)
    ensures r in rows && r.trip.Some? && e == Entry(r.trip.value, r.user, r.kind, r.amount)
  {
    r :| r in rows && r.trip.Some? && e == Entry(r.trip.value, r.user, r.kind, r.amount);
  }

  lemma RowIsAmong(ds: seq<Delivery>, es: seq<Delivery>, r: Row)
    requires Entries(Replay(ds)) == Entries(Replay(es)) && SamePayments(ds, es) && OneDescriptionPerTrip(ds)
    requires r in Replay(ds)
    ensures Bare(r) in BareRows(Replay(es))
  {
    var i := RowComesFrom(ds, r);
    assert Entry(r.trip.value, r.user, r.kind, r.amount) in Entries(Replay(ds));
    var q := EntryHasRow(Replay(es), Entry(r.trip.value, r.user, r.kind, r.amount));
    var j := RowComesFrom(es, q);
    assert Mentions(ds, es[j].payment);
    var k :| 0 <= k < |ds| && ds[k].payment == es[j].payment;
    SamePostingSameRow(r, q, ds[i].payment, es[j].payment);
  }

  lemma DescriptionsCarryOver(ds: seq<Delivery>, es: seq<Delivery>)
    requires SamePayments(ds, es) && OneDescriptionPerTrip(ds)
    ensures OneDescriptionPerTrip(es)
  {
    forall i, j | 0 <= i < |es| && 0 <= j < |es| ensures Agree(es[i].payment, es[j].payment) {
      assert Mentions(ds, es[i].payment) && Mentions(ds, es[j].payment);
      var a :| 0 <= a < |ds| && ds[a].payment == es[i].payment;
      var b :| 0 <= b < |ds| && ds[b].payment == es[j].payment;
    }
  }

  /** If moreover the events of a trip agree on currency, region and package, the two tables agree in every
      column but the ids and times of their rows. */
  lemma RowsConverge(ds: seq<Delivery>, es: seq<Delivery>)
    requires Compatible(AllWanted(ds)) && OneDescriptionPerTrip(ds)
    requires EventuallyComplete(ds) && EventuallyComplete(es) && SamePayments(ds, es)
    ensures BareRows(Replay(ds)) == BareRows(Replay(es))
  {
    DeliveriesConverge(ds, es);
    DescriptionsCarryOver(ds, es);
    forall r | r in Replay(ds) ensures Bare(r) in BareRows(Replay(es)) { RowIsAmong(ds, es, r); }
    forall r | r in Replay(es) ensures Bare(r) in BareRows(Replay(ds)) { RowIsAmong(es, ds, r); }
  }

  /** At most one row for each trip and user. */
  predicate UniqueKeys(rows: seq<Row>) {
    forall i, j :: 0 <= i < j < |rows| && rows[i].trip == rows[j].trip && rows[i].trip.Some? ==> rows[i].user != rows[j].user
  }

  lemma InsertKeepsUniqueKeys(rows: seq<Row>, row: Row)
    requires UniqueKeys(rows)
    ensures UniqueKeys(InsertIfAbsent(rows, row))
  {
  }

  /** The unique index on (source_trip_id, user_id) is never violated, whatever the events. */
  lemma {:induction false} ReplayKeepsUniqueKeys(ds: seq<Delivery>)
    ensures UniqueKeys(Replay(ds))
  {
    if ds != [] {
      ReplayKeepsUniqueKeys(ds[..|ds| - 1]);
    }
  }

  lemma UniqueKeysAreCompatible(rows: seq<Row>)
    requires UniqueKeys(rows)
    ensures Compatible(Entries(rows))
  {
    forall a, b | a in Entries(rows) && b in Entries(rows) && a.trip == b.trip && a.user == b.user ensures a == b {
      var r :| r in rows && r.trip.Some? && a == Entry(r.trip.value, r.user, r.kind, r.amount);
      var q :| q in rows && q.trip.Some? && b == Entry(q.trip.value, q.user, q.kind, q.amount);
      var i :| 0 <= i < |rows| && rows[i] == r;
      var j :| 0 <= j < |rows| && rows[j] == q;
      assert i == j;
    }
  }

  /** Exactly when the order of two payment events does not matter: when they agree on every
      (trip, user) key that both of them post. */
  lemma OrderIrrelevantIffCompatible(d: Delivery, e: Delivery)
    requires Complete(d) && Complete(e)
    ensures Entries(Replay([d, e])) == Entries(Replay([e, d])) <==> Compatible(Wants(d.payment) + Wants(e.payment))
  {
    TwoDeliveries(d, e);
    TwoDeliveries(e, d);
    var both := Wants(d.payment) + Wants(e.payment);
    if Compatible(both) {
      assert Wants(e.payment) + Wants(d.payment) == both;
    } else {
      ReplayKeepsUniqueKeys([d, e]);
      UniqueKeysAreCompatible(Replay([d, e]));
      assert !(both <= Entries(Replay([d, e])));
    }
  }

  lemma TwoDeliveries(d: Delivery, e: Delivery)
    requires Complete(d) && Complete(e)
    ensures Wants(d.payment) <= Entries(Replay([d, e]))
    ensures Compatible(Wants(d.payment) + Wants(e.payment)) ==>
              Entries(Replay([d, e])) == Wants(d.payment) + Wants(e.payment)
  {
    assert [d, e][..1] == [d] && [d][..0] == [];
    assert Replay([]) == [] && Entries([]) == {};
    assert Replay([d]) == Deliver([], d);
    DeliverEntries([], d);
    DeliverKeeps(Deliver([], d), e);
    if Compatible(Wants(d.payment) + Wants(e.payment)) {
      DeliverEntries(Deliver([], d), e);
    }
  }

  lemma DeliverKeeps(rows: seq<Row>, d: Delivery)
    ensures rows <= Deliver(rows, d)
    ensures Entries(rows) <= Entries(Deliver(rows, d))
  {
    var after := Deliver(rows, d);
    assert forall r :: r in rows ==> r in after;
  }
}
