/** SELECT COALESCE(SUM(amount_cents), 0) ... WHERE, for the conditions the ledger's queries use. */
module Selections {
  import opened Prelude
  import opened Ledger

  /** created_at >= from AND created_at <= to, each bound optional. */
  datatype Range = Range(from: Option<int>, to: Option<int>)

  const ALL_TIME := Range(None, None)

  predicate InRange(r: Row, range: Range) {
    && (range.from.Some? ==> r.at >= range.from.value)
    && (range.to.Some? ==> r.at <= range.to.value)
  }

  /** A conjunction of the conditions that are given. */
  datatype Selection = Selection(user: Option<string>, trip: Option<string>, kind: Option<Kind>, range: Range)

  predicate Selects(s: Selection, r: Row) {
    && (s.user.Some? ==> r.user == s.user.value)
    && (s.trip.Some? ==> r.trip == s.trip)
    && (s.kind.Some? ==> r.kind == s.kind.value)
    && InRange(r, s.range)
  }

  function SumOf(rows: seq<Row>, s: Selection): int {
    if rows == [] then 0
    else SumOf(rows[..|rows| - 1], s) + if Selects(s, rows[|rows| - 1]) then rows[|rows| - 1].amount else 0
  }

  function OfTrip(trip: string, kind: Kind): Selection { Selection(None, Some(trip), Some(kind), ALL_TIME) }

  function OfUser(user: string, kind: Kind, range: Range): Selection { Selection(Some(user), None, Some(kind), range) }

  lemma SumOfAppend(rows: seq<Row>, r: Row, s: Selection)
    ensures SumOf(rows + [r], s) == SumOf(rows, s) + if Selects(s, r) then r.amount else 0
  {
    assert (rows + [r])[..|rows|] == rows;
  }

  /** CustomerDashboard's income, expense and net. */
  function Income(rows: seq<Row>, user: string, range: Range): int { SumOf(rows, OfUser(user, Credit, range)) }

  function Expense(rows: seq<Row>, user: string, range: Range): int { SumOf(rows, OfUser(user, Debit, range)) }

  function Net(rows: seq<Row>, user: string, range: Range): int { Income(rows, user, range) - Expense(rows, user, range) }
}
