/** ListLedger: filtering, ordering and offset paging. */
module LedgerPaging {
  import opened Prelude
  import opened Ledger
  import opened LedgerQuery
  import opened RowOrders
  import opened SqlEval
  import opened SqlText

  const MAX_OFFSET := 100_000

  function ClampLimit(limit: int): (l: int)
    ensures 1 <= limit <= 500 ==> l == limit
    ensures limit < 1 || limit > 500 ==> l == 100
  {
    if limit <= 0 || limit > 500 then 100 else limit
  }

  /** The nearest number from 0 to 100,000. */
  function ClampOffset(offset: int): (o: int)
    ensures 0 <= offset <= 100_000 ==> o == offset
    ensures offset < 0 ==> o == 0
    ensures offset > 100_000 ==> o == 100_000
  {
    if offset < 0 then 0 else if offset > MAX_OFFSET then MAX_OFFSET else offset
  }

  // --- What the database answers -----------------------------------------------

  function Join(r: Row, emails: map<string, string>): Joined {
    Joined(r, if r.user in emails then Some(emails[r.user]) else None)
  }

  function Select(rows: seq<Row>, emails: map<string, string>, where: seq<Cond>, args: seq<Arg>): seq<Row> {
    if rows == [] then []
    else
      Select(rows[..|rows| - 1], emails, where, args) +
      if AllHold(where, args, Join(rows[|rows| - 1], emails)) then [rows[|rows| - 1]] else []
  }

  /** The rows asked for, in table order. */
  function Matching(rows: seq<Row>, emails: map<string, string>, q: Request): seq<Row> {
    if rows == [] then []
    else
      Matching(rows[..|rows| - 1], emails, q) +
      if Wanted(q, Join(rows[|rows| - 1], emails)) then [rows[|rows| - 1]] else []
  }

  /** OFFSET o LIMIT n */
  function Window(rows: seq<Row>, offset: nat, limit: nat): seq<Row> {
    if offset >= |rows| then []
    else if offset + limit >= |rows| then rows[offset..]
    else rows[offset..offset + limit]
  }

  lemma {:induction false} SelectIsMatching(rows: seq<Row>, emails: map<string, string>, where: seq<Cond>, args: seq<Arg>, q: Request)
    requires forall j :: AllHold(where, args, j) <==> Wanted(q, j)
    ensures Select(rows, emails, where, args) == Matching(rows, emails, q)
  {
    if rows != [] {
      SelectIsMatching(rows[..|rows| - 1], emails, where, args, q);
    }
  }

  const FROM_JOINED := "\nFROM transactions t\nLEFT JOIN users u ON u.id::text = t.user_id\n"

  /** The count and the page query, the latter for the given SELECT list. The page's offset and limit are the two
      placeholders after the filters', bound to the two arguments after theirs; the filters mean the same in both
      queries. */
  method BuildQueries(q: Request, columns: string)
    returns (countQ: string, filterArgs: seq<Arg>, selectQ: string, selectArgs: seq<Arg>, conds: seq<Cond>)
    ensures countQ == "SELECT COUNT(*)" + (FROM_JOINED + (BASE + Render(conds)))
    ensures selectQ == columns + (FROM_JOINED + (BASE + Render(conds))) + "\nORDER BY t.created_at DESC OFFSET $"
                       + Itoa(|filterArgs| + 1) + " LIMIT $" + Itoa(|filterArgs| + 2)
    ensures Numbered(conds, filterArgs) && |selectArgs| == |filterArgs| + 2 && filterArgs <= selectArgs
    ensures selectArgs[|filterArgs| + 1 - 1] == Num(if q.offset < 0 then 0 else if q.offset > 100_000 then 100_000 else q.offset)
    ensures selectArgs[|filterArgs| + 2 - 1] == Num(if 1 <= q.limit <= 500 then q.limit else 100)
    ensures forall j :: AllHold(conds, filterArgs, j) <==> Wanted(q, j)
    ensures forall j :: AllHold(conds, selectArgs, j) <==> Wanted(q, j)
    ensures forall j :: SelectedBy(BASE + Render(conds), filterArgs, j) <==> Wanted(q, j)
    ensures forall j :: SelectedBy(BASE + Render(conds), selectArgs, j) <==> Wanted(q, j)
  {
    var limit := q.limit;
    if limit <= 0 || limit > 500 {
      limit := 100;
    }
    var offset := q.offset;
    if offset < 0 {
      offset := 0;
    }
    if offset > MAX_OFFSET {
      offset := MAX_OFFSET;
    }
    var where: string;
    where, filterArgs, conds := BuildLedgerListWhere(q);
    var from := FROM_JOINED + where;
    countQ := "SELECT COUNT(*)" + from;
    var offArg, limArg := |filterArgs| + 1, |filterArgs| + 2;
    selectQ := columns + from + "\nORDER BY t.created_at DESC OFFSET $"
               + Itoa(offArg) + " LIMIT $" + Itoa(limArg);
    selectArgs := filterArgs + [Num(offset), Num(limit)];
    forall j
      ensures (AllHold(conds, selectArgs, j) <==> Wanted(q, j)) && (SelectedBy(BASE + Render(conds), selectArgs, j) <==> Wanted(q, j))
    {
      MoreArgsSameMeaning(conds, filterArgs, [Num(offset), Num(limit)], j);
      WhereMeans(conds, selectArgs, j);
    }
  }

  /** The database answers the page query; which of the possible orders it uses is not known. */
  method Fetch(rows: seq<Row>, emails: map<string, string>, conds: seq<Cond>, args: seq<Arg>, offset: nat, limit: nat)
    returns (page: seq<Row>)
    ensures exists order :: IsOrder(order, Select(rows, emails, conds, args)) && page == Window(order, offset, limit)
  {
    var order := NewestFirst(Select(rows, emails, conds, args));
    page := Window(order, offset, limit);
  }

  method ListLedger(rows: seq<Row>, emails: map<string, string>, q: Request, columns: string)
    returns (page: seq<Row>, total: nat, hasMore: bool)
    ensures exists order :: IsOrder(order, Matching(rows, emails, q))
                            && page == Window(order, ClampOffset(q.offset), ClampLimit(q.limit))
    ensures total == |Matching(rows, emails, q)|
    ensures hasMore <==> ClampOffset(q.offset) + ClampLimit(q.limit) < total
  {
    var countQ, filterArgs, selectQ, selectArgs, conds := BuildQueries(q, columns);
    SelectIsMatching(rows, emails, conds, filterArgs, q);
    total := |Select(rows, emails, conds, filterArgs)|;
    SelectIsMatching(rows, emails, conds, selectArgs, q);
    var offset, limit := selectArgs[|filterArgs|].i, selectArgs[|filterArgs| + 1].i;
    page := Fetch(rows, emails, conds, selectArgs, offset, limit);
    ghost var order :| IsOrder(order, Matching(rows, emails, q)) && page == Window(order, offset, limit);
    SameSize(order, Matching(rows, emails, q));
    hasMore := offset + |page| < total;
  }

  lemma {:induction false} MatchingMeans(rows: seq<Row>, emails: map<string, string>, q: Request, r: Row)
    ensures r in Matching(rows, emails, q) <==>
            r in rows && Wanted(q, Joined(r, if r.user in emails then Some(emails[r.user]) else None))
  {
    if rows != [] {
      MatchingMeans(rows[..|rows| - 1], emails, q, r);
    }
  }

  lemma MatchingSnoc(init: seq<Row>, last: Row, emails: map<string, string>, q: Request, wanted: bool)
    requires wanted == Wanted(q, Join(last, emails))
    ensures Matching(init + [last], emails, q) == if wanted then Matching(init, emails, q) + [last] else Matching(init, emails, q)
  {
    assert (init + [last])[..|init|] == init;
  }

  lemma OneMoreCopy(rows: seq<Row>, last: Row, r: Row)
    ensures multiset(rows + [last])[r] == multiset(rows)[r] + if last == r then 1 else 0
  {
  }

  lemma CopiesSnoc(init: seq<Row>, last: Row, emails: map<string, string>, q: Request, r: Row, wanted: bool, lastWanted: bool)
    requires lastWanted == Wanted(q, Join(last, emails)) && (last == r ==> wanted == lastWanted)
    requires multiset(Matching(init, emails, q))[r] == if wanted then multiset(init)[r] else 0
    ensures multiset(Matching(init + [last], emails, q))[r] == if wanted then multiset(init + [last])[r] else 0
  {
    MatchingSnoc(init, last, emails, q, lastWanted);
    OneMoreCopy(init, last, r);
    OneMoreCopy(Matching(init, emails, q), last, r);
  }

  /** A row asked for is listed as often as it is in the table. */
  lemma {:induction false} MatchingKeepsCopies(rows: seq<Row>, emails: map<string, string>, q: Request, r: Row, wanted: bool)
    requires wanted == Wanted(q, Join(r, emails))
    ensures multiset(Matching(rows, emails, q))[r] == if wanted then multiset(rows)[r] else 0
  {
    if rows != [] {
      var init, last := rows[..|rows| - 1], rows[|rows| - 1];
      MatchingKeepsCopies(init, emails, q, r, wanted);
      assert rows == init + [last];
      CopiesSnoc(init, last, emails, q, r, wanted, Wanted(q, Join(last, emails)));
    }
  }
}
