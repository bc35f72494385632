/** The WHERE builders of the ledger repository, and what the queries they build select. */
module LedgerQuery {
  import opened Prelude
  import opened Ledger
  import opened Selections
  import opened SqlEval
  import opened SqlText
  import opened Wildcards
  import Text

  datatype Request = Request(userId: string, tripId: string, emailContains: string, slug: string,
                             riderId: string, driverId: string, limit: int, offset: int)

  // --- What a query means ---------------------------------------------------

  function SlugText(r: Row): string { if r.slug.Some? then r.slug.value else "" }

  /** The truth of one condition under the given arguments; an unbound or ill-typed placeholder is no match. */
  predicate Holds(c: Cond, args: seq<Arg>, j: Joined) {
    && 1 <= c.n <= |args|
    && match (c, args[c.n - 1])
       case (UserIs(_), Str(s)) => j.row.user == s
       case (TripIs(_), Str(s)) => j.row.trip == Some(s)
       case (EmailLike(_), Str(s)) => j.email.Some? && ILike(j.email.value, s)
       case (SlugIs(_), Str(s)) => Text.ToLower(SlugText(j.row)) == s
       case (DebitBy(_), Str(s)) => j.row.kind == Debit && j.row.user == s
       case (CreditTo(_), Str(s)) => j.row.kind == Credit && j.row.user == s
       case (CreatedFrom(_), Num(t)) => j.row.at >= t
       case (CreatedTo(_), Num(t)) => j.row.at <= t
       case _ => false
  }

  predicate AllHold(where: seq<Cond>, args: seq<Arg>, j: Joined) {
    forall i :: 0 <= i < |where| ==> Holds(where[i], args, j)
  }

  /** Every placeholder is bound. */
  predicate Bound(where: seq<Cond>, args: seq<Arg>) {
    forall i :: 0 <= i < |where| ==> 1 <= where[i].n <= |args|
  }

  /** The placeholders are $1, $2, ... in order, one for each argument. */
  predicate Numbered(where: seq<Cond>, args: seq<Arg>) {
    |where| == |args| && forall i :: 0 <= i < |where| ==> where[i].n == i + 1
  }

  /** What the caller of ListLedger asks for: each filter that is not blank must be met. */
  predicate Wanted(q: Request, j: Joined) {
    && (Text.Trim(q.userId) != "" ==> j.row.user == Text.Trim(q.userId))
    && (Text.Trim(q.tripId) != "" ==> j.row.trip == Some(Text.Trim(q.tripId)))
    && (Text.Trim(q.emailContains) != "" ==> j.email.Some? && ILike(j.email.value, "%" + Text.Trim(q.emailContains) + "%"))
    && (Text.Trim(q.slug) != "" ==> Text.ToLower(SlugText(j.row)) == Text.ToLower(Text.Trim(q.slug)))
    && (Text.Trim(q.riderId) != "" ==> j.row.kind == Debit && j.row.user == Text.Trim(q.riderId))
    && (Text.Trim(q.driverId) != "" ==> j.row.kind == Credit && j.row.user == Text.Trim(q.driverId))
  }

  const BASE := "WHERE 1=1"

  // --- The conditions are what the text says ------------------------------------

  lemma HoldsBound(c: Cond, args: seq<Arg>, j: Joined, name: string, op: string)
    requires Column(name, j).Some?
    requires name == (if c.TripIs? then "t.source_trip_id" else if c.EmailLike? then "u.email"
                      else if c.SlugIs? then "lower(COALESCE(t.package_slug,''))"
                      else if c.CreatedFrom? || c.CreatedTo? then "created_at" else "t.user_id")
    requires op == if c.EmailLike? then "ILIKE" else if c.CreatedFrom? then ">=" else if c.CreatedTo? then "<=" else "="
    ensures Holds(c, args, j) <==>
            Related(name, op, c.n, args, j) && (c.DebitBy? ==> j.row.kind == Debit) && (c.CreditTo? ==> j.row.kind == Credit)
  {
    ColumnsMean(j);
    OperatorsDiffer();
  }

  lemma ConditionMeans(c: Cond, x: string, args: seq<Arg>, j: Joined)
    requires StartsBlank(x)
    ensures Conjuncts(Words(Sql(c) + x), args, j) <==> Holds(c, args, j) && Conjuncts(Words(x), args, j)
  {
    WordsOfTheClauses();
    ColumnsMean(j);
    match c
    case UserIs(n) =>
      UserText(n);
      ComparisonMeans(Sql(c), "t.user_id", "=", n, x, args, j);
      HoldsBound(c, args, j, "t.user_id", "=");
    case TripIs(n) =>
      TripText(n);
      ComparisonMeans(Sql(c), "t.source_trip_id", "=", n, x, args, j);
      HoldsBound(c, args, j, "t.source_trip_id", "=");
    case EmailLike(n) =>
      EmailText(n);
      ComparisonMeans(Sql(c), "u.email", "ILIKE", n, x, args, j);
      HoldsBound(c, args, j, "u.email", "ILIKE");
    case SlugIs(n) =>
      SlugTextOf(n);
      ComparisonMeans(Sql(c), SLUG_EXPR, "=", n, x, args, j);
      HoldsBound(c, args, j, SLUG_EXPR, "=");
    case DebitBy(n) =>
      PartyMeans(c, Debit, " AND t.type = 'debit'", n, x, args, j);
    case CreditTo(n) =>
      PartyMeans(c, Credit, " AND t.type = 'credit'", n, x, args, j);
    case CreatedFrom(n) =>
      FromText(n);
      ComparisonMeans(Sql(c), "created_at", ">=", n, x, args, j);
      HoldsBound(c, args, j, "created_at", ">=");
    case CreatedTo(n) =>
      ToText(n);
      ComparisonMeans(Sql(c), "created_at", "<=", n, x, args, j);
      HoldsBound(c, args, j, "created_at", "<=");
  }

  lemma PartyMeans(c: Cond, kind: Kind, first: string, n: nat, x: string, args: seq<Arg>, j: Joined)
    requires c == (if kind == Debit then DebitBy(n) else CreditTo(n)) && StartsBlank(x)
    requires first == if kind == Debit then " AND t.type = 'debit'" else " AND t.type = 'credit'"
    ensures Conjuncts(Words(Sql(c) + x), args, j) <==> Holds(c, args, j) && Conjuncts(Words(x), args, j)
  {
    var second := Conjunct("t.user_id", "=", Placeholder(n));
    WordsOfTheClauses();
    ColumnsMean(j);
    PartyText(n);
    KindText(kind);
    Regroup(first, second, x);
    KindMeans(kind, first, second + x, args, j);
    ComparisonMeans(second, "t.user_id", "=", n, x, args, j);
    HoldsBound(c, args, j, "t.user_id", "=");
  }

  /** A rendered list of conditions, read word by word, says exactly that they all hold. */
  lemma {:induction false} TextMeans(conds: seq<Cond>, args: seq<Arg>, j: Joined)
    ensures Conjuncts(Words(Render(conds)), args, j) <==> AllHold(conds, args, j)
  {
    if conds != [] {
      TextMeans(conds[1..], args, j);
      RenderStartsBlank(conds[1..]);
      ConditionMeans(conds[0], Render(conds[1..]), args, j);
      assert AllHold(conds, args, j) <==> Holds(conds[0], args, j) && AllHold(conds[1..], args, j);
    }
  }

  /** So does the whole clause. */
  lemma WhereMeans(conds: seq<Cond>, args: seq<Arg>, j: Joined)
    ensures SelectedBy(BASE + Render(conds), args, j) <==> AllHold(conds, args, j)
  {
    RenderStartsBlank(conds);
    BaseMeans(Render(conds), args, j);
    TextMeans(conds, args, j);
  }

  // --- The builders -----------------------------------------------------------

  /** Appending arguments leaves the meaning of conditions that were bound before. */
  lemma MoreArgsSameMeaning(where: seq<Cond>, args: seq<Arg>, more: seq<Arg>, j: Joined)
    requires Bound(where, args)
    ensures AllHold(where, args + more, j) <==> AllHold(where, args, j)
  {
    forall i | 0 <= i < |where| ensures Holds(where[i], args + more, j) <==> Holds(where[i], args, j) {
      assert (args + more)[where[i].n - 1] == args[where[i].n - 1];
    }
  }

  lemma OneMoreCondition(where: seq<Cond>, args: seq<Arg>, c: Cond, a: Arg, j: Joined)
    requires Bound(where, args) && c.n == |args| + 1
    ensures Bound(where + [c], args + [a])
    ensures AllHold(where + [c], args + [a], j) <==> AllHold(where, args, j) && Holds(c, args + [a], j)
  {
    MoreArgsSameMeaning(where, args, [a], j);
    var whole := where + [c];
    assert forall i :: 0 <= i < |where| ==> whole[i] == where[i];
    assert whole[|where|] == c;
  }

  /** The k-th filter of a request, in the order the builder considers them: its text and its condition. */
  function FilterText(q: Request, k: nat): string {
    Text.Trim(if k == 0 then q.userId else if k == 1 then q.tripId else if k == 2 then q.emailContains
              else if k == 3 then q.slug else if k == 4 then q.riderId else q.driverId)
  }

  predicate Meets(q: Request, k: nat, j: Joined) {
    var s := FilterText(q, k);
    if k == 0 then j.row.user == s
    else if k == 1 then j.row.trip == Some(s)
    else if k == 2 then j.email.Some? && ILike(j.email.value, "%" + s + "%")
    else if k == 3 then Text.ToLower(SlugText(j.row)) == Text.ToLower(s)
    else if k == 4 then j.row.kind == Debit && j.row.user == s
    else j.row.kind == Credit && j.row.user == s
  }

  predicate MeetsFirst(q: Request, k: nat, j: Joined) {
    forall i :: 0 <= i < k && FilterText(q, i) != "" ==> Meets(q, i, j)
  }

  lemma MeetsAll(q: Request, j: Joined)
    ensures MeetsFirst(q, 6, j) <==> Wanted(q, j)
  {
    if MeetsFirst(q, 6, j) {
      assert FilterText(q, 0) != "" ==> Meets(q, 0, j);
      assert FilterText(q, 1) != "" ==> Meets(q, 1, j);
      assert FilterText(q, 2) != "" ==> Meets(q, 2, j);
      assert FilterText(q, 3) != "" ==> Meets(q, 3, j);
      assert FilterText(q, 4) != "" ==> Meets(q, 4, j);
      assert FilterText(q, 5) != "" ==> Meets(q, 5, j);
    }
  }

  /** The query built so far selects by the first k filters. */
  ghost predicate Covers(where: seq<Cond>, args: seq<Arg>, q: Request, k: nat) {
    && Numbered(where, args)
    && forall j :: AllHold(where, args, j) <==> MeetsFirst(q, k, j)
  }

  /** The fragment of the k-th filter, and the argument bound to its placeholder. */
  function Fragment(k: nat, n: nat): Cond {
    if k == 0 then UserIs(n) else if k == 1 then TripIs(n) else if k == 2 then EmailLike(n)
    else if k == 3 then SlugIs(n) else if k == 4 then DebitBy(n) else CreditTo(n)
  }

  function Argument(k: nat, text: string): Arg {
    Str(if k == 2 then "%" + text + "%" else if k == 3 then Text.ToLower(text) else text)
  }

  lemma FragmentMeans(q: Request, k: nat, args: seq<Arg>, j: Joined)
    ensures Holds(Fragment(k, |args| + 1), args + [Argument(k, FilterText(q, k))], j) <==> Meets(q, k, j)
  {
  }

  lemma FilterExtends(conds: seq<Cond>, args: seq<Arg>, q: Request, k: nat, c: Cond, a: Arg)
    requires Covers(conds, args, q, k) && FilterText(q, k) != ""
    requires c == Fragment(k, |args| + 1) && a == Argument(k, FilterText(q, k))
    ensures Covers(conds + [c], args + [a], q, k + 1)
  {
    assert c.n == |args| + 1;
    forall j ensures AllHold(conds + [c], args + [a], j) <==> MeetsFirst(q, k + 1, j) {
      OneMoreCondition(conds, args, c, a, j);
      FragmentMeans(q, k, args, j);
      assert MeetsFirst(q, k + 1, j) <==> MeetsFirst(q, k, j) && Meets(q, k, j);
    }
  }

  lemma NoFilterToMeet(conds: seq<Cond>, args: seq<Arg>, q: Request, k: nat)
    requires Covers(conds, args, q, k) && FilterText(q, k) == ""
    ensures Covers(conds, args, q, k + 1)
  {
    forall j ensures AllHold(conds, args, j) <==> MeetsFirst(q, k + 1, j) {
      assert MeetsFirst(q, k + 1, j) <==> MeetsFirst(q, k, j);
    }
  }

  /** One `if x := TrimSpace(filter); x != ""` step of the builder. */
  method AppendFilter(where: string, args: seq<Arg>, q: Request, k: nat, conds: seq<Cond>)
    returns (where': string, args': seq<Arg>, conds': seq<Cond>)
    requires where == BASE + Render(conds) && Covers(conds, args, q, k)
    ensures where' == BASE + Render(conds') && Covers(conds', args', q, k + 1)
    ensures FilterText(q, k) == "" ==> where' == where && args' == args
  {
    where', args', conds' := where, args, conds;
    var text := FilterText(q, k);
    if text != "" {
      var c := Fragment(k, |args| + 1);
      args' := args + [Argument(k, text)];
      where' := where + Sql(c);
      conds' := conds + [c];
      RenderSnoc(conds, c);
      Regroup(BASE, Render(conds), Sql(c));
      FilterExtends(conds, args, q, k, c, Argument(k, text));
    } else {
      NoFilterToMeet(conds, args, q, k);
    }
  }

  /** The text, read word by word under the arguments, selects exactly the rows that meet every filter that is not
      blank. Returned beside it are the conditions it states (TextIsUnambiguous); their placeholders are $1, $2, ...
      in order, each bound to its own argument. */
  method BuildLedgerListWhere(q: Request) returns (where: string, args: seq<Arg>, conds: seq<Cond>)
    ensures where == BASE + Render(conds) && Numbered(conds, args)
    ensures forall j :: SelectedBy(where, args, j) <==> Wanted(q, j)
    ensures forall j :: AllHold(conds, args, j) <==> Wanted(q, j)
  {
    where, args, conds := BASE, [], [];
    where, args, conds := AppendFilter(where, args, q, 0, conds);
    where, args, conds := AppendFilter(where, args, q, 1, conds);
    where, args, conds := AppendFilter(where, args, q, 2, conds);
    where, args, conds := AppendFilter(where, args, q, 3, conds);
    where, args, conds := AppendFilter(where, args, q, 4, conds);
    where, args, conds := AppendFilter(where, args, q, 5, conds);
    forall j ensures (AllHold(conds, args, j) <==> Wanted(q, j)) && (SelectedBy(where, args, j) <==> Wanted(q, j)) {
      MeetsAll(q, j);
      WhereMeans(conds, args, j);
    }
  }

  /** One bound of the range. */
  method AppendBound(q: string, args: seq<Arg>, c: Cond, at: int, ghost conds: seq<Cond>, before: seq<Cond>)
    returns (q': string, args': seq<Arg>, added: seq<Cond>)
    requires Bound(conds + before, args) && c.n == |args| + 1
    ensures q' == q + Sql(c) && args' == args + [Num(at)] && added == before + [c]
    ensures Render(added) == Render(before) + Sql(c) && Bound(conds + added, args')
    ensures forall j :: AllHold(conds + added, args', j) <==> AllHold(conds + before, args, j) && Holds(c, args', j)
  {
    args' := args + [Num(at)];
    q' := q + Sql(c);
    added := before + [c];
    RenderSnoc(before, c);
    assert conds + added == (conds + before) + [c];
    forall j ensures AllHold(conds + added, args', j) <==> AllHold(conds + before, args, j) && Holds(c, args', j) {
      OneMoreCondition(conds + before, args, c, Num(at), j);
    }
  }

  lemma FromMeans(n: nat, range: Range, args: seq<Arg>)
    requires range.from.Some? && 1 <= n <= |args| && args[n - 1] == Num(range.from.value)
    ensures forall j: Joined :: Holds(CreatedFrom(n), args, j) <==> j.row.at >= range.from.value
  {
  }

  lemma ToMeans(n: nat, range: Range, args: seq<Arg>)
    requires range.to.Some? && 1 <= n <= |args| && args[n - 1] == Num(range.to.value)
    ensures forall j: Joined :: Holds(CreatedTo(n), args, j) <==> j.row.at <= range.to.value
  {
  }

  lemma AllHoldConcat(a: seq<Cond>, b: seq<Cond>, args: seq<Arg>, j: Joined)
    ensures AllHold(a + b, args, j) <==> AllHold(a, args, j) && AllHold(b, args, j)
  {
    assert forall i :: 0 <= i < |a| ==> (a + b)[i] == a[i];
    assert forall i :: 0 <= i < |b| ==> (a + b)[|a| + i] == b[i];
  }

  lemma LowerBoundMeans(from: seq<Cond>, n: nat, args: seq<Arg>, bound: Option<int>, j: Joined)
    requires from == if bound.Some? then [CreatedFrom(n)] else []
    requires bound.Some? ==> 1 <= n <= |args| && args[n - 1] == Num(bound.value)
    ensures AllHold(from, args, j) <==> (bound.Some? ==> j.row.at >= bound.value)
  {
    assert bound.Some? ==> from[0] == CreatedFrom(n);
  }

  lemma UpperBoundMeans(upTo: seq<Cond>, n: nat, args: seq<Arg>, bound: Option<int>, j: Joined)
    requires upTo == if bound.Some? then [CreatedTo(n)] else []
    requires bound.Some? ==> 1 <= n <= |args| && args[n - 1] == Num(bound.value)
    ensures AllHold(upTo, args, j) <==> (bound.Some? ==> j.row.at <= bound.value)
  {
    assert bound.Some? ==> upTo[0] == CreatedTo(n);
  }

  /** The text of the two bounds, read word by word, selects the rows within them. */
  lemma RangeMeans(from: seq<Cond>, n: nat, upTo: seq<Cond>, m: nat, args: seq<Arg>, range: Range, j: Joined)
    requires from == if range.from.Some? then [CreatedFrom(n)] else []
    requires upTo == if range.to.Some? then [CreatedTo(m)] else []
    requires range.from.Some? ==> 1 <= n <= |args| && args[n - 1] == Num(range.from.value)
    requires range.to.Some? ==> 1 <= m <= |args| && args[m - 1] == Num(range.to.value)
    ensures Conjuncts(Words(Render(from + upTo)), args, j) <==>
            && (range.from.Some? ==> j.row.at >= range.from.value)
            && (range.to.Some? ==> j.row.at <= range.to.value)
  {
    TextMeans(from + upTo, args, j);
    AllHoldConcat(from, upTo, args, j);
    LowerBoundMeans(from, n, args, range.from, j);
    UpperBoundMeans(upTo, m, args, range.to, j);
  }

  /** Narrows any query that ends in the conditions `conds`, whatever stands before them and whatever its
      arguments so far, to the date range, and changes nothing else in it. */
  method AppendCreatedRange(q: string, args: seq<Arg>, range: Range, ghost conds: seq<Cond>)
    returns (q': string, args': seq<Arg>, added: seq<Cond>)
    requires Bound(conds, args)
    ensures q' == q + Render(added) && args <= args' && |added| == |args'| - |args|
    ensures forall i :: 0 <= i < |added| ==> added[i].n == |args| + i + 1
    ensures forall j :: AllHold(conds + added, args', j) <==> AllHold(conds, args, j) && InRange(j.row, range)
    ensures q <= q'
    ensures forall j: Joined :: Conjuncts(Words(q'[|q|..]), args', j) <==>
                        && (range.from.Some? ==> j.row.at >= range.from.value)
                        && (range.to.Some? ==> j.row.at <= range.to.value)
  {
    q', args', added := q, args, [];
    assert conds + [] == conds && q + "" == q;
    if range.from.Some? {
      q', args', added := AppendBound(q, args, CreatedFrom(|args| + 1), range.from.value, conds, []);
      FromMeans(|args| + 1, range, args');
      Regroup(q, Render([]), Sql(added[0]));
    }
    ghost var before := added;
    if range.to.Some? {
      q', args', added := AppendBound(q', args', CreatedTo(|args'| + 1), range.to.value, conds, added);
      ToMeans(|args'|, range, args');
      Regroup(q, Render(before), Sql(added[|before|]));
    }
    ghost var upTo := if range.to.Some? then [CreatedTo(|args'|)] else [];
    assert added == before + upTo;
    assert q'[|q|..] == Render(added);
    forall j: Joined
      ensures Conjuncts(Words(q'[|q|..]), args', j) <==>
              && (range.from.Some? ==> j.row.at >= range.from.value)
              && (range.to.Some? ==> j.row.at <= range.to.value)
    {
      RangeMeans(before, |args| + 1, upTo, |args'|, args', range, j);
    }
  }
}
