/** ORDER BY created_at DESC: what every order the database may use has in common. */
module RowOrders {
  import opened Ledger

  predicate Descending(rows: seq<Row>) {
    forall i, j :: 0 <= i < j < |rows| ==> rows[i].at >= rows[j].at
  }

  /** ORDER BY created_at DESC: rows of equal time come in any order, and may come in another one at the next
      request. */
  ghost predicate IsOrder(order: seq<Row>, rows: seq<Row>) {
    Descending(order) && multiset(order) == multiset(rows)
  }

  /** One such order. */
  function NewestFirst(rows: seq<Row>): (sorted: seq<Row>)
    ensures Descending(sorted)
    ensures multiset(sorted) == multiset(rows) && |sorted| == |rows|
  {
    if rows == [] then []
    else
      var r, init := rows[|rows| - 1], NewestFirst(rows[..|rows| - 1]);
      assert rows == rows[..|rows| - 1] + [r];
      InsertNewestRows(init, r);
      InsertNewest(init, r)
  }

  function InsertNewest(sorted: seq<Row>, r: Row): (s: seq<Row>)
    requires Descending(sorted)
    ensures Descending(s)
    ensures |s| == |sorted| + 1 && (s[0] == r || (sorted != [] && s[0] == sorted[0]))
  {
    if sorted == [] || r.at >= sorted[0].at then [r] + sorted
    else [sorted[0]] + InsertNewest(sorted[1..], r)
  }

  lemma {:induction false} InsertNewestRows(sorted: seq<Row>, r: Row)
    requires Descending(sorted)
    ensures multiset(InsertNewest(sorted, r)) == multiset(sorted) + multiset{r}
  {
    if sorted != [] && r.at < sorted[0].at {
      InsertNewestRows(sorted[1..], r);
      assert sorted == [sorted[0]] + sorted[1..];
    }
  }

  predicate DistinctTimes(rows: seq<Row>) {
    forall i, j :: 0 <= i < j < |rows| ==> rows[i].at != rows[j].at
  }

  /** The primary key. */
  predicate DistinctIds(rows: seq<Row>) {
    forall i, j :: 0 <= i < j < |rows| ==> rows[i].id != rows[j].id
  }

  lemma SameSize(order: seq<Row>, rows: seq<Row>)
    requires IsOrder(order, rows)
    ensures |order| == |rows|
  {
    assert |order| == |multiset(order)| && |rows| == |multiset(rows)|;
  }

  lemma SameHead(s: seq<Row>, t: seq<Row>)
    requires s != [] && t != [] && multiset(s) == multiset(t) && Descending(s) && Descending(t)
    ensures s[0].at == t[0].at
  {
    assert s[0] in multiset(t) && t[0] in multiset(s);
    var i :| 0 <= i < |t| && t[i] == s[0];
    var j :| 0 <= j < |s| && s[j] == t[0];
  }

  lemma DescendingWithout(t: seq<Row>, i: nat)
    requires i < |t| && Descending(t)
    ensures Descending(t[..i] + t[i + 1..])
  {
    var u := t[..i] + t[i + 1..];
    forall a, b | 0 <= a < b < |u| ensures u[a].at >= u[b].at {
      assert u[a] == t[if a < i then a else a + 1] && u[b] == t[if b < i then b else b + 1];
    }
  }

  lemma RowsWithout(t: seq<Row>, i: nat)
    requires i < |t|
    ensures multiset(t[..i] + t[i + 1..]) == multiset(t) - multiset{t[i]}
  {
    assert t == t[..i] + [t[i]] + t[i + 1..];
  }

  /** Removing the head of s from t leaves an order of the rest of s. */
  lemma WithoutHead(s: seq<Row>, t: seq<Row>, i: nat, rest: seq<Row>, u: seq<Row>)
    requires s != [] && i < |t| && t[i] == s[0] && multiset(s) == multiset(t) && Descending(s) && Descending(t)
    requires rest == s[..0] + s[1..] && u == t[..i] + t[i + 1..]
    ensures multiset(rest) == multiset(u) && Descending(rest) && Descending(u)
  {
    DescendingWithout(t, i);
    DescendingWithout(s, 0);
    RowsWithout(t, i);
    RowsWithout(s, 0);
  }

  /** Up to a row whose time is the head's, all times are equal, so taking it out moves no time. */
  lemma TiedUpTo(t: seq<Row>, i: nat, k: nat)
    requires Descending(t) && i < |t| && 0 < k < |t| && t[i].at == t[0].at
    ensures (t[..i] + t[i + 1..])[k - 1].at == t[k].at
  {
    if k <= i {
      assert t[0].at >= t[k - 1].at >= t[i].at;
      assert t[0].at >= t[k].at >= t[i].at by { if k < i { assert t[k].at >= t[i].at; } }
    }
  }

  /** The head of s taken out of t. */
  lemma TakeHead(s: seq<Row>, t: seq<Row>, rest: seq<Row>) returns (u: seq<Row>)
    requires s != [] && multiset(s) == multiset(t) && Descending(s) && Descending(t) && rest == s[1..]
    ensures |t| == |u| + 1 && s[0].at == t[0].at
    ensures multiset(rest) == multiset(u) && Descending(rest) && Descending(u)
    ensures forall k :: 0 <= k < |u| ==> u[k].at == t[k + 1].at
  {
    assert s[0] in multiset(t);
    var i :| 0 <= i < |t| && t[i] == s[0];
    u := t[..i] + t[i + 1..];
    SameHead(s, t);
    assert rest == s[..0] + s[1..];
    WithoutHead(s, t, i, rest, u);
    forall k | 0 <= k < |u| ensures u[k].at == t[k + 1].at {
      TiedUpTo(t, i, k + 1);
    }
  }

  /** Any two orders have the same times at the same places. */
  lemma {:induction false} SameTimes(s: seq<Row>, t: seq<Row>, k: nat)
    requires multiset(s) == multiset(t) && Descending(s) && Descending(t) && k < |s|
    ensures k < |t| && s[k].at == t[k].at
    decreases |s|
  {
    var rest := s[1..];
    var u := TakeHead(s, t, rest);
    if k > 0 {
      SameTimes(rest, u, k - 1);
      assert s[k] == rest[k - 1] && u[k - 1].at == t[k].at;
    }
  }

  lemma CountOfEarlier(order: seq<Row>, b: nat, at: int, r: Row)
    requires b <= |order|
    requires forall i :: 0 <= i < b ==> order[i].at >= at
    requires forall i :: b <= i < |order| ==> order[i].at < at
    ensures multiset(order[..b])[r] == if r.at >= at then multiset(order)[r] else 0
  {
    assert order == order[..b] + order[b..];
    assert multiset(order)[r] == multiset(order[..b])[r] + multiset(order[b..])[r];
    if r.at >= at {
      assert r !in order[b..];
    } else {
      assert r !in order[..b];
    }
  }

  lemma SplitByTime(order: seq<Row>, base: seq<Row>, b: nat)
    requires multiset(order) == multiset(base) && Descending(order) && Descending(base)
    requires 0 < b < |base| && base[b - 1].at != base[b].at
    ensures |order| == |base|
    ensures forall i :: 0 <= i < b ==> order[i].at >= base[b - 1].at
    ensures forall i :: b <= i < |order| ==> order[i].at < base[b - 1].at
  {
    assert |order| == |multiset(order)| && |base| == |multiset(base)|;
    SameTimes(base, order, b);
    SameTimes(base, order, b - 1);
    assert base[b - 1].at >= base[b].at;
  }

  /** Where no tie crosses, any two orders have the same rows up to there. */
  lemma SameRowsUpTo(order: seq<Row>, base: seq<Row>, b: nat)
    requires multiset(order) == multiset(base) && Descending(order) && Descending(base) && b <= |base|
    requires 0 < b < |base| ==> base[b - 1].at != base[b].at
    ensures |order| == |base| && multiset(order[..b]) == multiset(base[..b])
  {
    assert |order| == |multiset(order)| && |base| == |multiset(base)|;
    if b == |base| {
      assert order[..b] == order && base[..b] == base;
    } else if b > 0 {
      SplitByTime(order, base, b);
      SplitByTime(base, base, b);
      forall r ensures multiset(order[..b])[r] == multiset(base[..b])[r] {
        CountOfEarlier(order, b, base[b - 1].at, r);
        CountOfEarlier(base, b, base[b - 1].at, r);
      }
    }
  }

  lemma OccursTwice(rows: seq<Row>, i: nat, j: nat)
    requires i < j < |rows| && rows[i] == rows[j]
    ensures multiset(rows)[rows[i]] >= 2
  {
    var first, rest := rows[..i + 1], rows[i + 1..];
    assert rows == first + rest && first[i] == rows[i] && rest[j - i - 1] == rows[j];
    assert rows[i] in multiset(first) && rows[i] in multiset(rest);
  }

  lemma OccursOnce(rows: seq<Row>, a: nat)
    requires a < |rows| && forall k :: 0 <= k < |rows| && k != a ==> rows[k] != rows[a]
    ensures multiset(rows)[rows[a]] == 1
  {
    assert rows == rows[..a] + [rows[a]] + rows[a + 1..];
    assert rows[a] !in rows[..a] && rows[a] !in rows[a + 1..];
  }

  /** Distinct rows stay distinct in any order: two places hold rows from two places. */
  lemma PlacesInOrder(order: seq<Row>, rows: seq<Row>, i: nat, j: nat) returns (a: nat, b: nat)
    requires multiset(order) == multiset(rows) && i < j < |order|
    requires forall k, l :: 0 <= k < l < |rows| ==> rows[k] != rows[l]
    ensures a < |rows| && b < |rows| && a != b && rows[a] == order[i] && rows[b] == order[j]
  {
    assert order[i] in multiset(rows) && order[j] in multiset(rows);
    a :| 0 <= a < |rows| && rows[a] == order[i];
    b :| 0 <= b < |rows| && rows[b] == order[j];
    if a == b {
      OccursTwice(order, i, j);
      OccursOnce(rows, a);
    }
  }

  lemma OrderHasDistinctIds(order: seq<Row>, rows: seq<Row>)
    requires multiset(order) == multiset(rows) && DistinctIds(rows)
    ensures DistinctIds(order)
  {
    forall i, j | 0 <= i < j < |order| ensures order[i].id != order[j].id {
      var a, b := PlacesInOrder(order, rows, i, j);
    }
  }

  lemma OrderHasDistinctTimes(order: seq<Row>, rows: seq<Row>)
    requires multiset(order) == multiset(rows) && DistinctTimes(rows)
    ensures DistinctTimes(order)
  {
    forall i, j | 0 <= i < j < |order| ensures order[i].at != order[j].at {
      var a, b := PlacesInOrder(order, rows, i, j);
    }
  }

  lemma SameHeadRow(s: seq<Row>, t: seq<Row>)
    requires s != [] && t != [] && multiset(s) == multiset(t) && DistinctTimes(s) && Descending(s) && Descending(t)
    ensures s[0] == t[0]
  {
    SameHead(s, t);
    assert t[0] in multiset(s);
  }

  /** With distinct times there is only one newest-first order of the matching rows. */
  lemma {:induction false} NewestFirstIsUnique(s: seq<Row>, t: seq<Row>)
    requires multiset(s) == multiset(t)
    requires DistinctTimes(s) && Descending(s) && Descending(t)
    ensures s == t
    decreases |s|
  {
    if s == [] {
      assert |t| == |multiset(t)| == 0;
    } else {
      var rest := s[1..];
      assert s[0] in multiset(t);
      SameHeadRow(s, t);
      assert rest == s[..0] + s[1..] && t[1..] == t[..0] + t[1..];
      WithoutHead(s, t, 0, rest, t[1..]);
      NewestFirstIsUnique(rest, t[1..]);
    }
  }

  /** Two neighbours swapped. */
  function Swapped(base: seq<Row>, b: nat): seq<Row>
    requires 0 < b < |base|
  {
    base[b - 1 := base[b]][b := base[b - 1]]
  }

  lemma SwappedIsOrder(base: seq<Row>, b: nat)
    requires 0 < b < |base| && Descending(base) && base[b - 1].at == base[b].at
    ensures IsOrder(Swapped(base, b), base)
  {
    var t := Swapped(base, b);
    assert base == base[..b - 1] + [base[b - 1]] + [base[b]] + base[b + 1..];
    assert t == base[..b - 1] + [base[b]] + [base[b - 1]] + base[b + 1..];
    forall i, j | 0 <= i < j < |t| ensures t[i].at >= t[j].at {
      assert t[i].at == base[i].at && t[j].at == base[j].at;
    }
  }
}
