/** A client that steps the offset through the ledger's pages: when it gets every matching row once. */
module PagingWalk {
  import opened Ledger
  import opened LedgerPaging
  import opened LedgerQuery
  import opened RowOrders
  import opened SqlEval

  /** The offset the k-th request asks for, stepping by the limit. */
  function Asked(limit: nat, k: nat): nat { if k == 0 then 0 else Asked(limit, k - 1) + limit }

  /** Where its page starts. */
  function PageStart(limit: nat, k: nat): nat { ClampOffset(Asked(limit, k)) }

  predicate HasMore(total: nat, limit: nat, k: nat) { PageStart(limit, k) + limit < total }

  /** The pages the client gets, concatenated; `orders` are the orders the database used, one for each request. */
  function Walk(orders: seq<seq<Row>>, limit: nat): seq<Row> {
    if orders == [] then []
    else
      var k := |orders| - 1;
      Walk(orders[..k], limit) + Window(orders[k], PageStart(limit, k), limit)
  }

  ghost predicate AllOrders(orders: seq<seq<Row>>, rows: seq<Row>) {
    forall k :: 0 <= k < |orders| ==> IsOrder(orders[k], rows)
  }

  /** A client that asks for pages while `has_more` is set makes n requests. */
  predicate WalkEndsAfter(total: nat, limit: nat, n: nat) {
    && n >= 1
    && (forall k :: 0 <= k < n - 1 ==> HasMore(total, limit, k))
    && !HasMore(total, limit, n - 1)
  }

  ghost predicate WorksIn(rows: seq<Row>, limit: nat, n: nat) {
    WalkEndsAfter(|rows|, limit, n) && forall orders :: Answers(orders, rows, n) ==> IsOrder(Walk(orders, limit), rows)
  }

  /** Whatever orders the database uses, the client gets every row once, newest first. */
  ghost predicate PagingWorks(rows: seq<Row>, limit: nat) { exists n: nat :: WorksIn(rows, limit, n) }

  ghost predicate Answers(orders: seq<seq<Row>>, rows: seq<Row>, n: nat) { |orders| == n && AllOrders(orders, rows) }

  /** The most rows that paging with this limit can reach without meeting the offset clamp. */
  function Reach(limit: nat): nat
    requires limit > 0
  {
    (MAX_OFFSET / limit + 1) * limit
  }

  /** Two rows of equal time stand before and after a page's end. */
  predicate TieAtPage(sorted: seq<Row>, limit: nat, k: nat) {
    var b := Asked(limit, k); 0 < b < |sorted| && sorted[b - 1].at == sorted[b].at
  }

  ghost predicate NoTieAcrossPages(sorted: seq<Row>, limit: nat) {
    forall k: nat :: !TieAtPage(sorted, limit, k)
  }

  /** How many requests it takes: ceil(total / limit), and one if nothing matches. */
  function Requests(total: nat, limit: nat): nat
    requires limit > 0
  {
    if total == 0 then 1 else (total + limit - 1) / limit
  }

  // --- Offsets ---------------------------------------------------------------------------

  lemma {:induction false} AskedIsProduct(limit: nat, k: nat)
    ensures Asked(limit, k) == k * limit
  {
    if k > 0 {
      AskedIsProduct(limit, k - 1);
      assert k * limit == (k - 1) * limit + limit;
    }
  }

  lemma {:induction false} AskedGrows(limit: nat, k: nat, n: nat)
    requires k <= n
    ensures Asked(limit, k) <= Asked(limit, n)
    decreases n
  {
    if k < n {
      AskedGrows(limit, k, n - 1);
    }
  }

  lemma ReachMeans(limit: nat)
    requires limit > 0
    ensures var q := MAX_OFFSET / limit;
            Asked(limit, q) <= MAX_OFFSET < Reach(limit) == Asked(limit, q + 1) == Asked(limit, q) + limit
  {
    var q := MAX_OFFSET / limit;
    AskedIsProduct(limit, q);
    AskedIsProduct(limit, q + 1);
    assert MAX_OFFSET == q * limit + MAX_OFFSET % limit;
  }

  /** At most 100,000 matches are always within reach. */
  lemma HundredThousandIsWithinReach(limit: nat)
    requires 1 <= limit <= 500
    ensures Reach(limit) >= MAX_OFFSET
  {
    ReachMeans(limit);
  }

  lemma RequestsMean(total: nat, limit: nat)
    requires limit > 0
    ensures var n := Requests(total, limit);
            n >= 1 && total <= Asked(limit, n) == Asked(limit, n - 1) + limit && (n == 1 || Asked(limit, n - 1) < total)
  {
    var n := Requests(total, limit);
    if total > 0 {
      assert total + limit - 1 == n * limit + (total + limit - 1) % limit;
      AskedIsProduct(limit, n);
      AskedIsProduct(limit, n - 1);
    }
  }

  lemma WithinReach(total: nat, limit: nat, k: nat)
    requires limit > 0 && total <= Reach(limit) && (k == 0 || Asked(limit, k) < total)
    ensures PageStart(limit, k) == Asked(limit, k)
  {
    var q := MAX_OFFSET / limit;
    ReachMeans(limit);
    if k <= q {
      AskedGrows(limit, k, q);
    } else {
      AskedGrows(limit, q + 1, k);
    }
  }

  /** Within reach the client stops after ceil(total / limit) requests. */
  lemma WalkEnds(total: nat, limit: nat)
    requires limit > 0 && total <= Reach(limit)
    ensures WalkEndsAfter(total, limit, Requests(total, limit))
  {
    var n := Requests(total, limit);
    RequestsMean(total, limit);
    forall k | 0 <= k < n - 1 ensures HasMore(total, limit, k) {
      AskedGrows(limit, k + 1, n - 1);
      WithinReach(total, limit, k);
    }
    WithinReach(total, limit, n - 1);
  }

  lemma WalkEndsOnce(total: nat, limit: nat, m: nat, n: nat)
    requires WalkEndsAfter(total, limit, m) && WalkEndsAfter(total, limit, n)
    ensures m <= n
  {
  }

  // --- Paging works if no tie crosses a page ------------------------------------------------

  function Min(a: nat, b: nat): nat { if a < b then a else b }

  /** The rows of the first b places, in an order with the same times. */
  predicate WalkedUpTo(walk: seq<Row>, base: seq<Row>, b: nat)
    requires b <= |base|
  {
    |walk| == b && multiset(walk) == multiset(base[..b]) && SameTimesUpTo(walk, base, b)
  }

  predicate SameTimesUpTo(walk: seq<Row>, base: seq<Row>, b: nat)
    requires b <= |walk| && b <= |base|
  {
    forall i :: 0 <= i < b ==> walk[i].at == base[i].at
  }

  lemma SameRowsOnPage(order: seq<Row>, base: seq<Row>, a: nat, b: nat)
    requires a <= b <= |base| == |order|
    requires multiset(order[..a]) == multiset(base[..a]) && multiset(order[..b]) == multiset(base[..b])
    ensures multiset(order[a..b]) == multiset(base[a..b])
  {
    assert order[..b] == order[..a] + order[a..b];
    assert base[..b] == base[..a] + base[a..b];
    assert multiset(order[a..b]) == multiset(order[..b]) - multiset(order[..a]);
    assert multiset(base[a..b]) == multiset(base[..b]) - multiset(base[..a]);
  }

  lemma SameTimesOnPage(walk: seq<Row>, order: seq<Row>, base: seq<Row>, a: nat, b: nat)
    requires a <= b <= |base| == |order| && |walk| == a && SameTimesUpTo(walk, base, a)
    requires multiset(order) == multiset(base) && Descending(order) && Descending(base)
    ensures SameTimesUpTo(walk + order[a..b], base, b)
  {
    var next := walk + order[a..b];
    forall i | 0 <= i < b ensures next[i].at == base[i].at {
      SameTimes(base, order, i);
    }
  }

  predicate TieAt(sorted: seq<Row>, b: nat) {
    0 < b < |sorted| && sorted[b - 1].at == sorted[b].at
  }

  lemma RowsSoFar(walk: seq<Row>, page: seq<Row>, base: seq<Row>, a: nat, b: nat)
    requires a <= b <= |base| && multiset(walk) == multiset(base[..a]) && multiset(page) == multiset(base[a..b])
    ensures multiset(walk + page) == multiset(base[..b])
  {
    assert base[..b] == base[..a] + base[a..b];
  }

  lemma OnePageMore(walk: seq<Row>, order: seq<Row>, base: seq<Row>, a: nat, b: nat)
    requires a <= b <= |base| == |order| && WalkedUpTo(walk, base, a)
    requires multiset(order) == multiset(base) && Descending(order) && Descending(base)
    requires !TieAt(base, a) && !TieAt(base, b)
    ensures WalkedUpTo(walk + order[a..b], base, b)
  {
    SameRowsUpTo(order, base, a);
    SameRowsUpTo(order, base, b);
    SameRowsOnPage(order, base, a, b);
    RowsSoFar(walk, order[a..b], base, a, b);
    SameTimesOnPage(walk, order, base, a, b);
  }

  lemma WindowIsSlice(order: seq<Row>, a: nat, limit: nat)
    requires a <= |order|
    ensures Window(order, a, limit) == order[a..Min(a + limit, |order|)]
  {
  }

  lemma TieFree(base: seq<Row>, limit: nat, k: nat)
    requires NoTieAcrossPages(base, limit)
    ensures !TieAt(base, Min(Asked(limit, k), |base|))
  {
    assert !TieAtPage(base, limit, k);
  }

  /** What the last of the requests returns. */
  lemma LastPage(orders: seq<seq<Row>>, rows: seq<Row>, limit: nat)
    requires limit > 0 && |rows| <= Reach(limit) && orders != [] && AllOrders(orders, rows)
    requires |orders| == 1 || Asked(limit, |orders| - 1) < |rows|
    ensures var k := |orders| - 1; var a, b := Asked(limit, k), Min(Asked(limit, k + 1), |rows|);
            && |orders[k]| == |rows| && a <= b && a == Min(a, |rows|)
            && Walk(orders, limit) == Walk(orders[..k], limit) + orders[k][a..b]
            && (k > 1 ==> Asked(limit, k - 1) < |rows|)
  {
    var k := |orders| - 1;
    WithinReach(|rows|, limit, k);
    assert IsOrder(orders[k], rows);
    SameSize(orders[k], rows);
    WindowIsSlice(orders[k], Asked(limit, k), limit);
    if k > 0 {
      AskedGrows(limit, k - 1, k);
    }
  }

  lemma NextPageWalked(orders: seq<seq<Row>>, base: seq<Row>, limit: nat, before: seq<Row>)
    requires limit > 0 && |base| <= Reach(limit) && Descending(base) && NoTieAcrossPages(base, limit)
    requires orders != [] && AllOrders(orders, base) && (|orders| == 1 || Asked(limit, |orders| - 1) < |base|)
    requires before == Walk(orders[..|orders| - 1], limit)
    requires WalkedUpTo(before, base, Min(Asked(limit, |orders| - 1), |base|))
    ensures WalkedUpTo(Walk(orders, limit), base, Min(Asked(limit, |orders|), |base|))
  {
    var k := |orders| - 1;
    LastPage(orders, base, limit);
    TieFree(base, limit, k);
    TieFree(base, limit, k + 1);
    assert IsOrder(orders[k], base);
    OnePageMore(before, orders[k], base, Asked(limit, k), Min(Asked(limit, k + 1), |base|));
  }

  lemma {:induction false} WalkWithoutTies(orders: seq<seq<Row>>, base: seq<Row>, limit: nat)
    requires limit > 0 && |base| <= Reach(limit) && Descending(base) && NoTieAcrossPages(base, limit)
    requires AllOrders(orders, base) && (|orders| <= 1 || Asked(limit, |orders| - 1) < |base|)
    ensures WalkedUpTo(Walk(orders, limit), base, Min(Asked(limit, |orders|), |base|))
  {
    if orders == [] {
      assert base[..0] == [];
    } else {
      LastPage(orders, base, limit);
      WalkWithoutTies(orders[..|orders| - 1], base, limit);
      NextPageWalked(orders, base, limit, Walk(orders[..|orders| - 1], limit));
    }
  }

  lemma WalkedAll(walk: seq<Row>, base: seq<Row>, rows: seq<Row>)
    requires WalkedUpTo(walk, base, |base|) && IsOrder(base, rows)
    ensures IsOrder(walk, rows)
  {
    assert base[..|base|] == base;
    forall i, j | 0 <= i < j < |walk| ensures walk[i].at >= walk[j].at {
      assert base[i].at >= base[j].at;
    }
  }

  lemma OrdersOfOrder(orders: seq<seq<Row>>, rows: seq<Row>, base: seq<Row>)
    requires AllOrders(orders, rows) && IsOrder(base, rows)
    ensures AllOrders(orders, base)
  {
    forall k | 0 <= k < |orders| ensures IsOrder(orders[k], base) {
      assert IsOrder(orders[k], rows);
    }
  }

  /** Within reach and without a tie across pages the walk is itself an order of the rows. */
  lemma WalkIsOrder(orders: seq<seq<Row>>, rows: seq<Row>, base: seq<Row>, limit: nat)
    requires limit > 0 && |rows| <= Reach(limit) && IsOrder(base, rows) && NoTieAcrossPages(base, limit)
    requires Answers(orders, rows, Requests(|rows|, limit))
    ensures IsOrder(Walk(orders, limit), rows)
  {
    RequestsMean(|rows|, limit);
    SameSize(base, rows);
    OrdersOfOrder(orders, rows, base);
    WalkWithoutTies(orders, base, limit);
    WalkedAll(Walk(orders, limit), base, rows);
  }

  // --- And only then --------------------------------------------------------------------------

  lemma UnclampedPages(total: nat, limit: nat, k: nat)
    requires limit > 0 && total > Reach(limit) && k <= MAX_OFFSET / limit
    ensures HasMore(total, limit, k) && PageStart(limit, k) == Asked(limit, k)
  {
    ReachMeans(limit);
    AskedGrows(limit, k, MAX_OFFSET / limit);
  }

  lemma ClampedPages(limit: nat, k: nat)
    requires limit > 0 && k > MAX_OFFSET / limit
    ensures PageStart(limit, k) == MAX_OFFSET
  {
    ReachMeans(limit);
    AskedGrows(limit, MAX_OFFSET / limit + 1, k);
  }

  lemma WalkEndsAtTheClamp(total: nat, limit: nat, n: nat)
    requires limit > 0 && total > Reach(limit) && WalkEndsAfter(total, limit, n)
    ensures n == MAX_OFFSET / limit + 2 && total <= MAX_OFFSET + limit
  {
    var q := MAX_OFFSET / limit;
    assert n - 1 > q + 1 ==> HasMore(total, limit, q + 1);
    if n - 1 <= q {
      UnclampedPages(total, limit, n - 1);
    } else {
      ClampedPages(limit, n - 1);
      ClampedPages(limit, q + 1);
    }
  }

  lemma {:induction false} FullPages(orders: seq<seq<Row>>, rows: seq<Row>, limit: nat)
    requires limit > 0 && |rows| > Reach(limit) && AllOrders(orders, rows) && |orders| <= MAX_OFFSET / limit + 1
    ensures |Walk(orders, limit)| == Asked(limit, |orders|)
  {
    if orders != [] {
      var k := |orders| - 1;
      FullPages(orders[..k], rows, limit);
      UnclampedPages(|rows|, limit, k);
      assert IsOrder(orders[k], rows);
      SameSize(orders[k], rows);
    }
  }

  lemma ClampedPage(orders: seq<seq<Row>>, rows: seq<Row>, limit: nat)
    requires limit > 0 && AllOrders(orders, rows) && |orders| == MAX_OFFSET / limit + 2
    requires MAX_OFFSET < |rows| <= MAX_OFFSET + limit
    ensures |Walk(orders, limit)| == |Walk(orders[..|orders| - 1], limit)| + |rows| - MAX_OFFSET
  {
    var k := |orders| - 1;
    ClampedPages(limit, k);
    assert IsOrder(orders[k], rows);
    SameSize(orders[k], rows);
    WindowIsSlice(orders[k], MAX_OFFSET, limit);
  }

  /** Beyond reach a client that is ever told to stop has been given more rows than there are: the offset clamp
      makes the last page start over rows already returned. */
  lemma BeyondReachRepeats(orders: seq<seq<Row>>, rows: seq<Row>, limit: nat)
    requires limit > 0 && |rows| > Reach(limit) && AllOrders(orders, rows) && WalkEndsAfter(|rows|, limit, |orders|)
    ensures |Walk(orders, limit)| > |rows|
  {
    ReachMeans(limit);
    WalkEndsAtTheClamp(|rows|, limit, |orders|);
    FullPages(orders[..|orders| - 1], rows, limit);
    ClampedPage(orders, rows, limit);
  }

  lemma {:induction false} WalkLength(orders: seq<seq<Row>>, rows: seq<Row>, limit: nat)
    requires limit > 0 && |rows| <= Reach(limit) && AllOrders(orders, rows)
    requires |orders| <= 1 || Asked(limit, |orders| - 1) < |rows|
    ensures |Walk(orders, limit)| == Min(Asked(limit, |orders|), |rows|)
  {
    if orders != [] {
      LastPage(orders, rows, limit);
      WalkLength(orders[..|orders| - 1], rows, limit);
    }
  }

  lemma RowsBeforeLastPage(orders: seq<seq<Row>>, rows: seq<Row>, limit: nat, init: seq<seq<Row>>)
    requires limit > 0 && |rows| <= Reach(limit) && orders != [] && AllOrders(orders, rows) && init == orders[..|orders| - 1]
    requires |orders| == 1 || Asked(limit, |orders| - 1) < |rows|
    ensures |Walk(init, limit)| == Min(Asked(limit, |orders| - 1), |rows|)
  {
    LastPage(orders, rows, limit);
    WalkLength(init, rows, limit);
  }

  lemma LastPageAt(orders: seq<seq<Row>>, rows: seq<Row>, limit: nat, i: nat)
    requires limit > 0 && |rows| <= Reach(limit) && orders != [] && AllOrders(orders, rows)
    requires |orders| == 1 || Asked(limit, |orders| - 1) < |rows|
    requires Asked(limit, |orders| - 1) <= i < Asked(limit, |orders| - 1) + limit && i < |rows|
    ensures var m := |orders| - 1;
            i < |Walk(orders, limit)| && i < |orders[m]| && Walk(orders, limit)[i] == orders[m][i]
  {
    var m := |orders| - 1;
    var init := orders[..m];
    RowsBeforeLastPage(orders, rows, limit, init);
    LastPage(orders, rows, limit);
    PlaceOnPage(Walk(init, limit), orders[m], Asked(limit, m), Min(Asked(limit, m + 1), |rows|), i);
  }

  lemma PlaceOnPage(before: seq<Row>, order: seq<Row>, a: nat, b: nat, i: nat)
    requires |before| == a <= i < b <= |order|
    ensures i < |before + order[a..b]| && (before + order[a..b])[i] == order[i]
  {
  }

  /** The i-th row returned is the i-th of the order used for its page. */
  lemma {:induction false} WalkAt(orders: seq<seq<Row>>, rows: seq<Row>, limit: nat, k: nat, i: nat)
    requires limit > 0 && |rows| <= Reach(limit) && AllOrders(orders, rows) && k < |orders|
    requires |orders| <= 1 || Asked(limit, |orders| - 1) < |rows|
    requires Asked(limit, k) <= i < Asked(limit, k) + limit && i < |rows|
    ensures i < |Walk(orders, limit)| && i < |orders[k]| && Walk(orders, limit)[i] == orders[k][i]
  {
    var m := |orders| - 1;
    if k < m {
      var init := orders[..m];
      LastPage(orders, rows, limit);
      WalkAt(init, rows, limit, k, i);
      assert orders[k] == init[k];
    } else {
      LastPageAt(orders, rows, limit, i);
    }
  }

  /** The orders of the counterexample: the request for the page after the tie sees its first row swapped with
      the last one of the page before. */
  function SwapAtRequest(base: seq<Row>, b: nat, k: nat, n: nat): seq<seq<Row>>
    requires 0 < b < |base|
  {
    seq(n, i => if i == k then Swapped(base, b) else base)
  }

  lemma SwapsAreOrders(rows: seq<Row>, base: seq<Row>, b: nat, k: nat, n: nat)
    requires IsOrder(base, rows) && TieAt(base, b)
    ensures AllOrders(SwapAtRequest(base, b, k, n), rows)
  {
    SwappedIsOrder(base, b);
  }

  lemma RepeatedRowIsNoOrder(walk: seq<Row>, rows: seq<Row>, i: nat, j: nat)
    requires DistinctIds(rows) && i < j < |walk| && walk[i] == walk[j]
    ensures !IsOrder(walk, rows)
  {
    if multiset(walk) == multiset(rows) {
      OrderHasDistinctIds(walk, rows);
    }
  }

  /** A tie across a page's end lets the database return a row twice, and so leave another out. */
  lemma TieRepeatsARow(rows: seq<Row>, limit: nat, k: nat) returns (orders: seq<seq<Row>>)
    requires limit > 0 && |rows| <= Reach(limit) && DistinctIds(rows) && TieAtPage(NewestFirst(rows), limit, k)
    ensures |orders| == Requests(|rows|, limit) && AllOrders(orders, rows) && !IsOrder(Walk(orders, limit), rows)
  {
    var base := NewestFirst(rows);
    var b := Asked(limit, k);
    var n := Requests(|rows|, limit);
    TieIsReached(|rows|, limit, k, b, n);
    orders := SwapAtRequest(base, b, k, n);
    SwapsAreOrders(rows, base, b, k, n);
    RowOnTwoPages(orders, rows, limit, k, b);
  }

  lemma TieIsReached(total: nat, limit: nat, k: nat, b: nat, n: nat)
    requires limit > 0 && b == Asked(limit, k) && 0 < b < total && n == Requests(total, limit)
    ensures 1 <= k < n && Asked(limit, k - 1) + limit == b && Asked(limit, n - 1) < total
  {
    RequestsMean(total, limit);
    if n <= k { AskedGrows(limit, n, k); }
  }

  lemma RowOnTwoPages(orders: seq<seq<Row>>, rows: seq<Row>, limit: nat, k: nat, b: nat)
    requires limit > 0 && |rows| <= Reach(limit) && AllOrders(orders, rows) && DistinctIds(rows)
    requires 1 <= k < |orders| && Asked(limit, |orders| - 1) < |rows|
    requires b == Asked(limit, k) == Asked(limit, k - 1) + limit < |rows|
    requires b < |orders[k]| && b - 1 < |orders[k - 1]| && orders[k][b] == orders[k - 1][b - 1]
    ensures !IsOrder(Walk(orders, limit), rows)
  {
    WalkAt(orders, rows, limit, k - 1, b - 1);
    WalkAt(orders, rows, limit, k, b);
    RepeatedRowIsNoOrder(Walk(orders, limit), rows, b - 1, b);
  }

  lemma ClampStopsPaging(rows: seq<Row>, limit: nat, n: nat)
    requires limit > 0 && |rows| > Reach(limit)
    ensures !WorksIn(rows, limit, n)
  {
    if WalkEndsAfter(|rows|, limit, n) {
      var orders := seq(n, i => NewestFirst(rows));
      assert Answers(orders, rows, n);
      BeyondReachRepeats(orders, rows, limit);
      if IsOrder(Walk(orders, limit), rows) {
        SameSize(Walk(orders, limit), rows);
      }
    }
  }

  lemma TieStopsPaging(rows: seq<Row>, limit: nat, k: nat, n: nat)
    requires limit > 0 && |rows| <= Reach(limit) && DistinctIds(rows) && TieAtPage(NewestFirst(rows), limit, k)
    ensures !WorksIn(rows, limit, n)
  {
    if WalkEndsAfter(|rows|, limit, n) {
      var orders := TieRepeatsARow(rows, limit, k);
      WalkEnds(|rows|, limit);
      WalkEndsOnce(|rows|, limit, n, |orders|);
      WalkEndsOnce(|rows|, limit, |orders|, n);
      assert Answers(orders, rows, n);
    }
  }

  lemma NoTieLetsPagingWork(rows: seq<Row>, base: seq<Row>, limit: nat)
    requires limit > 0 && |rows| <= Reach(limit) && IsOrder(base, rows) && NoTieAcrossPages(base, limit)
    ensures WorksIn(rows, limit, Requests(|rows|, limit))
  {
    var n := Requests(|rows|, limit);
    WalkEnds(|rows|, limit);
    forall orders | Answers(orders, rows, n) ensures IsOrder(Walk(orders, limit), rows) {
      WalkIsOrder(orders, rows, base, limit);
    }
  }

  /** Exactly when stepping while has_more is set returns every matching row once, newest first, whatever order
      the database gives rows of equal time at each request: the matches are within reach of the offset clamp,
      and no page ends between two rows of equal time. */
  lemma PagingWorksIff(rows: seq<Row>, limit: nat)
    requires 1 <= limit <= 500 && DistinctIds(rows)
    ensures PagingWorks(rows, limit) <==> |rows| <= Reach(limit) && NoTieAcrossPages(NewestFirst(rows), limit)
  {
    if |rows| > Reach(limit) {
      forall n: nat ensures !WorksIn(rows, limit, n) { ClampStopsPaging(rows, limit, n); }
    } else if NoTieAcrossPages(NewestFirst(rows), limit) {
      NoTieLetsPagingWork(rows, NewestFirst(rows), limit);
    } else {
      var k: nat :| TieAtPage(NewestFirst(rows), limit, k);
      forall n: nat ensures !WorksIn(rows, limit, n) { TieStopsPaging(rows, limit, k, n); }
    }
  }

  /** Matches of distinct times within reach: over the ceil(total / limit) requests the client gets exactly the
      rows of the table that meet the request, each once, in the one newest-first order. */
  lemma PagingIsComplete(rows: seq<Row>, emails: map<string, string>, q: Request, limit: nat, all: seq<Row>, orders: seq<seq<Row>>)
    requires all == Matching(rows, emails, q) && DistinctTimes(all) && 1 <= limit <= 500 && |all| <= Reach(limit)
    requires Answers(orders, all, Requests(|all|, limit))
    ensures WalkEndsAfter(|all|, limit, |orders|)
    ensures Walk(orders, limit) == NewestFirst(all)
    ensures forall r :: r in Walk(orders, limit) <==> r in rows && Wanted(q, Join(r, emails))
  {
    WalkEnds(|all|, limit);
    DistinctTimesNeverTie(all, limit);
    WalkIsOrder(orders, all, NewestFirst(all), limit);
    OrderHasDistinctTimes(NewestFirst(all), all);
    NewestFirstIsUnique(NewestFirst(all), Walk(orders, limit));
    forall r ensures r in Walk(orders, limit) <==> r in rows && Wanted(q, Join(r, emails)) {
      MatchingMeans(rows, emails, q, r);
      assert r in Walk(orders, limit) <==> r in multiset(all);
    }
  }

  lemma DistinctTimesNeverTie(rows: seq<Row>, limit: nat)
    requires DistinctTimes(rows)
    ensures NoTieAcrossPages(NewestFirst(rows), limit)
  {
    OrderHasDistinctTimes(NewestFirst(rows), rows);
  }
}
