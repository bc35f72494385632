/** The SQL text of the ledger repository's WHERE clauses. A condition stands for its fragment; the number it
    carries is the `$n` placeholder in that fragment. */
module SqlText {

  datatype Cond =
    | UserIs(n: nat)
    | TripIs(n: nat)
    | EmailLike(n: nat)
    | SlugIs(n: nat)
    | DebitBy(n: nat)
    | CreditTo(n: nat)
    | CreatedFrom(n: nat)
    | CreatedTo(n: nat)

  function Digit(d: nat): char
    requires d < 10
  {
    '0' + d as char
  }

  predicate IsDigit(c: char) { '0' <= c <= '9' }

  predicate AllDigits(s: string) { forall i :: 0 <= i < |s| ==> IsDigit(s[i]) }

  /** strconv.Itoa */
  function Itoa(n: nat): (s: string)
    ensures s != "" && AllDigits(s)
  {
    if n < 10 then [Digit(n)] else Itoa(n / 10) + [Digit(n % 10)]
  }

  const SLUG_EXPR := "lower(COALESCE(t.package_slug,''))"

  /** The SQL of a condition, up to the number of its placeholder. */
  function Head(c: Cond): string {
    match c
    case UserIs(_) => " AND t.user_id = $"
    case TripIs(_) => " AND t.source_trip_id = $"
    case EmailLike(_) => " AND u.email ILIKE $"
    case SlugIs(_) => " AND " + SLUG_EXPR + " = $"
    case DebitBy(_) => " AND t.type = 'debit' AND t.user_id = $"
    case CreditTo(_) => " AND t.type = 'credit' AND t.user_id = $"
    case CreatedFrom(_) => " AND created_at >= $"
    case CreatedTo(_) => " AND created_at <= $"
  }

  function Sql(c: Cond): string { Head(c) + Itoa(c.n) }

  /** The SQL of a list of conditions. */
  function Render(conds: seq<Cond>): string {
    if conds == [] then "" else Sql(conds[0]) + Render(conds[1..])
  }

  lemma RenderCons(c: Cond, conds: seq<Cond>)
    ensures Render([c] + conds) == Sql(c) + Render(conds)
  {
    assert ([c] + conds)[1..] == conds;
  }

  lemma Regroup(a: string, b: string, c: string)
    ensures a + (b + c) == (a + b) + c
  {
  }

  lemma RenderOne(c: Cond, text: string)
    requires text == Sql(c)
    ensures Render([c]) == text == "" + text
  {
    assert [c][1..] == [];
    assert text + "" == text;
  }

  lemma RenderUnder(first: Cond, rest: seq<Cond>, c: Cond)
    requires Render(rest + [c]) == Render(rest) + Sql(c)
    ensures Render([first] + (rest + [c])) == Render([first] + rest) + Sql(c)
  {
    RenderCons(first, rest);
    RenderCons(first, rest + [c]);
    Regroup(Sql(first), Render(rest), Sql(c));
  }

  lemma {:induction false} RenderSnoc(conds: seq<Cond>, c: Cond)
    ensures Render(conds + [c]) == Render(conds) + Sql(c)
  {
    if conds == [] {
      assert conds + [c] == [c];
      RenderOne(c, Sql(c));
    } else {
      RenderSnoc(conds[1..], c);
      RenderUnder(conds[0], conds[1..], c);
      assert conds == [conds[0]] + conds[1..];
      assert conds + [c] == [conds[0]] + (conds[1..] + [c]);
    }
  }

  /** The number a string of digits denotes. */
  function Val(s: string): nat
    requires AllDigits(s)
  {
    if s == "" then 0 else Val(s[..|s| - 1]) * 10 + (s[|s| - 1] - '0') as nat
  }

  lemma {:induction false} ValOfItoa(n: nat)
    ensures Val(Itoa(n)) == n
  {
    if n >= 10 {
      ValOfItoa(n / 10);
      assert Itoa(n)[..|Itoa(n)| - 1] == Itoa(n / 10);
    } else {
      assert Itoa(n)[..0] == "";
      assert Val("") == 0;
    }
  }

  /** Nothing, or the next condition. */
  predicate StartsBlank(s: string) { s != "" ==> s[0] == ' ' }

  lemma NextIsBoth(a: string, b: string, x: string, y: string)
    requires a + x == b + y && |a| < |b|
    ensures x != "" && x[0] == b[|a|]
  {
    assert (a + x)[|a|] == (b + y)[|a|];
  }

  lemma DigitsStopAtBlank(a: string, b: string, x: string, y: string)
    requires AllDigits(b) && StartsBlank(x) && a + x == b + y
    ensures |b| <= |a|
  {
    if |a| < |b| {
      NextIsBoth(a, b, x, y);
    }
  }

  lemma DigitsEnd(a: string, b: string, x: string, y: string)
    requires AllDigits(a) && AllDigits(b) && StartsBlank(x) && StartsBlank(y) && a + x == b + y
    ensures a == b && x == y
  {
    DigitsStopAtBlank(a, b, x, y);
    DigitsStopAtBlank(b, a, y, x);
    assert a == (a + x)[..|a|] && b == (b + y)[..|b|];
    assert x == (a + x)[|a|..] && y == (b + y)[|b|..];
  }

  /** Which fragment a condition has. */
  function Kind(c: Cond): nat {
    match c
    case UserIs(_) => 0
    case TripIs(_) => 1
    case EmailLike(_) => 2
    case SlugIs(_) => 3
    case DebitBy(_) => 4
    case CreditTo(_) => 5
    case CreatedFrom(_) => 6
    case CreatedTo(_) => 7
  }

  /** The kind can be read off the text. */
  function KindOf(s: string): nat
    requires |s| >= 18
  {
    if s[5] == 'u' then 2 else if s[5] == 'l' then 3
    else if s[5] == 'c' then if s[16] == '>' then 6 else 7
    else if s[7] == 'u' then 0 else if s[7] == 's' then 1
    else if s[15] == 'd' then 4 else 5
  }

  lemma FilterHeadShowsKind(c: Cond)
    requires c.UserIs? || c.TripIs? || c.EmailLike? || c.SlugIs?
    ensures |Head(c)| >= 18 && Head(c)[0] == ' ' && KindOf(Head(c)) == Kind(c)
  {
    match c
    case UserIs(_) => assert Head(c)[5] == 't' && Head(c)[7] == 'u';
    case TripIs(_) => assert Head(c)[5] == 't' && Head(c)[7] == 's';
    case EmailLike(_) => assert Head(c)[5] == 'u';
    case SlugIs(_) => assert Head(c)[5] == 'l';
  }

  lemma PartyHeadShowsKind(c: Cond)
    requires c.DebitBy? || c.CreditTo?
    ensures |Head(c)| >= 18 && Head(c)[0] == ' ' && KindOf(Head(c)) == Kind(c)
  {
    match c
    case DebitBy(_) => assert Head(c)[5] == 't' && Head(c)[7] == 't' && Head(c)[15] == 'd';
    case CreditTo(_) => assert Head(c)[5] == 't' && Head(c)[7] == 't' && Head(c)[15] == 'c';
  }

  lemma RangeHeadShowsKind(c: Cond)
    requires c.CreatedFrom? || c.CreatedTo?
    ensures |Head(c)| >= 18 && Head(c)[0] == ' ' && KindOf(Head(c)) == Kind(c)
  {
    match c
    case CreatedFrom(_) => assert Head(c)[5] == 'c' && Head(c)[16] == '>';
    case CreatedTo(_) => assert Head(c)[5] == 'c' && Head(c)[16] == '<';
  }

  lemma HeadShowsKind(c: Cond)
    ensures |Head(c)| >= 18 && Head(c)[0] == ' ' && KindOf(Head(c)) == Kind(c)
  {
    if c.UserIs? || c.TripIs? || c.EmailLike? || c.SlugIs? {
      FilterHeadShowsKind(c);
    } else if c.DebitBy? || c.CreditTo? {
      PartyHeadShowsKind(c);
    } else {
      RangeHeadShowsKind(c);
    }
  }

  lemma SameKind(c: Cond, d: Cond)
    requires Kind(c) == Kind(d)
    ensures Head(c) == Head(d) && (c.n == d.n ==> c == d)
  {
  }

  lemma SameStart(h: string, k: string, x: string, y: string)
    requires |h| >= 18 && |k| >= 18 && h + x == k + y
    ensures KindOf(h) == KindOf(k)
  {
    forall i | 0 <= i < 18 ensures h[i] == k[i] {
      assert (h + x)[i] == h[i] && (k + y)[i] == k[i];
    }
  }

  lemma DropHead(h: string, x: string, y: string)
    requires h + x == h + y
    ensures x == y
  {
    assert x == (h + x)[|h|..] && y == (h + y)[|h|..];
  }

  lemma FirstFragment(c: Cond, d: Cond, x: string, y: string)
    requires Sql(c) + x == Sql(d) + y && StartsBlank(x) && StartsBlank(y)
    ensures c == d && x == y
  {
    var h, k := Head(c), Head(d);
    var u, v := Itoa(c.n) + x, Itoa(d.n) + y;
    assert Sql(c) + x == h + u && Sql(d) + y == k + v;
    HeadShowsKind(c);
    HeadShowsKind(d);
    SameStart(h, k, u, v);
    SameKind(c, d);
    DropHead(h, u, v);
    DigitsEnd(Itoa(c.n), Itoa(d.n), x, y);
    ValOfItoa(c.n);
    ValOfItoa(d.n);
  }

  lemma RenderStartsBlank(conds: seq<Cond>)
    ensures StartsBlank(Render(conds)) && (conds != [] ==> Render(conds) != "")
  {
    if conds != [] {
      HeadShowsKind(conds[0]);
    }
  }

  lemma FirstAgrees(a: seq<Cond>, b: seq<Cond>)
    requires a != [] && b != [] && Render(a) == Render(b)
    ensures a[0] == b[0] && Render(a[1..]) == Render(b[1..])
  {
    RenderStartsBlank(a[1..]);
    RenderStartsBlank(b[1..]);
    FirstFragment(a[0], b[0], Render(a[1..]), Render(b[1..]));
  }

  lemma SameParts(a: seq<Cond>, b: seq<Cond>)
    requires a != [] && b != [] && a[0] == b[0] && a[1..] == b[1..]
    ensures a == b
  {
    assert a == [a[0]] + a[1..] && b == [b[0]] + b[1..];
  }

  /** A text states one list of conditions only, so what it selects is well defined. */
  lemma {:induction false} TextIsUnambiguous(a: seq<Cond>, b: seq<Cond>)
    requires Render(a) == Render(b)
    ensures a == b
  {
    RenderStartsBlank(a);
    RenderStartsBlank(b);
    if a != [] {
      FirstAgrees(a, b);
      TextIsUnambiguous(a[1..], b[1..]);
      SameParts(a, b);
    }
  }
}
