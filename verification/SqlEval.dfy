/** What the text of a WHERE clause says of a row. The text is read word by word: columns, operators, quoted
    constants and placeholders, in a conjunction of comparisons. */
module SqlEval {
  import opened Prelude
  import opened Ledger
  import opened SqlText
  import opened Wildcards
  import Text

  /** A bound query argument. */
  datatype Arg = Str(s: string) | Num(i: int)

  /** A ledger row joined (LEFT JOIN) with the e-mail of its user, NULL if there is no such user. */
  datatype Joined = Joined(row: Row, email: Option<string>)

  // --- Words ------------------------------------------------------------------

  function FirstBlank(s: string): (n: nat)
    ensures n <= |s| && (n < |s| ==> s[n] == ' ')
    ensures forall k :: 0 <= k < n ==> s[k] != ' '
  {
    if s == "" || s[0] == ' ' then 0 else 1 + FirstBlank(s[1..])
  }

  /** The words of a text: what stands between blanks. */
  function Words(s: string): seq<string>
    decreases |s|
  {
    if s == "" then []
    else if s[0] == ' ' then Words(s[1..])
    else [s[..FirstBlank(s)]] + Words(s[FirstBlank(s)..])
  }

  // --- Meaning ------------------------------------------------------------------

  datatype Value = Null | Chars(s: string) | Whole(i: int)

  function Nullable(s: Option<string>): Value { if s.Some? then Chars(s.value) else Null }

  /** The value of a column, or of the one expression over a column that the clauses use. */
  function Column(name: string, j: Joined): Option<Value> {
    if name == "t.user_id" then Some(Chars(j.row.user))
    else if name == "t.source_trip_id" then Some(Nullable(j.row.trip))
    else if name == "u.email" then Some(Nullable(j.email))
    else if name == "lower(COALESCE(t.package_slug,''))" then
      Some(Chars(Text.ToLower(if j.row.slug.Some? then j.row.slug.value else "")))
    else if name == "t.type" then Some(Chars(if j.row.kind == Debit then "debit" else "credit"))
    else if name == "created_at" then Some(Whole(j.row.at))
    else None
  }

  /** `$n` is the n-th argument, `'...'` a constant. */
  function Operand(word: string, args: seq<Arg>): Option<Value> {
    if |word| >= 2 && word[0] == '$' && AllDigits(word[1..]) then
      var n := Val(word[1..]);
      if 1 <= n <= |args| then Some(if args[n - 1].Str? then Chars(args[n - 1].s) else Whole(args[n - 1].i)) else None
    else if |word| >= 2 && word[0] == '\'' && word[|word| - 1] == '\'' then Some(Chars(word[1..|word| - 1]))
    else None
  }

  /** A comparison with NULL, or of unlike values, is no match. */
  predicate Compare(op: string, a: Value, b: Value) {
    if a.Chars? && b.Chars? then
      if op == "=" then a.s == b.s
      else if op == "<>" then a.s != b.s
      else op == "ILIKE" && ILike(a.s, b.s)
    else if a.Whole? && b.Whole? then
      if op == "=" then a.i == b.i
      else if op == ">=" then a.i >= b.i
      else op == "<=" && a.i <= b.i
    else false
  }

  predicate Comparison(name: string, op: string, word: string, args: seq<Arg>, j: Joined) {
    && Column(name, j).Some? && Operand(word, args).Some?
    && Compare(op, Column(name, j).value, Operand(word, args).value)
  }

  /** `AND column op operand`, any number of times. */
  predicate Conjuncts(ws: seq<string>, args: seq<Arg>, j: Joined)
    decreases |ws|
  {
    ws != [] ==>
      |ws| >= 4 && ws[0] == "AND" && Comparison(ws[1], ws[2], ws[3], args, j) && Conjuncts(ws[4..], args, j)
  }

  /** `WHERE 1=1`, and any number of conjuncts. */
  predicate SelectedBy(where: string, args: seq<Arg>, j: Joined) {
    var ws := Words(where);
    |ws| >= 2 && ws[0] == "WHERE" && ws[1] == "1=1" && Conjuncts(ws[2..], args, j)
  }

  // --- Reading a text ---------------------------------------------------------------

  predicate IsWord(w: string) { w != "" && forall k :: 0 <= k < |w| ==> w[k] != ' ' }

  lemma BlankFirst(x: string)
    ensures Words(" " + x) == Words(x)
  {
    assert (" " + x)[1..] == x;
  }

  lemma WordFirst(w: string, x: string)
    requires IsWord(w) && StartsBlank(x)
    ensures Words(w + x) == [w] + Words(x)
  {
    var s := w + x;
    assert s[..|w|] == w && s[|w|..] == x;
    assert FirstBlank(s) == |w| by {
      assert x != "" ==> s[|w|] == ' ';
      assert forall k :: 0 <= k < |w| ==> s[k] == w[k];
    }
  }

  function Spaced(w: string): string { " " + w }

  lemma NextWord(w: string, x: string)
    requires IsWord(w) && StartsBlank(x)
    ensures Words(Spaced(w) + x) == [w] + Words(x)
  {
    assert Spaced(w) + x == " " + (w + x);
    BlankFirst(w + x);
    WordFirst(w, x);
  }

  /** A conjunct as it is written. */
  function Conjunct(name: string, op: string, word: string): string {
    Spaced("AND") + (Spaced(name) + (Spaced(op) + Spaced(word)))
  }

  lemma ConjunctWords(name: string, op: string, word: string, x: string)
    requires IsWord(name) && IsWord(op) && IsWord(word) && StartsBlank(x)
    ensures Words(Conjunct(name, op, word) + x) == ["AND", name, op, word] + Words(x)
  {
    NextWord(word, x);
    NextWords(op, Spaced(word), [word], x);
    NextWords(name, Spaced(op) + Spaced(word), [op] + [word], x);
    NextWords("AND", Spaced(name) + (Spaced(op) + Spaced(word)), [name] + ([op] + [word]), x);
    assert ["AND"] + ([name] + ([op] + [word])) == ["AND", name, op, word];
  }

  lemma NextWords(w: string, text: string, ws: seq<string>, x: string)
    requires IsWord(w) && text != "" && text[0] == ' ' && Words(text + x) == ws + Words(x)
    ensures Words((Spaced(w) + text) + x) == ([w] + ws) + Words(x)
  {
    assert (Spaced(w) + text) + x == Spaced(w) + (text + x);
    NextWord(w, text + x);
    assert [w] + (ws + Words(x)) == ([w] + ws) + Words(x);
  }

  lemma ConjunctMeans(text: string, name: string, op: string, word: string, x: string, args: seq<Arg>, j: Joined)
    requires text == Conjunct(name, op, word) && IsWord(name) && IsWord(op) && IsWord(word) && StartsBlank(x)
    ensures Conjuncts(Words(text + x), args, j) <==> Comparison(name, op, word, args, j) && Conjuncts(Words(x), args, j)
  {
    ConjunctWords(name, op, word, x);
    assert (["AND", name, op, word] + Words(x))[4..] == Words(x);
  }

  function Placeholder(n: nat): string { "$" + Itoa(n) }

  lemma PlaceholderMeans(n: nat, args: seq<Arg>)
    ensures IsWord(Placeholder(n))
    ensures Operand(Placeholder(n), args) ==
            if 1 <= n <= |args| then Some(if args[n - 1].Str? then Chars(args[n - 1].s) else Whole(args[n - 1].i)) else None
  {
    assert Placeholder(n)[1..] == Itoa(n);
    ValOfItoa(n);
  }

  lemma BaseText()
    ensures "WHERE 1=1" == "WHERE" + Spaced("1=1")
    ensures IsWord("WHERE") && IsWord("1=1")
  {
  }

  lemma BaseMeans(x: string, args: seq<Arg>, j: Joined)
    requires StartsBlank(x)
    ensures SelectedBy("WHERE 1=1" + x, args, j) <==> Conjuncts(Words(x), args, j)
  {
    BaseText();
    assert ("WHERE" + Spaced("1=1")) + x == "WHERE" + (Spaced("1=1") + x);
    WordFirst("WHERE", Spaced("1=1") + x);
    NextWord("1=1", x);
    assert (["WHERE"] + (["1=1"] + Words(x)))[2..] == Words(x);
  }

  // --- The fragments --------------------------------------------------------------------

  /** The row's column has the given relation to the n-th argument. */
  predicate Related(name: string, op: string, n: nat, args: seq<Arg>, j: Joined) {
    && Column(name, j).Some? && 1 <= n <= |args|
    && Compare(op, Column(name, j).value, if args[n - 1].Str? then Chars(args[n - 1].s) else Whole(args[n - 1].i))
  }

  lemma ComparisonMeans(text: string, name: string, op: string, n: nat, x: string, args: seq<Arg>, j: Joined)
    requires text == Conjunct(name, op, Placeholder(n)) && IsWord(name) && IsWord(op) && StartsBlank(x)
    ensures Conjuncts(Words(text + x), args, j) <==> Related(name, op, n, args, j) && Conjuncts(Words(x), args, j)
  {
    PlaceholderMeans(n, args);
    ConjunctMeans(text, name, op, Placeholder(n), x, args, j);
  }

  lemma LastPiece(head: string, name: string, op: string, n: nat)
    requires head == Spaced("AND") + (Spaced(name) + (Spaced(op) + " $"))
    ensures head + Itoa(n) == Conjunct(name, op, Placeholder(n))
  {
    assert Spaced(op) + Spaced(Placeholder(n)) == (Spaced(op) + " $") + Itoa(n);
  }

  lemma UserText(n: nat)
    ensures Sql(UserIs(n)) == Conjunct("t.user_id", "=", Placeholder(n))
  {
    LastPiece(" AND t.user_id = $", "t.user_id", "=", n);
  }

  lemma TripText(n: nat)
    ensures Sql(TripIs(n)) == Conjunct("t.source_trip_id", "=", Placeholder(n))
  {
    LastPiece(" AND t.source_trip_id = $", "t.source_trip_id", "=", n);
  }

  lemma EmailText(n: nat)
    ensures Sql(EmailLike(n)) == Conjunct("u.email", "ILIKE", Placeholder(n))
  {
    LastPiece(" AND u.email ILIKE $", "u.email", "ILIKE", n);
  }

  lemma HeadAround(name: string)
    ensures " AND " + name + " = $" == Spaced("AND") + (Spaced(name) + (Spaced("=") + " $"))
  {
  }

  lemma SlugTextOf(n: nat)
    ensures Sql(SlugIs(n)) == Conjunct(SLUG_EXPR, "=", Placeholder(n))
  {
    HeadAround(SLUG_EXPR);
    LastPiece(" AND " + SLUG_EXPR + " = $", SLUG_EXPR, "=", n);
  }

  lemma FromText(n: nat)
    ensures Sql(CreatedFrom(n)) == Conjunct("created_at", ">=", Placeholder(n))
  {
    LastPiece(" AND created_at >= $", "created_at", ">=", n);
  }

  lemma ToText(n: nat)
    ensures Sql(CreatedTo(n)) == Conjunct("created_at", "<=", Placeholder(n))
  {
    LastPiece(" AND created_at <= $", "created_at", "<=", n);
  }

  lemma DebitHead()
    ensures " AND t.type = 'debit' AND t.user_id = $" == " AND t.type = 'debit'" + " AND t.user_id = $"
  {
  }

  lemma CreditHead()
    ensures " AND t.type = 'credit' AND t.user_id = $" == " AND t.type = 'credit'" + " AND t.user_id = $"
  {
  }

  lemma KindText(kind: Kind)
    ensures (if kind == Debit then " AND t.type = 'debit'" else " AND t.type = 'credit'") == Conjunct("t.type", "=", KindWord(kind))
  {
    assert Conjunct("t.type", "=", "'debit'") == " AND t.type = 'debit'";
    assert Conjunct("t.type", "=", "'credit'") == " AND t.type = 'credit'";
  }

  lemma PartyText(n: nat)
    ensures Sql(DebitBy(n)) == " AND t.type = 'debit'" + Conjunct("t.user_id", "=", Placeholder(n))
    ensures Sql(CreditTo(n)) == " AND t.type = 'credit'" + Conjunct("t.user_id", "=", Placeholder(n))
  {
    LastPiece(" AND t.user_id = $", "t.user_id", "=", n);
    DebitHead();
    CreditHead();
    Regroup(" AND t.type = 'debit'", " AND t.user_id = $", Itoa(n));
    Regroup(" AND t.type = 'credit'", " AND t.user_id = $", Itoa(n));
  }

  /** The columns are told apart by their names. */
  lemma ColumnsMean(j: Joined)
    ensures Column("t.user_id", j) == Some(Chars(j.row.user))
    ensures Column("t.source_trip_id", j) == Some(Nullable(j.row.trip))
    ensures Column("u.email", j) == Some(Nullable(j.email))
    ensures Column("lower(COALESCE(t.package_slug,''))", j) ==
            Some(Chars(Text.ToLower(if j.row.slug.Some? then j.row.slug.value else "")))
    ensures Column("t.type", j) == Some(Chars(if j.row.kind == Debit then "debit" else "credit"))
    ensures Column("created_at", j) == Some(Whole(j.row.at))
  {
    assert |"t.user_id"| == 9 && |"t.source_trip_id"| == 16 && |"u.email"| == 7;
    assert |"lower(COALESCE(t.package_slug,''))"| == 34 && |"t.type"| == 6 && |"created_at"| == 10;
  }

  lemma WordsOfTheClauses()
    ensures IsWord("t.user_id") && IsWord("t.source_trip_id") && IsWord("u.email")
    ensures IsWord("lower(COALESCE(t.package_slug,''))") && IsWord("t.type") && IsWord("created_at")
    ensures IsWord("=") && IsWord("ILIKE") && IsWord(">=") && IsWord("<=") && IsWord("'debit'") && IsWord("'credit'")
  {
  }

  lemma OperatorsDiffer()
    ensures "=" != "ILIKE" && "=" != ">=" && "=" != "<=" && "<>" != "ILIKE" && ">=" != "<=" && "=" != "<>"
  {
    assert |"="| == 1 && |"ILIKE"| == 5 && |">="| == 2 && |"<="| == 2 && |"<>"| == 2;
    assert ">="[0] != "<="[0];
  }

  function KindWord(kind: Kind): string { if kind == Debit then "'debit'" else "'credit'" }

  lemma KindMeans(kind: Kind, text: string, x: string, args: seq<Arg>, j: Joined)
    requires StartsBlank(x) && text == Conjunct("t.type", "=", KindWord(kind))
    ensures Conjuncts(Words(text + x), args, j) <==> j.row.kind == kind && Conjuncts(Words(x), args, j)
  {
    var word := KindWord(kind);
    WordsOfTheClauses();
    ColumnsMean(j);
    assert word[0] == '\'' && word[|word| - 1] == '\'' && word[1..|word| - 1] == if kind == Debit then "debit" else "credit";
    assert |"debit"| == 5 && |"credit"| == 6;
    assert Operand(word, args) == Some(Chars(if kind == Debit then "debit" else "credit"));
    ConjunctMeans(text, "t.type", "=", word, x, args, j);
  }
}
