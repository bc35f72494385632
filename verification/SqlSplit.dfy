/** sqlmigrate.splitSQL: cutting a schema file into statements at the semicolons outside `$$ ... $$` bodies. */
module SqlSplit {
  import Text

  predicate PairAt(s: string, i: nat) {
    i + 1 < |s| && s[i] == '$' && s[i + 1] == '$'
  }

  /** How many `$$` pairs start before position i; pairs may overlap, as in `$$$`. */
  function Toggles(s: string, i: nat): nat {
    if i == 0 then 0 else Toggles(s, i - 1) + if PairAt(s, i - 1) then 1 else 0
  }

  predicate InDollar(s: string, i: nat) { Toggles(s, i) % 2 == 1 }

  /** A semicolon that ends a statement. */
  predicate Cut(s: string, i: nat) {
    i < |s| && s[i] == ';' && !InDollar(s, i)
  }

  predicate OccursAt(s: string, word: string, j: nat) {
    j + |word| <= |s| && s[j..j + |word|] == word
  }

  /** The positions before i at which a `$$` starts. */
  function PairsBefore(s: string, i: nat): set<nat> {
    set j: nat | j < i && OccursAt(s, "$$", j)
  }

  lemma PairOccurs(s: string, j: nat)
    ensures OccursAt(s, "$$", j) <==> PairAt(s, j)
  {
    if j + 2 <= |s| {
      assert s[j..j + 2] == [s[j], s[j + 1]];
    }
  }

  lemma {:induction false} TogglesCountPairs(s: string, i: nat)
    ensures Toggles(s, i) == |PairsBefore(s, i)|
  {
    if i == 0 {
      assert PairsBefore(s, 0) == {};
    } else {
      TogglesCountPairs(s, i - 1);
      var last: set<nat> := if PairAt(s, i - 1) then {i - 1} else {};
      forall j: nat ensures OccursAt(s, "$$", j) <==> PairAt(s, j) {
        PairOccurs(s, j);
      }
      assert PairsBefore(s, i) == PairsBefore(s, i - 1) + last;
    }
  }

  /** A semicolon ends a statement exactly if an even number of `$$` starts before it. */
  lemma CutMeans(s: string, i: nat)
    ensures Cut(s, i) <==> i < |s| && s[i] == ';' && |PairsBefore(s, i)| % 2 == 0
  {
    TogglesCountPairs(s, i);
  }

  /** One more character: a cut closes the open piece, anything else extends it. */
  function Extend(ps: seq<string>, cut: bool, c: char): (qs: seq<string>)
    requires ps != []
    ensures qs != []
  {
    if cut then ps + [""] else ps[..|ps| - 1] + [ps[|ps| - 1] + [c]]
  }

  /** The pieces of the first n characters; the last one is still open. */
  function PiecesUpTo(s: string, n: nat): (ps: seq<string>)
    requires n <= |s|
    ensures ps != []
  {
    if n == 0 then [""] else Extend(PiecesUpTo(s, n - 1), Cut(s, n - 1), s[n - 1])
  }

  function Pieces(s: string): seq<string> { PiecesUpTo(s, |s|) }

  function TrimAll(ps: seq<string>): (ts: seq<string>)
    ensures |ts| == |ps|
  {
    if ps == [] then [] else TrimAll(ps[..|ps| - 1]) + [Text.Trim(ps[|ps| - 1])]
  }

  /** Every piece trimmed; the last one only if something is left of it. */
  function Statements(ps: seq<string>): seq<string>
    requires ps != []
  {
    var tail := Text.Trim(ps[|ps| - 1]);
    TrimAll(ps[..|ps| - 1]) + if tail != "" then [tail] else []
  }

  lemma NextPieces(src: string, i: nat, done: seq<string>, cur: string)
    requires i < |src| && PiecesUpTo(src, i) == done + [cur]
    ensures PiecesUpTo(src, i + 1) == if Cut(src, i) then done + [cur] + [""] else done + [cur + [src[i]]]
    ensures InDollar(src, i + 1) == (InDollar(src, i) != PairAt(src, i))
  {
    assert (done + [cur])[..|done|] == done;
  }

  lemma TrimAllSnoc(done: seq<string>, cur: string)
    ensures TrimAll(done + [cur]) == TrimAll(done) + [Text.Trim(cur)]
    ensures Statements(done + [cur]) == TrimAll(done) + if Text.Trim(cur) != "" then [Text.Trim(cur)] else []
  {
    assert (done + [cur])[..|done|] == done;
  }

  method SplitSQL(src: string) returns (out: seq<string>)
    ensures out == Statements(Pieces(src))
  {
    out := [];
    var cur := "";
    var inDollar := false;
    ghost var done := [];
    for i := 0 to |src|
      invariant PiecesUpTo(src, i) == done + [cur]
      invariant out == TrimAll(done)
      invariant inDollar == InDollar(src, i)
    {
      var c := src[i];
      NextPieces(src, i, done, cur);
      if c == '$' && i + 1 < |src| && src[i + 1] == '$' {
        inDollar := !inDollar;
        cur := cur + [c];
        continue;
      }
      if c == ';' && !inDollar {
        TrimAllSnoc(done, cur);
        out := out + [Text.Trim(cur)];
        done := done + [cur];
        cur := "";
        continue;
      }
      cur := cur + [c];
    }
    TrimAllSnoc(done, cur);
    var tail := Text.Trim(cur);
    if tail != "" {
      out := out + [tail];
    }
  }

  /** strings.Join(ps, ";") */
  function Join(ps: seq<string>): string {
    if ps == [] then ""
    else if |ps| == 1 then ps[0]
    else Join(ps[..|ps| - 1]) + ";" + ps[|ps| - 1]
  }

  /** Nothing is lost or reordered: the untrimmed pieces joined by ";" are the source. */
  lemma PiecesRestoreTheSource(s: string)
    ensures Join(Pieces(s)) == s
  {
    PiecesRestorePrefix(s, |s|);
    assert s[..|s|] == s;
  }

  lemma PrefixGrows(s: string, n: nat)
    requires 0 < n <= |s|
    ensures s[..n] == s[..n - 1] + [s[n - 1]]
  {
  }

  lemma {:induction false} PiecesRestorePrefix(s: string, n: nat)
    requires n <= |s|
    ensures Join(PiecesUpTo(s, n)) == s[..n]
  {
    if n > 0 {
      PiecesRestorePrefix(s, n - 1);
      JoinExtend(PiecesUpTo(s, n - 1), Cut(s, n - 1), s[n - 1]);
      PrefixGrows(s, n);
    }
  }

  lemma JoinSnoc(init: seq<string>, last: string)
    ensures Join(init + [last]) == if init == [] then last else Join(init) + ";" + last
  {
    assert (init + [last])[..|init|] == init;
  }

  lemma JoinExtend(ps: seq<string>, cut: bool, c: char)
    requires ps != [] && (cut ==> c == ';')
    ensures Join(Extend(ps, cut, c)) == Join(ps) + [c]
  {
    if cut {
      JoinSnoc(ps, "");
    } else {
      var init, last := ps[..|ps| - 1], ps[|ps| - 1];
      assert ps == init + [last];
      JoinSnoc(init, last);
      JoinSnoc(init, last + [c]);
    }
  }

  predicate Balanced(s: string) { !InDollar(s, |s|) }

  predicate NoCut(s: string) { forall i :: 0 <= i < |s| ==> !Cut(s, i) }

  /** What can stand between two cuts. */
  predicate Clean(ps: seq<string>) {
    && (forall k :: 0 <= k < |ps| ==> NoCut(ps[k]))
    && (forall k :: 0 <= k < |ps| - 1 ==> Balanced(ps[k]))
  }

  lemma {:induction false} TogglesOfPart(s: string, from: nat, to: nat, k: nat)
    requires from + k <= to <= |s|
    requires from + k < to || to == |s| || s[to] != '$'
    ensures Toggles(s, from + k) == Toggles(s, from) + Toggles(s[from..to], k)
  {
    if k > 0 {
      TogglesOfPart(s, from, to, k - 1);
      assert PairAt(s, from + k - 1) <==> PairAt(s[from..to], k - 1);
    }
  }

  /** Text between two positions outside `$$` bodies, with no cut between them, has no cut of its own. */
  lemma PartHasNoCut(s: string, from: nat, to: nat)
    requires from <= to <= |s| && !InDollar(s, from)
    requires forall i :: from <= i < to ==> !Cut(s, i)
    ensures NoCut(s[from..to])
  {
    forall i | 0 <= i < to - from ensures !Cut(s[from..to], i) {
      TogglesOfPart(s, from, to, i);
      assert !Cut(s, from + i);
    }
  }

  /** The open piece starts at `from`, outside `$$` bodies, and everything before it is clean and balanced. */
  predicate OpenFrom(s: string, n: nat, from: nat)
    requires n <= |s|
  {
    var ps := PiecesUpTo(s, n);
    && from <= n && !InDollar(s, from)
    && (forall i :: from <= i < n ==> !Cut(s, i))
    && ps[|ps| - 1] == s[from..n]
    && forall k :: 0 <= k < |ps| - 1 ==> NoCut(ps[k]) && Balanced(ps[k])
  }

  lemma OpenAfterCut(s: string, n: nat, from: nat)
    requires 0 < n <= |s| && OpenFrom(s, n - 1, from) && Cut(s, n - 1)
    ensures OpenFrom(s, n, n)
  {
    var ps := PiecesUpTo(s, n - 1);
    PartHasNoCut(s, from, n - 1);
    TogglesOfPart(s, from, n - 1, n - 1 - from);
    assert Toggles(s, n) == Toggles(s, n - 1);
    var qs := ps + [""];
    assert PiecesUpTo(s, n) == qs && qs[|qs| - 1] == s[n..n];
    forall k | 0 <= k < |qs| - 1 ensures NoCut(qs[k]) && Balanced(qs[k]) {
      assert qs[k] == ps[k];
    }
  }

  lemma OpenAfterOther(s: string, n: nat, from: nat)
    requires 0 < n <= |s| && OpenFrom(s, n - 1, from) && !Cut(s, n - 1)
    ensures OpenFrom(s, n, from)
  {
    var ps := PiecesUpTo(s, n - 1);
    var qs := ps[..|ps| - 1] + [ps[|ps| - 1] + [s[n - 1]]];
    assert PiecesUpTo(s, n) == qs && qs[|qs| - 1] == s[from..n];
    forall k | 0 <= k < |qs| - 1 ensures NoCut(qs[k]) && Balanced(qs[k]) {
      assert qs[k] == ps[k];
    }
  }

  lemma {:induction false} OpenPiece(s: string, n: nat) returns (from: nat)
    requires n <= |s|
    ensures OpenFrom(s, n, from)
  {
    if n == 0 {
      from := 0;
    } else {
      from := OpenPiece(s, n - 1);
      if Cut(s, n - 1) {
        OpenAfterCut(s, n, from);
        from := n;
      } else {
        OpenAfterOther(s, n, from);
      }
    }
  }

  lemma PiecesAreClean(s: string)
    ensures Clean(Pieces(s))
  {
    var from := OpenPiece(s, |s|);
    PartHasNoCut(s, from, |s|);
  }

  lemma {:induction false} PiecesOfClean(s: string, n: nat)
    requires n <= |s| && NoCut(s)
    ensures PiecesUpTo(s, n) == [s[..n]]
  {
    if n > 0 {
      PiecesOfClean(s, n - 1);
      assert s[..n] == s[..n - 1] + [s[n - 1]];
    }
  }

  lemma {:induction false} PiecesBeforeJoint(a: string, b: string, n: nat)
    requires n <= |a|
    ensures Toggles(a + ";" + b, n) == Toggles(a, n)
    ensures PiecesUpTo(a + ";" + b, n) == PiecesUpTo(a, n)
  {
    if n > 0 {
      PiecesBeforeJoint(a, b, n - 1);
      assert PairAt(a + ";" + b, n - 1) <==> PairAt(a, n - 1);
    }
  }

  lemma TogglesAfterJoint(a: string, b: string, n: nat)
    requires n <= |b|
    ensures Toggles(a + ";" + b, |a| + 1 + n) == Toggles(a, |a|) + Toggles(b, n)
  {
    var s := a + ";" + b;
    PiecesBeforeJoint(a, b, |a|);
    assert s[|a|] == ';' && s[|a| + 1..|s|] == b;
    assert Toggles(s, |a| + 1) == Toggles(s, |a|);
    TogglesOfPart(s, |a| + 1, |s|, n);
  }

  lemma ExtendTheTail(ps: seq<string>, qs: seq<string>, cut: bool, c: char)
    requires qs != []
    ensures Extend(ps + qs, cut, c) == ps + Extend(qs, cut, c)
  {
    var whole := ps + qs;
    assert whole[..|whole| - 1] == ps + qs[..|qs| - 1];
  }

  lemma CutAfterJoint(s: string, a: string, b: string, n: nat)
    requires s == a + ";" + b && n < |b| && Balanced(a)
    ensures Cut(s, |a| + 1 + n) == Cut(b, n) && s[|a| + 1 + n] == b[n]
  {
    TogglesAfterJoint(a, b, n);
  }

  lemma PiecesAtJoint(s: string, a: string, b: string)
    requires s == a + ";" + b && Balanced(a)
    ensures PiecesUpTo(s, |a| + 1) == Pieces(a) + PiecesUpTo(b, 0)
  {
    PiecesBeforeJoint(a, b, |a|);
    assert s[|a|] == ';';
  }

  lemma PiecesStep(s: string, m: nat, t: string, n: nat, head: seq<string>)
    requires m < |s| && n < |t| && PiecesUpTo(s, m) == head + PiecesUpTo(t, n)
    requires Cut(s, m) == Cut(t, n) && s[m] == t[n]
    ensures PiecesUpTo(s, m + 1) == head + PiecesUpTo(t, n + 1)
  {
    ExtendTheTail(head, PiecesUpTo(t, n), Cut(t, n), t[n]);
  }

  lemma {:induction false} PiecesAfterJoint(s: string, a: string, b: string, n: nat)
    requires s == a + ";" + b && n <= |b| && Balanced(a)
    ensures PiecesUpTo(s, |a| + 1 + n) == Pieces(a) + PiecesUpTo(b, n)
    decreases n
  {
    if n == 0 {
      PiecesAtJoint(s, a, b);
    } else {
      PiecesAfterJoint(s, a, b, n - 1);
      CutAfterJoint(s, a, b, n - 1);
      PiecesStep(s, |a| + n, b, n - 1, Pieces(a));
    }
  }

  lemma {:induction false} JoinOfBalanced(ps: seq<string>)
    requires forall k :: 0 <= k < |ps| ==> Balanced(ps[k])
    ensures Balanced(Join(ps))
  {
    if |ps| > 1 {
      var init, last := ps[..|ps| - 1], ps[|ps| - 1];
      JoinOfBalanced(init);
      TogglesAfterJoint(Join(init), last, |last|);
    }
  }

  lemma PiecesOfJoined(s: string, a: string, b: string)
    requires s == a + ";" + b && Balanced(a)
    ensures Pieces(s) == Pieces(a) + Pieces(b)
  {
    PiecesAfterJoint(s, a, b, |b|);
  }

  lemma PiecesOfOne(s: string)
    requires NoCut(s)
    ensures Pieces(s) == [s]
  {
    PiecesOfClean(s, |s|);
    assert s[..|s|] == s;
  }

  lemma {:induction false} PiecesOfJoin(ps: seq<string>)
    requires ps != [] && Clean(ps)
    ensures Pieces(Join(ps)) == ps
  {
    var init, last := ps[..|ps| - 1], ps[|ps| - 1];
    PiecesOfOne(last);
    if |ps| > 1 {
      PiecesOfJoin(init);
      JoinOfBalanced(init);
      PiecesOfJoined(Join(ps), Join(init), last);
    }
  }

  /** Exactly which lists of texts survive joining and cutting: no text has a semicolon outside a `$$` body,
      and every text but the last closes its `$$` bodies. */
  lemma CutUndoesJoinIff(ps: seq<string>)
    requires ps != []
    ensures Pieces(Join(ps)) == ps <==> Clean(ps)
  {
    if Clean(ps) {
      PiecesOfJoin(ps);
    } else {
      PiecesAreClean(Join(ps));
    }
  }

  lemma {:induction false} TrimAllOfTrimmed(ps: seq<string>)
    requires forall k :: 0 <= k < |ps| ==> Text.Trimmed(ps[k])
    ensures TrimAll(ps) == ps
  {
    if ps != [] {
      TrimAllOfTrimmed(ps[..|ps| - 1]);
      Text.TrimOfTrimmed(ps[|ps| - 1]);
    }
  }

  lemma StatementsOfTrimmed(ps: seq<string>)
    requires ps != [] && ps[|ps| - 1] != ""
    requires forall k :: 0 <= k < |ps| ==> Text.Trimmed(ps[k])
    ensures Statements(ps) == ps
  {
    TrimAllOfTrimmed(ps[..|ps| - 1]);
    Text.TrimOfTrimmed(ps[|ps| - 1]);
  }

  /** splitSQL undoes joining by ";" of trimmed, non-empty statements with balanced `$$` bodies and no
      semicolon outside them. */
  lemma SplitUndoesJoin(stmts: seq<string>)
    requires Clean(stmts)
    requires forall k :: 0 <= k < |stmts| ==> Text.Trimmed(stmts[k]) && stmts[k] != ""
    ensures Statements(Pieces(Join(stmts))) == stmts
  {
    if stmts == [] {
      Text.TrimOfTrimmed("");
      assert Pieces("") == [""] && [""][..0] == [];
    } else {
      PiecesOfJoin(stmts);
      StatementsOfTrimmed(stmts);
    }
  }

  // --- Splitting again -------------------------------------------------------------------------

  lemma TrimKeepsNoCut(s: string)
    requires NoCut(s)
    ensures NoCut(Text.Trim(s))
  {
    var i, j := Text.TrimCutsTheEnds(s);
    NoTogglesInBlanks(s, 0, i);
    forall k | 0 <= k < j - i ensures !Cut(s[i..j], k) {
      TogglesOfPart(s, i, j, k);
      assert !Cut(s, i + k);
    }
  }

  /** White space holds no `$`. */
  lemma {:induction false} NoTogglesInBlanks(s: string, a: nat, b: nat)
    requires a <= b <= |s| && Text.AllSpace(s[a..b])
    ensures Toggles(s, b) == Toggles(s, a)
    decreases b
  {
    if a < b {
      assert s[a..b - 1] == s[a..b][..b - a - 1];
      NoTogglesInBlanks(s, a, b - 1);
      assert Text.IsSpace(s[a..b][b - a - 1]);
    }
  }

  lemma TrimKeepsBalance(s: string)
    requires Balanced(s)
    ensures Balanced(Text.Trim(s))
  {
    var i, j := Text.TrimCutsTheEnds(s);
    NoTogglesInBlanks(s, 0, i);
    assert s[j..|s|] == s[j..];
    NoTogglesInBlanks(s, j, |s|);
    if j < |s| {
      assert Text.IsSpace(s[j..][0]);
    }
    TogglesOfPart(s, i, j, j - i);
  }

  lemma {:induction false} TrimAllAt(ps: seq<string>, k: nat)
    requires k < |ps|
    ensures TrimAll(ps)[k] == Text.Trim(ps[k])
  {
    if k < |ps| - 1 {
      TrimAllAt(ps[..|ps| - 1], k);
    }
  }

  /** Each statement is one of the pieces, trimmed; the last piece may be missing. */
  lemma StatementAt(ps: seq<string>, k: nat)
    requires ps != [] && k < |Statements(ps)|
    ensures k < |ps| && Statements(ps)[k] == Text.Trim(ps[k])
  {
    var init := ps[..|ps| - 1];
    if k < |init| {
      TrimAllAt(init, k);
    }
  }

  /** What comes out is trimmed, holds no cut, and closes its `$$` bodies unless the source leaves one open. */
  lemma StatementsAreClean(s: string)
    ensures var out := Statements(Pieces(s)); Clean(out) && forall k :: 0 <= k < |out| ==> Text.Trimmed(out[k])
  {
    var ps := Pieces(s);
    var out := Statements(ps);
    PiecesAreClean(s);
    forall k | 0 <= k < |out| ensures NoCut(out[k]) && Text.Trimmed(out[k]) && (k < |out| - 1 ==> Balanced(out[k])) {
      StatementAt(ps, k);
      TrimKeepsNoCut(ps[k]);
      var i, j := Text.TrimCutsTheEnds(ps[k]);
      if k < |out| - 1 {
        TrimKeepsBalance(ps[k]);
      }
    }
  }

  lemma EmptyLastIsDropped(out: seq<string>)
    requires out != [] && out[|out| - 1] == "" && Clean(out)
    ensures |Statements(Pieces(Join(out)))| < |out|
  {
    PiecesOfJoin(out);
    Text.TrimOfTrimmed("");
  }

  /** Splitting the joined statements again gives the same statements exactly if the last one is not empty:
      `a;;` gives `a` and an empty statement, which joined by ";" give `a;`, and that gives `a` alone. */
  lemma SplitIsIdempotentIff(s: string)
    ensures var out := Statements(Pieces(s));
            Statements(Pieces(Join(out))) == out <==> out == [] || out[|out| - 1] != ""
  {
    var out := Statements(Pieces(s));
    StatementsAreClean(s);
    if out == [] {
      Text.TrimOfTrimmed("");
      assert Pieces("") == [""] && [""][..0] == [];
    } else if out[|out| - 1] != "" {
      PiecesOfJoin(out);
      StatementsOfTrimmed(out);
    } else {
      EmptyLastIsDropped(out);
    }
  }
}
