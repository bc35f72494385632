/** ILIKE, and what the e-mail filter of the ledger means by "contains". */
module Wildcards {
  import Text

  /** LIKE with `%`, `_` and the escape `\`. */
  function Like(s: string, p: string): bool
    decreases |p|, |s|
  {
    if p == [] then s == []
    else if p[0] == '%' then Like(s, p[1..]) || (s != [] && Like(s[1..], p))
    else if p[0] == '\\' && |p| > 1 then s != [] && s[0] == p[1] && Like(s[1..], p[2..])
    else s != [] && (p[0] == '_' || s[0] == p[0]) && Like(s[1..], p[1..])
  }

  predicate ILike(s: string, p: string) {
    Like(Text.ToLower(s), Text.ToLower(p))
  }

  predicate Plain(p: string) {
    '%' !in p && '_' !in p && '\\' !in p
  }

  predicate Contains(s: string, p: string) {
    exists i :: 0 <= i <= |s| && p <= s[i..]
  }

  lemma {:induction false} LikeRest(s: string)
    ensures Like(s, "%")
  {
    if s != [] {
      LikeRest(s[1..]);
    } else {
      assert "%"[1..] == [];
    }
  }

  lemma {:induction false} LikePrefix(s: string, p: string)
    requires Plain(p)
    ensures Like(s, p + "%") <==> p <= s
    decreases |p|
  {
    var q := p + "%";
    if p == [] {
      assert q == "%";
      LikeRest(s);
    } else {
      assert q[0] == p[0] && q[1..] == p[1..] + "%";
      if s != [] {
        LikePrefix(s[1..], p[1..]);
        assert p <= s <==> p[0] == s[0] && p[1..] <= s[1..];
      }
    }
  }

  lemma {:induction false} LikeAnywhere(s: string, p: string)
    requires Plain(p)
    ensures Like(s, "%" + p + "%") <==> Contains(s, p)
    decreases |s|
  {
    var q := "%" + p + "%";
    assert q[0] == '%' && q[1..] == p + "%";
    LikePrefix(s, p);
    assert s[0..] == s;
    if s != [] {
      LikeAnywhere(s[1..], p);
      if Contains(s, p) && !(p <= s) {
        var i :| 0 <= i <= |s| && p <= s[i..];
        assert s[1..][i - 1..] == s[i..];
      }
      if Contains(s[1..], p) {
        var i :| 0 <= i <= |s[1..]| && p <= s[1..][i..];
        assert s[i + 1..] == s[1..][i..];
      }
    }
  }

  lemma LowerFirst(s: string)
    requires s != ""
    ensures Text.ToLower(s) == [Text.LowerChar(s[0])] + Text.ToLower(s[1..])
  {
  }

  lemma {:induction false} ToLowerAppend(s: string, t: string)
    ensures Text.ToLower(s + t) == Text.ToLower(s) + Text.ToLower(t)
  {
    if s == [] {
      assert s + t == t;
    } else {
      var rest := s[1..];
      ToLowerAppend(rest, t);
      LowerFirst(s);
      LowerFirst(s + t);
      assert (s + t)[1..] == rest + t && (s + t)[0] == s[0];
    }
  }

  lemma {:induction false} ToLowerFixes(s: string)
    requires forall i :: 0 <= i < |s| ==> Text.LowerChar(s[i]) == s[i]
    ensures Text.ToLower(s) == s
  {
    if s != [] {
      ToLowerFixes(s[1..]);
    }
  }

  lemma {:induction false} ToLowerIsLower(s: string)
    ensures forall i :: 0 <= i < |s| ==> Text.LowerChar(Text.ToLower(s)[i]) == Text.ToLower(s)[i]
  {
    if s != [] {
      ToLowerIsLower(s[1..]);
    }
  }

  lemma FilterPattern(email: string, text: string)
    ensures ILike(email, "%" + text + "%") <==> Like(Text.ToLower(email), "%" + Text.ToLower(text) + "%")
  {
    ToLowerFixes("%");
    ToLowerAppend("%" + text, "%");
    ToLowerAppend("%", text);
  }

  /** The shortest text matching p followed by `%`; a lone escape at the end of p escapes that `%`. */
  function Shortest(p: string): string {
    if p == [] then []
    else if p[0] == '%' then Shortest(p[1..])
    else if p[0] == '_' then ['a'] + Shortest(p[1..])
    else if p[0] == '\\' then if |p| > 1 then [p[1]] + Shortest(p[2..]) else ['%']
    else [p[0]] + Shortest(p[1..])
  }

  lemma {:induction false} ShortestMatches(p: string)
    ensures Like(Shortest(p), p + "%")
    decreases |p|
  {
    var q := p + "%";
    if p == [] {
      LikeRest([]);
    } else if p[0] == '\\' && |p| == 1 {
      assert q[0] == '\\' && q[1] == '%' && q[2..] == [];
      assert Shortest(p)[1..] == [];
    } else if p[0] == '\\' {
      assert q[2..] == p[2..] + "%" && q[1] == p[1];
      ShortestMatches(p[2..]);
      assert Shortest(p)[1..] == Shortest(p[2..]);
    } else {
      assert q[1..] == p[1..] + "%";
      ShortestMatches(p[1..]);
      if p[0] != '%' {
        assert Shortest(p)[1..] == Shortest(p[1..]);
      }
    }
  }

  /** It is never longer than p, and equals it only if p has no wildcard. */
  lemma {:induction false} ShortestIsShort(p: string)
    ensures |Shortest(p)| <= |p| && (Shortest(p) == p ==> Plain(p))
    decreases |p|
  {
    if p != [] {
      if p[0] == '\\' && |p| > 1 {
        ShortestIsShort(p[2..]);
      } else if p[0] != '\\' {
        ShortestIsShort(p[1..]);
        if Shortest(p) == p {
          assert Shortest(p[1..]) == Shortest(p)[1..];
          assert p == [p[0]] + p[1..];
        }
      }
    }
  }

  lemma {:induction false} ShortestIsLower(p: string)
    requires forall i :: 0 <= i < |p| ==> Text.LowerChar(p[i]) == p[i]
    ensures forall i :: 0 <= i < |Shortest(p)| ==> Text.LowerChar(Shortest(p)[i]) == Shortest(p)[i]
    decreases |p|
  {
    if p != [] {
      if p[0] == '\\' && |p| > 1 {
        ShortestIsLower(p[2..]);
      } else if p[0] != '\\' {
        ShortestIsLower(p[1..]);
      }
    }
  }

  /** Does the filter select exactly the e-mails that contain the text, letter case aside? */
  ghost predicate MeansContains(text: string) {
    forall email: string :: ILike(email, "%" + text + "%") <==> Contains(Text.ToLower(email), Text.ToLower(text))
  }

  lemma NoLongerThanPart(s: string, p: string)
    requires Contains(s, p) && |s| <= |p|
    ensures s == p
  {
    var i :| 0 <= i <= |s| && p <= s[i..];
    assert i == 0 && s[0..] == s;
  }

  /** If that is empty, every text matches. */
  lemma {:induction false} OnlyPercentMatchesAll(p: string, s: string)
    requires Shortest(p) == ""
    ensures Like(s, p + "%") && (p != "" ==> '%' in p)
    decreases |p|
  {
    var q := p + "%";
    if p == [] {
      assert q == "%";
      LikeRest(s);
    } else {
      assert p[0] == '%' && q[1..] == p[1..] + "%";
      OnlyPercentMatchesAll(p[1..], s);
    }
  }

  lemma PartsAreMembers(s: string, p: string, c: char)
    requires Contains(s, p) && c in p
    ensures c in s
  {
    var i :| 0 <= i <= |s| && p <= s[i..];
    var k :| 0 <= k < |p| && p[k] == c;
    assert s[i..][k] == s[i + k] == c;
  }

  /** A text with a wildcard in it selects some e-mail that does not contain it. */
  lemma WildcardMatchesMore(text: string) returns (email: string)
    requires !Plain(Text.ToLower(text))
    ensures email != "" && ILike(email, "%" + text + "%") && !Contains(Text.ToLower(email), Text.ToLower(text))
  {
    var p := Text.ToLower(text);
    ToLowerIsLower(text);
    var q := "%" + p + "%";
    assert q[0] == '%' && q[1..] == p + "%";
    email := if Shortest(p) == "" then "a" else Shortest(p);
    if Shortest(p) == "" {
      OnlyPercentMatchesAll(p, email);
      if Contains(email, p) {
        PartsAreMembers(email, p, '%');
      }
    } else {
      ShortestMatches(p);
      ShortestIsLower(p);
      ShortestDoesNotContain(p);
    }
    ToLowerFixes(email);
    FilterPattern(email, text);
  }

  lemma ShortestDoesNotContain(p: string)
    requires !Plain(p)
    ensures !Contains(Shortest(p), p)
  {
    ShortestIsShort(p);
    if Contains(Shortest(p), p) {
      NoLongerThanPart(Shortest(p), p);
    }
  }

  /** The e-mail filter means "contains, letter case aside" exactly for texts free of SQL wildcards, which the
      builder does not escape. */
  lemma EmailFilterIsContainsIff(text: string)
    ensures MeansContains(text) <==> Plain(Text.ToLower(text))
  {
    if Plain(Text.ToLower(text)) {
      forall email: string ensures ILike(email, "%" + text + "%") <==> Contains(Text.ToLower(email), Text.ToLower(text)) {
        FilterPattern(email, text);
        LikeAnywhere(Text.ToLower(email), Text.ToLower(text));
      }
    } else {
      var email := WildcardMatchesMore(text);
    }
  }
}
