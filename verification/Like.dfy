/**
 LIKE escaping: PostgreSQL's pattern matching with the backslash escape (section 9.7.1 of its
 documentation), and the proof that an escaped term matches exactly the texts containing it.
 */
module LikePatterns {

  /** `%` any text, `_` any character, `\` takes the next character literally. */
  predicate Matches(p: string, t: string)
    decreases |p| + |t|
  {
    if p == "" then t == ""
    else if p[0] == '%' then Matches(p[1..], t) || (t != "" && Matches(p, t[1..]))
    else if p[0] == '_' then t != "" && Matches(p[1..], t[1..])
    else if p[0] == '\\' then |p| > 1 && t != "" && t[0] == p[1] && Matches(p[2..], t[1..])
    else t != "" && t[0] == p[0] && Matches(p[1..], t[1..])
  }

  /** What each character of a pattern means, as PostgreSQL documents it. */
  lemma PatternsMean(c: char, p: string, t: string)
    ensures Matches("", t) <==> t == ""
    ensures Matches("_" + p, t) <==> t != "" && Matches(p, t[1..])
    ensures Matches("\\" + [c] + p, t) <==> t != "" && t[0] == c && Matches(p, t[1..])
    ensures c != '%' && c != '_' && c != '\\' ==> (Matches([c] + p, t) <==> t != "" && t[0] == c && Matches(p, t[1..]))
  {
    assert ("_" + p)[1..] == p && ("\\" + [c] + p)[2..] == p && ([c] + p)[1..] == p;
  }

  predicate Special(c: char) {
    c == '\\' || c == '%' || c == '_'
  }

  function Escaped(c: char): string {
    if Special(c) then ['\\', c] else [c]
  }

  /** One pass over the text, a backslash before each backslash, percent sign and underscore. */
  function EscapeLike(s: string): string {
    if s == "" then "" else Escaped(s[0]) + EscapeLike(s[1..])
  }

  predicate OccursAt(s: string, t: string, i: int) {
    0 <= i <= |t| - |s| && t[i..i + |s|] == s
  }

  ghost predicate Occurs(s: string, t: string) {
    exists i :: OccursAt(s, t, i)
  }

  /** One escaped character in front of a pattern matches itself and nothing else. */
  lemma EscapedChar(c: char, p: string, t: string)
    ensures Matches(Escaped(c) + p, t) <==> t != "" && t[0] == c && Matches(p, t[1..])
  {
    var q := Escaped(c) + p;
    assert (if Special(c) then q[2..] else q[1..]) == p;
  }

  lemma PrefixTail(s: string, t: string)
    requires s != "" && t != ""
    ensures s <= t <==> s[0] == t[0] && s[1..] <= t[1..]
    ensures s <= t ==> t[1..][|s| - 1..] == t[|s|..]
  {
    if s[0] == t[0] && s[1..] <= t[1..] {
      assert s == [s[0]] + s[1..] && t == [t[0]] + t[1..];
    }
  }

  /** An escaped text in front of a pattern matches itself and nothing else. */
  lemma {:induction false} EscapedIsLiteral(s: string, p: string, t: string)
    ensures Matches(EscapeLike(s) + p, t) <==> s <= t && Matches(p, t[|s|..])
    decreases |s|
  {
    if s == "" {
      assert EscapeLike(s) + p == p && t[0..] == t;
    } else {
      assert EscapeLike(s) + p == Escaped(s[0]) + (EscapeLike(s[1..]) + p);
      EscapedChar(s[0], EscapeLike(s[1..]) + p, t);
      if t != "" {
        EscapedIsLiteral(s[1..], p, t[1..]);
        PrefixTail(s, t);
      }
    }
  }

  /** A leading percent sign skips any prefix. */
  lemma {:induction false} PercentSkips(p: string, t: string)
    ensures Matches("%" + p, t) <==> exists i :: 0 <= i <= |t| && Matches(p, t[i..])
    decreases |t|
  {
    var q := "%" + p;
    assert q[1..] == p;
    if t == "" {
      assert t[0..] == t;
    } else {
      PercentSkips(p, t[1..]);
      if Matches(p, t) { assert Matches(p, t[0..]) by { assert t[0..] == t; } }
      forall i | 0 <= i <= |t[1..]| && Matches(p, t[1..][i..]) ensures Matches(p, t[i + 1..]) {
        assert t[1..][i..] == t[i + 1..];
      }
      forall i | 1 <= i <= |t| && Matches(p, t[i..]) ensures Matches(p, t[1..][i - 1..]) {
        assert t[1..][i - 1..] == t[i..];
      }
      if i :| 0 <= i <= |t| && Matches(p, t[i..]) {
        if i == 0 { assert t[0..] == t; } else { assert Matches(p, t[1..][i - 1..]); }
      }
    }
  }

  lemma PercentMatchesAll(t: string)
    ensures Matches("%", t)
  {
    PercentSkips("", t);
    assert "%" + "" == "%" && Matches("", t[|t|..]);
  }

  /** The search pattern matches a text if and only if the term occurs in it, whatever wildcards
      the term contains. */
  lemma EscapedSearchIsExact(s: string, t: string)
    ensures Matches("%" + EscapeLike(s) + "%", t) <==> Occurs(s, t)
  {
    var p := EscapeLike(s) + "%";
    assert "%" + EscapeLike(s) + "%" == "%" + p;
    PercentSkips(p, t);
    forall i | 0 <= i <= |t| ensures Matches(p, t[i..]) <==> OccursAt(s, t, i) {
      EscapedIsLiteral(s, "%", t[i..]);
      if s <= t[i..] {
        PercentMatchesAll(t[i..][|s|..]);
        assert t[i..][..|s|] == t[i..i + |s|];
      }
      if OccursAt(s, t, i) { assert t[i..][..|s|] == t[i..i + |s|]; }
    }
    if Occurs(s, t) {
      var i :| OccursAt(s, t, i);
      assert Matches(p, t[i..]);
    }
  }

  // ------------------------------------------------------------ ILIKE

  function Folded(fold: char -> char, s: string): string {
    if s == "" then "" else [fold(s[0])] + Folded(fold, s[1..])
  }

  /** Case folding neither creates nor destroys a character with a meaning in patterns. */
  ghost predicate KeepsSpecials(fold: char -> char) {
    forall c :: (Special(c) ==> fold(c) == c) && (Special(fold(c)) ==> Special(c))
  }

  ghost predicate MatchesFolded(fold: char -> char, p: string, t: string) {
    Matches(Folded(fold, p), Folded(fold, t))
  }

  lemma {:induction false} FoldedPair(fold: char -> char, a: string, b: string)
    ensures Folded(fold, a + b) == Folded(fold, a) + Folded(fold, b)
  {
    if a == "" {
      assert a + b == b;
    } else {
      assert (a + b)[1..] == a[1..] + b;
      FoldedPair(fold, a[1..], b);
    }
  }

  lemma {:induction false} FoldedEscape(fold: char -> char, s: string)
    requires KeepsSpecials(fold)
    ensures Folded(fold, EscapeLike(s)) == EscapeLike(Folded(fold, s))
  {
    if s != "" {
      FoldedEscape(fold, s[1..]);
      var front := if Special(s[0]) then ['\\', s[0]] else [s[0]];
      FoldedPair(fold, front, EscapeLike(s[1..]));
      assert Folded(fold, s)[0] == fold(s[0]) && Folded(fold, s)[1..] == Folded(fold, s[1..]);
      assert Folded(fold, front) == if Special(s[0]) then ['\\', s[0]] else [fold(s[0])] by {
        assert Special('\\');
        if Special(s[0]) {
          assert front[1..] == [s[0]] && [s[0]][1..] == "" && Folded(fold, [s[0]]) == [fold(s[0])];
        }
      }
    }
  }

  /** ILIKE with an escaped term matches exactly the texts containing the term up to case. */
  lemma EscapedSearchIgnoresCase(fold: char -> char, s: string, t: string)
    requires KeepsSpecials(fold)
    ensures MatchesFolded(fold, "%" + EscapeLike(s) + "%", t) <==> Occurs(Folded(fold, s), Folded(fold, t))
  {
    FoldedPair(fold, "%" + EscapeLike(s), "%");
    FoldedPair(fold, "%", EscapeLike(s));
    FoldedEscape(fold, s);
    assert Special('%') && "%"[1..] == "" && Folded(fold, "%") == "%";
    EscapedSearchIsExact(Folded(fold, s), Folded(fold, t));
  }
}
