/**
 What a client's text stands for, told without the code that normalises it: a value names a canonical
 word when it spells the word in any casing, with any white space around it.
 */
module ClientValues {
  import opened Options
  import opened Casing
  import opened Search

  // ------------------------------------------------------------ casing

  /** Character c stands for the letter w of a canonical word: w itself, its other case, or one of the
      four letters outside ASCII whose case mapping is an ASCII letter. */
  predicate StandsFor(c: char, w: char) {
    || c == w
    || ('A' <= w <= 'Z' && c == w - 'A' + 'a')
    || ('a' <= w <= 'z' && c == w - 'a' + 'A')
    || (w == 'I' && c == '\U{0131}') || (w == 'S' && c == '\U{017F}')
    || (w == 'k' && c == '\U{212A}') || (w == 'i' && c == '\U{0130}')
  }

  predicate Spells(s: string, w: string) {
    |s| == |w| && forall i :: 0 <= i < |s| ==> StandsFor(s[i], w[i])
  }

  predicate AllUpper(w: string) {
    forall i :: 0 <= i < |w| ==> 'A' <= w[i] <= 'Z'
  }

  predicate AllLower(w: string) {
    forall i :: 0 <= i < |w| ==> 'a' <= w[i] <= 'z' || w[i] == '_'
  }

  lemma UpperSpells(s: string, w: string)
    requires AllUpper(w)
    ensures ToUpper(s) == w <==> Spells(s, w)
  {
    if ToUpper(s) == w {
      forall i | 0 <= i < |s| ensures StandsFor(s[i], w[i]) { assert ToUpper(s)[i] == UpperChar(s[i]); }
    }
  }

  lemma LowerSpells(s: string, w: string)
    requires AllLower(w)
    ensures ToLower(s) == w <==> Spells(s, w)
  {
    if ToLower(s) == w {
      forall i | 0 <= i < |s| ensures StandsFor(s[i], w[i]) { assert ToLower(s)[i] == LowerChar(s[i]); }
    }
  }

  // ------------------------------------------------------------ white space

  /** The characters of Unicode's White_Space property, one by one. */
  const WHITE_SPACE := {
    '\t', '\n', '\U{000B}', '\U{000C}', '\r', ' ', '\U{0085}', '\U{00A0}', '\U{1680}', '\U{2000}', '\U{2001}',
    '\U{2002}', '\U{2003}', '\U{2004}', '\U{2005}', '\U{2006}', '\U{2007}', '\U{2008}', '\U{2009}', '\U{200A}',
    '\U{2028}', '\U{2029}', '\U{202F}', '\U{205F}', '\U{3000}'}

  lemma SpaceExactly(c: char)
    ensures IsSpace(c) <==> c in WHITE_SPACE
  {
  }

  predicate AllSpace(s: string) {
    forall i :: 0 <= i < |s| ==> IsSpace(s[i])
  }

  /** v is m between white space, and m neither starts nor ends with any. */
  predicate Pads(v: string, i: nat, j: nat, m: string) {
    && i <= j <= |v| && m == v[i..j] && AllSpace(v[..i]) && AllSpace(v[j..])
    && (m != "" ==> !IsSpace(m[0]) && !IsSpace(m[|m| - 1]))
  }

  lemma {:induction false} LeftOf(v: string) returns (i: nat)
    ensures i <= |v| && TrimLeft(v) == v[i..] && AllSpace(v[..i])
  {
    if v != "" && IsSpace(v[0]) {
      var k := LeftOf(v[1..]);
      i := k + 1;
      assert v[1..][k..] == v[i..];
      forall n | 0 <= n < i ensures IsSpace(v[n]) {
        if n > 0 { assert v[n] == v[1..][..k][n - 1]; }
      }
    } else {
      i := 0;
    }
  }

  lemma {:induction false} RightOf(v: string) returns (j: nat)
    ensures j <= |v| && TrimRight(v) == v[..j] && AllSpace(v[j..])
  {
    if v != "" && IsSpace(v[|v| - 1]) {
      j := RightOf(v[..|v| - 1]);
      assert v[..|v| - 1][..j] == v[..j];
      forall n | 0 <= n < |v[j..]| ensures IsSpace(v[j..][n]) {
        if n < |v| - 1 - j { assert v[j..][n] == v[..|v| - 1][j..][n]; }
      }
    } else {
      j := |v|;
    }
  }

  /** Trimming takes white space off both ends, all of it and nothing else. */
  lemma TrimMeans(v: string) returns (i: nat, j: nat)
    ensures Pads(v, i, j, TrimSpace(v))
  {
    i := LeftOf(v);
    var m := v[i..];
    var k := RightOf(m);
    j := i + k;
    assert m[..k] == v[i..j] && m[k..] == v[j..];
  }

  lemma SpacesAt(v: string, i: nat, j: nat)
    requires i <= |v| && j <= |v| && AllSpace(v[..i]) && AllSpace(v[j..])
    ensures forall n :: 0 <= n < i || j <= n < |v| ==> IsSpace(v[n])
  {
    assert forall n :: 0 <= n < i ==> v[n] == v[..i][n];
    assert forall n :: j <= n < |v| ==> v[n] == v[j..][n - j];
  }

  /** And there is only one way to do so, unless nothing is left. */
  lemma TrimIs(v: string, i: nat, j: nat, m: string)
    requires Pads(v, i, j, m) && m != ""
    ensures TrimSpace(v) == m
  {
    var a, b := TrimMeans(v);
    var r := TrimSpace(v);
    assert m[0] == v[i] && m[|m| - 1] == v[j - 1];
    SpacesAt(v, a, b);
    assert a <= i && j <= b;
    assert r[0] == v[a] && r[|r| - 1] == v[b - 1];
    SpacesAt(v, i, j);
  }

  // ------------------------------------------------------------ naming a value

  /** The client's value v names the canonical word w. */
  ghost predicate Names(v: string, w: string) {
    exists i: nat, j: nat :: i <= j <= |v| && AllSpace(v[..i]) && AllSpace(v[j..]) && Spells(v[i..j], w)
  }

  predicate NoSpace(w: string) {
    w != "" && forall c: char :: StandsFor(c, w[0]) || StandsFor(c, w[|w| - 1]) ==> !IsSpace(c)
  }

  lemma LetterNoSpace(w: string)
    requires w != "" && (AllUpper(w) || AllLower(w))
    ensures NoSpace(w)
  {
  }

  lemma NamesTrimmed(v: string, w: string)
    requires NoSpace(w)
    ensures Names(v, w) <==> Spells(TrimSpace(v), w)
  {
    if Spells(TrimSpace(v), w) {
      var i, j := TrimMeans(v);
    }
    if Names(v, w) {
      var i: nat, j: nat :| i <= j <= |v| && AllSpace(v[..i]) && AllSpace(v[j..]) && Spells(v[i..j], w);
      var m := v[i..j];
      assert StandsFor(m[0], w[0]) && StandsFor(m[|m| - 1], w[|w| - 1]);
      TrimIs(v, i, j, m);
    }
  }

  const GENDERS := {"M", "F", "O"}
  const ROLES := {"admin", "user", "system"}
  const ENTITIES := {"registration_token", "session", "user"}

  /** A parser recognises exactly the values that name a word of the set, and gives that word. */
  ghost predicate Recognises(parse: string -> Option<string>, words: set<string>) {
    forall v, w :: parse(v) == Some(w) <==> w in words && Names(v, w)
  }

  lemma GenderMeans()
    ensures Recognises(ParseGender, GENDERS)
  {
    forall v, w ensures ParseGender(v) == Some(w) <==> w in GENDERS && Names(v, w) {
      if w in GENDERS {
        assert AllUpper(w);
        LetterNoSpace(w);
        NamesTrimmed(v, w);
        UpperSpells(TrimSpace(v), w);
      }
    }
  }

  lemma RoleMeans()
    ensures Recognises(ParseRole, ROLES)
  {
    forall v, w ensures ParseRole(v) == Some(w) <==> w in ROLES && Names(v, w) {
      if w in ROLES {
        assert AllLower(w);
        LetterNoSpace(w);
        NamesTrimmed(v, w);
        LowerSpells(TrimSpace(v), w);
      }
    }
  }

  lemma EntityMeans()
    ensures Recognises(ParseEntity, ENTITIES)
  {
    forall v, w ensures ParseEntity(v) == Some(w) <==> w in ENTITIES && Names(v, w) {
      if w in ENTITIES {
        assert AllLower(w);
        LetterNoSpace(w);
        NamesTrimmed(v, w);
        LowerSpells(TrimSpace(v), w);
      }
    }
  }

  /** One of the client's values names w, a word the filter knows. */
  ghost predicate Chosen(vs: seq<string>, words: set<string>, w: string) {
    w in words && exists v :: v in vs && Names(v, w)
  }

  ghost predicate NothingChosen(vs: seq<string>, words: set<string>) {
    forall w :: !Chosen(vs, words, w)
  }

  /** The recognised values are the words the client's values name. */
  lemma {:induction false} RecognisedMeans(vs: seq<string>, parse: string -> Option<string>, words: set<string>)
    requires Recognises(parse, words)
    ensures forall w :: w in Recognised(vs, parse) <==> Chosen(vs, words, w)
    ensures Recognised(vs, parse) == [] <==> NothingChosen(vs, words)
  {
    var rs := Recognised(vs, parse);
    if vs != [] {
      var front, last := vs[..|vs| - 1], vs[|vs| - 1];
      RecognisedMeans(front, parse, words);
      assert vs == front + [last];
      forall w ensures w in rs <==> Chosen(vs, words, w) {
        assert w in rs <==> w in Recognised(front, parse) || parse(last) == Some(w);
        assert Chosen(vs, words, w) <==> Chosen(front, words, w) || (w in words && Names(last, w));
      }
    }
    if rs != [] { assert Chosen(vs, words, rs[0]); }
  }

  // ------------------------------------------------------------ directions

  /** The direction is descending exactly when the client spells "desc", in any casing. */
  lemma DirectionMeans(order: string)
    ensures Direction(order) == if Spells(order, "DESC") then "DESC" else "ASC"
  {
    UpperSpells(order, "DESC");
  }
}
