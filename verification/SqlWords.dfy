/** SQL text as words: splitting on spaces undoes joining with spaces. */
module SqlWords {

  /** Go's `strings.Join`. */
  function Join(parts: seq<string>, sep: string): string {
    if parts == [] then ""
    else if |parts| == 1 then parts[0]
    else parts[0] + sep + Join(parts[1..], sep)
  }

  lemma JoinTwo(a: string, b: string, sep: string)
    ensures Join([a, b], sep) == a + sep + b
  {
    assert [a, b][1..] == [b];
  }

  lemma JoinThree(a: string, b: string, c: string, sep: string)
    ensures Join([a, b, c], sep) == a + sep + (b + sep + c)
  {
    assert [a, b, c][1..] == [b, c];
    JoinTwo(b, c, sep);
  }

  lemma JoinFour(a: string, b: string, c: string, d: string, sep: string)
    ensures Join([a, b, c, d], sep) == a + sep + (b + sep + (c + sep + d))
  {
    assert [a, b, c, d][1..] == [b, c, d];
    JoinThree(b, c, d, sep);
  }

  lemma {:induction false} JoinMore(a: seq<string>, c: seq<string>, sep: string)
    requires a != [] && c != []
    ensures Join(a + c, sep) == Join(a, sep) + sep + Join(c, sep)
  {
    if |a| == 1 {
      assert (a + c)[1..] == c;
    } else {
      assert (a + c)[1..] == a[1..] + c;
      JoinMore(a[1..], c, sep);
    }
  }

  function Words(s: string): (ws: seq<string>)
    ensures ws != []
  {
    if s == "" then [""]
    else if s[0] == ' ' then [""] + Words(s[1..])
    else var rest := Words(s[1..]); [[s[0]] + rest[0]] + rest[1..]
  }

  predicate Solid(w: string) {
    ' ' !in w
  }

  lemma {:induction false} SolidWord(w: string)
    requires Solid(w)
    ensures Words(w) == [w]
  {
    if w != "" {
      SolidWord(w[1..]);
      assert [w[0]] + w[1..] == w;
    }
  }

  /** A space between two texts separates their words. */
  lemma {:induction false} WordsOfPair(a: string, b: string)
    ensures Words(a + " " + b) == Words(a) + Words(b)
  {
    if a == "" {
      assert a + " " + b == " " + b;
      assert (" " + b)[1..] == b;
    } else {
      var s := a + " " + b;
      assert s[1..] == a[1..] + " " + b;
      WordsOfPair(a[1..], b);
    }
  }

  lemma WordsOfTriple(a: string, b: string, c: string)
    ensures Words(a + " " + b + " " + c) == Words(a) + Words(b) + Words(c)
  {
    WordsOfPair(a + " " + b, c);
    WordsOfPair(a, b);
  }
}
