/**
 The WHERE conditions the query builder emits: their text, and a parser that reads the text
 back. `Cond<Value>` is a condition as asked for; `Cond<nat>` is the same condition with
 placeholder numbers for values, as it stands in the text.
 */
module Conditions {
  import opened Options
  import opened Decimal
  import opened SqlWords

  datatype Cond<V> =
    | In(col: string, vs: seq<V>)
    | IsNull(col: string)
    | IsNotNull(col: string)
    | Like(col: string, v: V)
    | ILike(col: string, v: V)
    | AtLeast(col: string, v: V)
    | Before(col: string, v: V)

  /** Plain column names, and no empty IN list. */
  predicate Plain<V>(c: Cond<V>) {
    Solid(c.col) && (c.In? ==> c.vs != [])
  }

  function Values<V>(c: Cond<V>): seq<V> {
    match c
    case In(_, vs) => vs
    case IsNull(_) | IsNotNull(_) => []
    case _ => [c.v]
  }

  function AllValues<V>(cs: seq<Cond<V>>): seq<V> {
    if cs == [] then [] else AllValues(cs[..|cs| - 1]) + Values(cs[|cs| - 1])
  }

  // ------------------------------------------------------------ numbering

  function Count(from: nat, n: nat): (ns: seq<nat>)
    ensures |ns| == n && forall i :: 0 <= i < n ==> ns[i] == from + i
    decreases n
  {
    if n == 0 then [] else [from] + Count(from + 1, n - 1)
  }

  /** The condition with its values replaced by the placeholders from `from` on. */
  function Number<V>(c: Cond<V>, from: nat): Cond<nat> {
    match c
    case In(col, vs) => In(col, Count(from, |vs|))
    case IsNull(col) => IsNull(col)
    case IsNotNull(col) => IsNotNull(col)
    case Like(col, _) => Like(col, from)
    case ILike(col, _) => ILike(col, from)
    case AtLeast(col, _) => AtLeast(col, from)
    case Before(col, _) => Before(col, from)
  }

  /** All conditions, numbered from 1 in order of appearance. */
  function NumberAll<V>(cs: seq<Cond<V>>): seq<Cond<nat>> {
    if cs == [] then []
    else NumberAll(cs[..|cs| - 1]) + [Number(cs[|cs| - 1], 1 + |AllValues(cs[..|cs| - 1])|)]
  }

  lemma NumberValues<V>(c: Cond<V>, from: nat)
    ensures Values(Number(c, from)) == Count(from, |Values(c)|)
  {
  }

  lemma CountOn(n: nat, m: nat)
    ensures Count(1, n) + Count(1 + n, m) == Count(1, n + m)
  {
  }

  lemma {:induction false} LastOf<V>(cs: seq<Cond<V>>, c: Cond<V>)
    ensures AllValues(cs + [c]) == AllValues(cs) + Values(c)
  {
    assert (cs + [c])[..|cs|] == cs;
  }

  /** The placeholders, read left to right, are 1..n, each used once. */
  lemma {:induction false} PlaceholdersInOrder<V>(cs: seq<Cond<V>>)
    ensures AllValues(NumberAll(cs)) == Count(1, |AllValues(cs)|)
  {
    if cs != [] {
      var pre, c := cs[..|cs| - 1], cs[|cs| - 1];
      var n := 1 + |AllValues(pre)|;
      PlaceholdersInOrder(pre);
      LastOf(NumberAll(pre), Number(c, n));
      NumberValues(c, n);
      CountOn(|AllValues(pre)|, |Values(c)|);
    }
  }

  // ------------------------------------------------------------ text

  function Hole(n: nat): (h: string)
    ensures |h| > 1 && h[0] == '$' && Solid(h)
  {
    "$" + FormatNat(n)
  }

  function Holes(ns: seq<nat>): seq<string> {
    if ns == [] then [] else [Hole(ns[0])] + Holes(ns[1..])
  }

  function Text(c: Cond<nat>): string {
    match c
    case In(col, ns) => col + " " + "IN" + " " + ("(" + (Join(Holes(ns), ", ") + ")"))
    case IsNull(col) => col + " " + "IS" + " " + "NULL"
    case IsNotNull(col) => col + " " + "IS" + " " + ("NOT" + " " + "NULL")
    case Like(col, n) => col + " " + "LIKE" + " " + Hole(n)
    case ILike(col, n) => col + " " + "ILIKE" + " " + Hole(n)
    case AtLeast(col, n) => col + " " + ">=" + " " + Hole(n)
    case Before(col, n) => col + " " + "<" + " " + Hole(n)
  }

  /** The SQL text of each condition, as it reaches the database. */
  lemma TextIs(c: Cond<nat>)
    ensures match c
            case In(col, ns) => Text(c) == col + " IN (" + Join(Holes(ns), ", ") + ")"
            case IsNull(col) => Text(c) == col + " IS NULL"
            case IsNotNull(col) => Text(c) == col + " IS NOT NULL"
            case Like(col, n) => Text(c) == col + " LIKE $" + FormatNat(n)
            case ILike(col, n) => Text(c) == col + " ILIKE $" + FormatNat(n)
            case AtLeast(col, n) => Text(c) == col + " >= $" + FormatNat(n)
            case Before(col, n) => Text(c) == col + " < $" + FormatNat(n)
  {
    match c
    case In(col, ns) => assert " " + "IN" + " " + "(" == " IN (";
    case IsNull(_) => assert " " + "IS" + " " + "NULL" == " IS NULL";
    case IsNotNull(_) => assert " " + "IS" + " " + ("NOT" + " " + "NULL") == " IS NOT NULL";
    case Like(col, n) => Operator(col, "LIKE", " LIKE $", FormatNat(n));
    case ILike(col, n) => Operator(col, "ILIKE", " ILIKE $", FormatNat(n));
    case AtLeast(col, n) => Operator(col, ">=", " >= $", FormatNat(n));
    case Before(col, n) => Operator(col, "<", " < $", FormatNat(n));
  }

  lemma Operator(col: string, word: string, text: string, n: string)
    requires text == " " + word + " $"
    ensures col + " " + word + " " + ("$" + n) == col + text + n
  {
  }

  function Texts(cs: seq<Cond<nat>>): seq<string> {
    if cs == [] then [] else Texts(cs[..|cs| - 1]) + [Text(cs[|cs| - 1])]
  }

  // ------------------------------------------------------------ parser

  function ParseHole(w: string): Option<nat> {
    if |w| > 1 && w[0] == '$' then ParseNat(w[1..]) else None
  }

  /** The words of an IN list after its opening parenthesis: `$1,` `$2,` ... `$n)`. */
  function ParseList(ws: seq<string>): Option<(seq<nat>, seq<string>)> {
    if ws == [] || ws[0] == "" then None
    else
      var w, last := ws[0][..|ws[0]| - 1], ws[0][|ws[0]| - 1];
      match ParseHole(w)
      case None => None
      case Some(n) =>
        if last == ')' then Some(([n], ws[1..]))
        else if last == ',' then
          match ParseList(ws[1..])
          case None => None
          case Some(r) => Some(([n] + r.0, r.1))
        else None
  }

  function ParseCond(ws: seq<string>): Option<(Cond<nat>, seq<string>)> {
    if |ws| < 3 then None
    else if ws[1] == "IS" then
      if ws[2] == "NULL" then Some((IsNull(ws[0]), ws[3..]))
      else if ws[2] == "NOT" && |ws| > 3 && ws[3] == "NULL" then Some((IsNotNull(ws[0]), ws[4..]))
      else None
    else if ws[1] == "IN" then
      if ws[2] != "" && ws[2][0] == '(' then
        match ParseList([ws[2][1..]] + ws[3..])
        case None => None
        case Some(r) => Some((In(ws[0], r.0), r.1))
      else None
    else
      match ParseHole(ws[2])
      case None => None
      case Some(n) =>
        if ws[1] == "LIKE" then Some((Like(ws[0], n), ws[3..]))
        else if ws[1] == "ILIKE" then Some((ILike(ws[0], n), ws[3..]))
        else if ws[1] == ">=" then Some((AtLeast(ws[0], n), ws[3..]))
        else if ws[1] == "<" then Some((Before(ws[0], n), ws[3..]))
        else None
  }

  lemma {:induction false} ParseListShrinks(ws: seq<string>)
    ensures ParseList(ws).Some? ==> |ParseList(ws).value.1| < |ws|
  {
    if ws != [] { ParseListShrinks(ws[1..]); }
  }

  lemma ParseCondShrinks(ws: seq<string>)
    ensures ParseCond(ws).Some? ==> |ParseCond(ws).value.1| < |ws|
  {
    if |ws| >= 3 && ws[2] != "" { ParseListShrinks([ws[2][1..]] + ws[3..]); }
  }

  /** Conditions joined by AND, and the words that follow them. */
  function ParseConds(ws: seq<string>): Option<(seq<Cond<nat>>, seq<string>)>
    decreases |ws|
  {
    match ParseCond(ws)
    case None => None
    case Some(r) =>
      ParseCondShrinks(ws);
      if r.1 != [] && r.1[0] == "AND" then
        match ParseConds(r.1[1..])
        case None => None
        case Some(q) => Some(([r.0] + q.0, q.1))
      else Some(([r.0], r.1))
  }

  // ------------------------------------------------------------ round trip

  function ListWords(ns: seq<nat>): seq<string>
    requires ns != []
  {
    if |ns| == 1 then [Hole(ns[0]) + ")"] else [Hole(ns[0]) + ","] + ListWords(ns[1..])
  }

  function CondWords(c: Cond<nat>): seq<string>
    requires Plain(c)
  {
    match c
    case In(col, ns) => [col, "IN", "(" + ListWords(ns)[0]] + ListWords(ns)[1..]
    case IsNull(col) => [col, "IS", "NULL"]
    case IsNotNull(col) => [col, "IS", "NOT", "NULL"]
    case Like(col, n) => [col, "LIKE", Hole(n)]
    case ILike(col, n) => [col, "ILIKE", Hole(n)]
    case AtLeast(col, n) => [col, ">=", Hole(n)]
    case Before(col, n) => [col, "<", Hole(n)]
  }

  lemma ParseHoleBack(n: nat)
    ensures ParseHole(Hole(n)) == Some(n)
  {
    ParseFormatNat(n);
    assert Hole(n)[1..] == FormatNat(n);
  }

  lemma {:induction false} ParseListBack(ns: seq<nat>, rest: seq<string>)
    requires ns != []
    ensures ParseList(ListWords(ns) + rest) == Some((ns, rest))
    decreases |ns|
  {
    var ws := ListWords(ns) + rest;
    ParseHoleBack(ns[0]);
    assert ws[0][..|ws[0]| - 1] == Hole(ns[0]);
    if |ns| == 1 {
      assert ws[1..] == rest && ns == [ns[0]];
    } else {
      assert ws[1..] == ListWords(ns[1..]) + rest;
      ParseListBack(ns[1..], rest);
      assert [ns[0]] + ns[1..] == ns;
    }
  }

  lemma ParseInBack(c: Cond<nat>, rest: seq<string>)
    requires c.In? && Plain(c)
    ensures ParseCond(CondWords(c) + rest) == Some((c, rest))
  {
    ParseListBack(c.vs, rest);
    InWords(c.col, ListWords(c.vs), rest);
  }

  /** The words of an IN condition, whatever its list. */
  lemma InWords(col: string, list: seq<string>, rest: seq<string>)
    requires list != []
    ensures var r := ParseList(list + rest);
            ParseCond([col, "IN", "(" + list[0]] + list[1..] + rest) ==
            if r.Some? then Some((In(col, r.value.0), r.value.1)) else None
  {
    var ws := [col, "IN", "(" + list[0]] + list[1..] + rest;
    assert ws[0] == col && ws[1] == "IN" && ws[2] == "(" + list[0] && ws[2][1..] == list[0];
    assert [list[0]] + ws[3..] == list + rest;
  }

  lemma ParseOperatorBack(c: Cond<nat>, rest: seq<string>)
    requires Plain(c) && (c.Like? || c.ILike? || c.AtLeast? || c.Before?)
    ensures ParseCond(CondWords(c) + rest) == Some((c, rest))
  {
    var ws := CondWords(c) + rest;
    ParseHoleBack(c.v);
    assert ws[3..] == rest && ws[2] == Hole(c.v);
  }

  lemma ParseCondBack(c: Cond<nat>, rest: seq<string>)
    requires Plain(c)
    ensures ParseCond(CondWords(c) + rest) == Some((c, rest))
  {
    var ws := CondWords(c) + rest;
    match c {
      case In(col, ns) => ParseInBack(c, rest);
      case IsNull(col) => assert ws[3..] == rest;
      case IsNotNull(col) => assert ws[4..] == rest;
      case _ => ParseOperatorBack(c, rest);
    }
  }

  lemma {:induction false} ListWordsOf(ns: seq<nat>)
    requires ns != []
    ensures Words(Join(Holes(ns), ", ") + ")") == ListWords(ns)
    decreases |ns|
  {
    if |ns| == 1 {
      assert Holes(ns) == [Hole(ns[0])];
      SolidWord(Hole(ns[0]) + ")");
    } else {
      var rest := Join(Holes(ns[1..]), ", ") + ")";
      assert Join(Holes(ns), ", ") + ")" == Hole(ns[0]) + "," + " " + rest;
      WordsOfPair(Hole(ns[0]) + ",", rest);
      SolidWord(Hole(ns[0]) + ",");
      ListWordsOf(ns[1..]);
    }
  }

  lemma {:induction false} OpenParen(s: string)
    ensures Words("(" + s) == ["(" + Words(s)[0]] + Words(s)[1..]
  {
    assert ("(" + s)[1..] == s;
  }

  lemma {:induction false} WordsOfIn(col: string, ns: seq<nat>)
    requires Solid(col) && ns != []
    ensures Words(Text(In(col, ns))) == CondWords(In(col, ns))
  {
    var list := Join(Holes(ns), ", ") + ")";
    ListWordsOf(ns);
    WordsOfList(col, list, ListWords(ns));
  }

  /** The words of an IN condition around any list. */
  lemma {:induction false} WordsOfList(col: string, list: string, ws: seq<string>)
    requires Solid(col) && ws != [] && Words(list) == ws
    ensures Words(col + " " + "IN" + " " + ("(" + list)) == [col, "IN", "(" + ws[0]] + ws[1..]
  {
    OpenParen(list);
    HeadedWords(col, "IN", "(" + list);
    assert [col, "IN"] + (["(" + ws[0]] + ws[1..]) == [col, "IN", "(" + ws[0]] + ws[1..];
  }

  lemma {:induction false} HeadedWords(col: string, op: string, rest: string)
    requires Solid(col) && Solid(op)
    ensures Words(col + " " + op + " " + rest) == [col, op] + Words(rest)
  {
    WordsOfTriple(col, op, rest);
    SolidWord(col);
    SolidWord(op);
  }

  lemma {:induction false} WordsOfNull(col: string)
    requires Solid(col)
    ensures Words(Text(IsNull(col))) == [col, "IS", "NULL"]
    ensures Words(Text(IsNotNull(col))) == [col, "IS", "NOT", "NULL"]
  {
    HeadedWords(col, "IS", "NULL");
    HeadedWords(col, "IS", "NOT" + " " + "NULL");
    WordsOfPair("NOT", "NULL");
    SolidWord("NOT");
    SolidWord("NULL");
  }

  /** The words of a condition's text. */
  lemma WordsOfText(c: Cond<nat>)
    requires Plain(c)
    ensures Words(Text(c)) == CondWords(c)
  {
    match c {
      case In(col, ns) => WordsOfIn(col, ns);
      case IsNull(col) => WordsOfNull(col);
      case IsNotNull(col) => WordsOfNull(col);
      case Like(col, n) => WordsOfOperator(col, "LIKE", n);
      case ILike(col, n) => WordsOfOperator(col, "ILIKE", n);
      case AtLeast(col, n) => WordsOfOperator(col, ">=", n);
      case Before(col, n) => WordsOfOperator(col, "<", n);
    }
  }

  lemma WordsOfOperator(col: string, op: string, n: nat)
    requires Solid(col) && Solid(op)
    ensures Words(col + " " + op + " " + Hole(n)) == [col, op, Hole(n)]
  {
    WordsOfTriple(col, op, Hole(n));
    SolidWord(col);
    SolidWord(op);
    SolidWord(Hole(n));
  }

  /** Words of the conditions joined by AND. */
  function CondsWords(cs: seq<Cond<nat>>): seq<string>
    requires forall i :: 0 <= i < |cs| ==> Plain(cs[i])
  {
    if cs == [] then []
    else if |cs| == 1 then CondWords(cs[0])
    else CondWords(cs[0]) + ["AND"] + CondsWords(cs[1..])
  }

  lemma {:induction false} TextsOf(cs: seq<Cond<nat>>)
    ensures |Texts(cs)| == |cs| && forall i :: 0 <= i < |cs| ==> Texts(cs)[i] == Text(cs[i])
  {
    if cs != [] { TextsOf(cs[..|cs| - 1]); }
  }

  lemma {:induction false} WordsOfJoin(cs: seq<Cond<nat>>, ts: seq<string>)
    requires cs != [] && |ts| == |cs|
    requires forall i :: 0 <= i < |cs| ==> Plain(cs[i]) && ts[i] == Text(cs[i])
    ensures Words(Join(ts, " AND ")) == CondsWords(cs)
    decreases |cs|
  {
    WordsOfText(cs[0]);
    if |cs| > 1 {
      var rest := Join(ts[1..], " AND ");
      assert Join(ts, " AND ") == ts[0] + " " + "AND" + " " + rest;
      WordsOfTriple(ts[0], "AND", rest);
      SolidWord("AND");
      WordsOfJoin(cs[1..], ts[1..]);
    }
  }

  lemma ParseCondsLast(ws: seq<string>, c: Cond<nat>, rest: seq<string>)
    requires ParseCond(ws) == Some((c, rest)) && (rest != [] ==> rest[0] != "AND")
    ensures ParseConds(ws) == Some(([c], rest))
  {
  }

  lemma ParseCondsMore(ws: seq<string>, c: Cond<nat>, more: seq<string>, cs: seq<Cond<nat>>, rest: seq<string>)
    requires ParseCond(ws) == Some((c, ["AND"] + more)) && ParseConds(more) == Some((cs, rest))
    ensures ParseConds(ws) == Some(([c] + cs, rest))
  {
    assert (["AND"] + more)[1..] == more;
  }

  lemma Regrouped(first: seq<string>, others: seq<string>, rest: seq<string>)
    ensures first + ["AND"] + others + rest == first + (["AND"] + (others + rest))
  {
  }

  /** Reading the words back gives the conditions, in order, and what follows them. */
  lemma {:induction false} ParseCondsBack(cs: seq<Cond<nat>>, rest: seq<string>)
    requires cs != [] && (forall i :: 0 <= i < |cs| ==> Plain(cs[i]))
    requires rest != [] ==> rest[0] != "AND"
    ensures ParseConds(CondsWords(cs) + rest) == Some((cs, rest))
    decreases |cs|
  {
    if |cs| == 1 {
      ParseCondBack(cs[0], rest);
      ParseCondsLast(CondWords(cs[0]) + rest, cs[0], rest);
      assert cs == [cs[0]];
    } else {
      var more := CondsWords(cs[1..]) + rest;
      ParseCondsBack(cs[1..], rest);
      ParseCondBack(cs[0], ["AND"] + more);
      ParseCondsMore(CondWords(cs[0]) + (["AND"] + more), cs[0], more, cs[1..], rest);
      Regrouped(CondWords(cs[0]), CondsWords(cs[1..]), rest);
      assert [cs[0]] + cs[1..] == cs;
    }
  }
}
