/**
 A reader for the statements the builder emits, and the proof that both statements mean what was
 asked: parsing the text gives back every condition, with its values, in order, and the two
 statements select from the same source under the same conditions.
 */
module Statements {
  import opened Options
  import opened Decimal
  import opened SqlWords
  import opened Conditions
  import opened QueryBuilding

  datatype Statement = Statement(
    head: seq<string>, conds: seq<Cond<nat>>, order: seq<string>, page: Option<(nat, nat)>)

  /** The words before the first stop word. */
  function Until(ws: seq<string>, stop: set<string>): (pre: seq<string>)
    ensures |pre| <= |ws| && pre == ws[..|pre|]
  {
    if ws == [] || ws[0] in stop then [] else [ws[0]] + Until(ws[1..], stop)
  }

  const CLAUSES := {"WHERE", "ORDER", "LIMIT"}

  function ParseWhere(ws: seq<string>): Option<(seq<Cond<nat>>, seq<string>)> {
    if ws != [] && ws[0] == "WHERE" then ParseConds(ws[1..]) else Some(([], ws))
  }

  function ParseOrder(ws: seq<string>): (seq<string>, seq<string>) {
    if |ws| >= 2 && ws[0] == "ORDER" && ws[1] == "BY" then
      var order := Until(ws[2..], {"LIMIT"});
      (order, ws[2 + |order|..])
    else ([], ws)
  }

  function ParsePage(ws: seq<string>): Option<Option<(nat, nat)>> {
    if ws == [] then Some(None)
    else if |ws| == 4 && ws[0] == "LIMIT" && ws[2] == "OFFSET" && ParseNat(ws[1]).Some? && ParseNat(ws[3]).Some? then
      Some(Some((ParseNat(ws[1]).value, ParseNat(ws[3]).value)))
    else None
  }

  /** SELECT ... FROM ... [WHERE ...] [ORDER BY ...] [LIMIT n OFFSET m]. */
  function ParseWords(ws: seq<string>): Option<Statement> {
    var head := Until(ws, CLAUSES);
    match ParseWhere(ws[|head|..])
    case None => None
    case Some(w) =>
      var o := ParseOrder(w.1);
      match ParsePage(o.1)
      case None => None
      case Some(page) => Some(Statement(head, w.0, o.0, page))
  }

  function ParseStatement(text: string): Option<Statement> {
    ParseWords(Words(text))
  }

  // ------------------------------------------------------------ what the builder emits, in words

  function FlatWords(parts: seq<string>): seq<string> {
    if parts == [] then [] else Words(parts[0]) + FlatWords(parts[1..])
  }

  lemma {:induction false} WordsOfSegments(parts: seq<string>)
    requires parts != []
    ensures Words(Join(parts, " ")) == FlatWords(parts)
  {
    if |parts| > 1 {
      WordsOfPair(parts[0], Join(parts[1..], " "));
      WordsOfSegments(parts[1..]);
    } else {
      assert FlatWords(parts[1..]) == [];
    }
  }

  lemma {:induction false} FlatWordsMore(a: seq<string>, b: seq<string>)
    ensures FlatWords(a + b) == FlatWords(a) + FlatWords(b)
  {
    if a == [] {
      assert a + b == b;
    } else {
      assert (a + b)[1..] == a[1..] + b;
      FlatWordsMore(a[1..], b);
    }
  }

  function HeadWords(selected: string, b: Builder): seq<string> {
    FlatWords(["SELECT", selected, "FROM", FromText(b)])
  }

  function OrderWords(b: Builder): seq<string> {
    if b.orderBy == "" then [] else Words(b.orderBy)
  }

  function PageOf(b: Builder): Option<(nat, nat)>
    requires b.offset >= 0
  {
    if b.limit <= 0 then None else Some((b.limit, b.offset))
  }

  predicate AllPlain<V>(cs: seq<Cond<V>>) {
    forall i :: 0 <= i < |cs| ==> Plain(cs[i])
  }

  predicate NoneOf(ws: seq<string>, stop: set<string>) {
    forall i :: 0 <= i < |ws| ==> ws[i] !in stop
  }

  /** Column and table texts contain no clause keyword as a word, and condition columns no space. */
  ghost predicate PlainBuilder(selected: string, b: Builder) {
    AllPlain(b.asked) && NoneOf(HeadWords(selected, b), CLAUSES) && NoneOf(OrderWords(b), {"LIMIT"}) && b.offset >= 0
  }

  lemma {:induction false} UntilBack(pre: seq<string>, rest: seq<string>, stop: set<string>)
    requires NoneOf(pre, stop) && (rest != [] ==> rest[0] in stop)
    ensures Until(pre + rest, stop) == pre
  {
    if pre == [] {
      assert pre + rest == rest;
    } else {
      assert (pre + rest)[1..] == pre[1..] + rest;
      UntilBack(pre[1..], rest, stop);
    }
  }

  lemma {:induction false} NumberAllPlain(cs: seq<Cond<Value>>)
    requires AllPlain(cs)
    ensures AllPlain(NumberAll(cs)) && |NumberAll(cs)| == |cs|
  {
    if cs != [] {
      NumberAllPlain(cs[..|cs| - 1]);
    }
  }

  // ------------------------------------------------------------ the clauses as words

  function WhereWords(cs: seq<Cond<nat>>): seq<string>
    requires AllPlain(cs)
  {
    if cs == [] then [] else ["WHERE"] + CondsWords(cs)
  }

  function OrderClause(order: seq<string>): seq<string> {
    if order == [] then [] else ["ORDER", "BY"] + order
  }

  function PageClause(page: Option<(nat, nat)>): seq<string> {
    match page
    case None => []
    case Some(p) => ["LIMIT", FormatNat(p.0), "OFFSET", FormatNat(p.1)]
  }

  lemma ParseWhereBack(cs: seq<Cond<nat>>, rest: seq<string>)
    requires AllPlain(cs) && (rest != [] ==> rest[0] != "AND" && rest[0] != "WHERE")
    ensures ParseWhere(WhereWords(cs) + rest) == Some((cs, rest))
  {
    if cs == [] {
      assert WhereWords(cs) + rest == rest;
    } else {
      ParseCondsBack(cs, rest);
      AfterWhere(CondsWords(cs), rest);
    }
  }

  lemma AfterWhere(ws: seq<string>, rest: seq<string>)
    ensures ParseWhere(["WHERE"] + ws + rest) == ParseConds(ws + rest)
  {
    assert (["WHERE"] + ws + rest)[1..] == ws + rest;
  }

  lemma ParseOrderBack(order: seq<string>, rest: seq<string>)
    requires NoneOf(order, {"LIMIT"}) && (rest != [] ==> rest[0] == "LIMIT")
    ensures ParseOrder(OrderClause(order) + rest) == (order, rest)
  {
    var ws := OrderClause(order) + rest;
    if order == [] {
      assert ws == rest;
    } else {
      assert ws[2..] == order + rest;
      UntilBack(order, rest, {"LIMIT"});
      assert ws[2 + |order|..] == rest;
    }
  }

  lemma ParsePageBack(page: Option<(nat, nat)>)
    ensures ParsePage(PageClause(page)) == Some(page)
  {
    if page.Some? {
      ParseFormatNat(page.value.0);
      ParseFormatNat(page.value.1);
    }
  }

  /** Reading the words of a statement gives its clauses. */
  lemma ParseWordsBack(st: Statement)
    requires AllPlain(st.conds) && NoneOf(st.head, CLAUSES) && NoneOf(st.order, {"LIMIT"})
    ensures ParseWords(st.head + (WhereWords(st.conds) + (OrderClause(st.order) + PageClause(st.page)))) == Some(st)
  {
    var g := PageClause(st.page);
    var og := OrderClause(st.order) + g;
    var wog := WhereWords(st.conds) + og;
    var ws := st.head + wog;
    assert wog != [] ==> wog[0] in CLAUSES;
    UntilBack(st.head, wog, CLAUSES);
    assert ws[|st.head|..] == wog;
    ParseWhereBack(st.conds, og);
    ParseOrderBack(st.order, g);
    ParsePageBack(st.page);
  }

  // ------------------------------------------------------------ from text to words

  lemma FlatTwo(a: string, b: string)
    ensures FlatWords([a, b]) == Words(a) + Words(b)
  {
    assert [a, b][1..] == [b] && [b][1..] == [];
    assert FlatWords([b]) == Words(b);
  }

  lemma FlatThree(a: string, b: string, c: string)
    ensures FlatWords([a, b, c]) == Words(a) + Words(b) + Words(c)
  {
    assert [a, b, c][1..] == [b, c];
    FlatTwo(b, c);
  }

  lemma FlatFour(a: string, b: string, c: string, d: string)
    ensures FlatWords([a, b, c, d]) == Words(a) + Words(b) + (Words(c) + Words(d))
  {
    assert [a, b, c, d] == [a, b] + [c, d];
    FlatWordsMore([a, b], [c, d]);
    FlatTwo(a, b);
    FlatTwo(c, d);
  }

  lemma WhereText(b: Builder)
    requires AllPlain(b.asked)
    ensures AllPlain(NumberAll(b.asked)) && FlatWords(WhereSegments(b)) == WhereWords(NumberAll(b.asked))
  {
    var ns := NumberAll(b.asked);
    NumberAllPlain(b.asked);
    if b.asked != [] {
      TextsOf(ns);
      WordsOfJoin(ns, Texts(ns));
      SolidWord("WHERE");
      FlatTwo("WHERE", Join(Texts(ns), " AND "));
    }
  }

  lemma OrderText(b: Builder)
    ensures FlatWords(OrderSegments(b)) == OrderClause(OrderWords(b))
  {
    if b.orderBy != "" {
      SolidWord("ORDER");
      SolidWord("BY");
      FlatThree("ORDER", "BY", b.orderBy);
    }
  }

  lemma DigitsSolid(s: string)
    requires AllDigits(s)
    ensures Solid(s)
  {
  }

  lemma PageText(b: Builder)
    requires b.offset >= 0
    ensures FlatWords(PageSegments(b)) == PageClause(PageOf(b))
  {
    if b.limit > 0 {
      var l, o := FormatNat(b.limit), FormatNat(b.offset);
      DigitsSolid(l);
      DigitsSolid(o);
      SolidWord("LIMIT");
      SolidWord("OFFSET");
      SolidWord(l);
      SolidWord(o);
      FlatFour("LIMIT", l, "OFFSET", o);
    }
  }

  /** The text of the row query reads back as its clauses. */
  lemma SqlReadsBack(b: Builder)
    requires PlainBuilder(Join(b.columns, ", "), b)
    ensures ParseStatement(Join(SqlSegments(b), " ")) ==
            Some(Statement(HeadWords(Join(b.columns, ", "), b), NumberAll(b.asked), OrderWords(b), PageOf(b)))
  {
    var head := ["SELECT", Join(b.columns, ", "), "FROM", FromText(b)];
    WordsOfSegments(SqlSegments(b));
    FlatFourParts(head, WhereSegments(b), OrderSegments(b), PageSegments(b));
    WhereText(b);
    OrderText(b);
    PageText(b);
    ParseWordsBack(Statement(FlatWords(head), NumberAll(b.asked), OrderWords(b), PageOf(b)));
  }

  lemma FlatFourParts(a: seq<string>, b: seq<string>, c: seq<string>, d: seq<string>)
    ensures FlatWords(a + b + c + d) == FlatWords(a) + (FlatWords(b) + (FlatWords(c) + FlatWords(d)))
  {
    FlatWordsMore(a + b + c, d);
    FlatWordsMore(a + b, c);
    FlatWordsMore(a, b);
    Regroup(FlatWords(a), FlatWords(b), FlatWords(c), FlatWords(d));
  }

  lemma Regroup<T>(p: seq<T>, q: seq<T>, r: seq<T>, t: seq<T>)
    ensures p + q + r + t == p + (q + (r + t))
  {
  }

  /** The text of the count query reads back as the same conditions and no further clause. */
  lemma CountReadsBack(b: Builder)
    requires PlainBuilder("COUNT(*)", b)
    ensures ParseStatement(Join(CountSegments(b), " ")) ==
            Some(Statement(HeadWords("COUNT(*)", b), NumberAll(b.asked), [], None))
  {
    var head := ["SELECT", "COUNT(*)", "FROM", FromText(b)];
    WordsOfSegments(CountSegments(b));
    FlatWordsMore(head, WhereSegments(b));
    WhereText(b);
    var st := Statement(FlatWords(head), NumberAll(b.asked), [], None);
    ParseWordsBack(st);
    assert WhereWords(st.conds) + (OrderClause([]) + PageClause(None)) == WhereWords(st.conds);
  }

  // ------------------------------------------------------------ meaning

  predicate InRange(c: Cond<nat>, n: nat) {
    forall i :: 0 <= i < |Values(c)| ==> 1 <= Values(c)[i] <= n
  }

  /** A condition with its placeholders bound to the arguments. */
  function Bind(c: Cond<nat>, args: seq<Value>): Cond<Value>
    requires InRange(c, |args|)
  {
    match c
    case In(col, ns) => In(col, seq(|ns|, i requires 0 <= i < |ns| => assert Values(c)[i] == ns[i]; args[ns[i] - 1]))
    case IsNull(col) => IsNull(col)
    case IsNotNull(col) => IsNotNull(col)
    case Like(col, n) => assert Values(c)[0] == n; Like(col, args[n - 1])
    case ILike(col, n) => assert Values(c)[0] == n; ILike(col, args[n - 1])
    case AtLeast(col, n) => assert Values(c)[0] == n; AtLeast(col, args[n - 1])
    case Before(col, n) => assert Values(c)[0] == n; Before(col, args[n - 1])
  }

  /** Binding the i-th numbered condition to the arguments gives the i-th condition asked for. */
  lemma BindNumber(c: Cond<Value>, before: seq<Value>, args: seq<Value>)
    requires before + Values(c) <= args
    ensures InRange(Number(c, 1 + |before|), |args|)
    ensures Bind(Number(c, 1 + |before|), args) == c
  {
    NumberValues(c, 1 + |before|);
    forall i | 0 <= i < |Values(c)| ensures args[|before| + i] == Values(c)[i] {
      assert (before + Values(c))[|before| + i] == Values(c)[i];
    }
    if c.Like? || c.ILike? || c.AtLeast? || c.Before? { assert args[|before| + 0] == c.v; }
  }

  /** The WHERE clause of the emitted text, bound to the emitted arguments, is exactly what was asked. */
  lemma {:induction false} BindsToAsked(cs: seq<Cond<Value>>, args: seq<Value>)
    requires AllValues(cs) <= args
    ensures |NumberAll(cs)| == |cs|
    ensures forall i :: 0 <= i < |cs| ==> InRange(NumberAll(cs)[i], |args|) && Bind(NumberAll(cs)[i], args) == cs[i]
  {
    if cs != [] {
      var pre, c := cs[..|cs| - 1], cs[|cs| - 1];
      assert AllValues(pre) <= AllValues(cs);
      BindsToAsked(pre, args);
      BindNumber(c, AllValues(pre), args);
    }
  }
}
