/**
 The list endpoints end to end: a search is applied to a builder, the builder's two statements are
 executed, and the pages together hold exactly the rows that match the search.
 */
module Listing {
  import opened Options
  import opened SqlWords
  import opened Conditions
  import opened QueryBuilding
  import opened Statements
  import opened Paging

  // ------------------------------------------------------------ executing a statement

  /** The stored rows by FROM clause, what a bound condition means of a row, the order in which an
      ORDER BY clause puts rows, and the value of a row's column, none being NULL. */
  datatype Engine<!R> = Engine(
    source: seq<string> -> seq<R>, holds: (Cond<Value>, R) -> bool, sort: (seq<string>, seq<R>) -> seq<R>,
    column: (R, string) -> Option<Value>)

  ghost predicate Satisfies<R>(e: Engine<R>, cs: seq<Cond<Value>>, r: R) {
    forall i :: 0 <= i < |cs| ==> e.holds(cs[i], r)
  }

  ghost function Filter<R>(e: Engine<R>, cs: seq<Cond<Value>>, rows: seq<R>): seq<R> {
    if rows == [] then []
    else (if Satisfies(e, cs, rows[0]) then [rows[0]] else []) + Filter(e, cs, rows[1..])
  }

  /** The words after the first FROM. */
  function AfterFrom(ws: seq<string>): seq<string> {
    if ws == [] then [] else if ws[0] == "FROM" then ws[1..] else AfterFrom(ws[1..])
  }

  /** The conditions with their placeholders bound, if every placeholder has an argument. */
  function BindAll(cs: seq<Cond<nat>>, args: seq<Value>): Option<seq<Cond<Value>>> {
    if forall i :: 0 <= i < |cs| ==> InRange(cs[i], |args|) then
      Some(seq(|cs|, i requires 0 <= i < |cs| => Bind(cs[i], args)))
    else None
  }

  ghost function Matching<R>(e: Engine<R>, st: Statement, args: seq<Value>): Option<seq<R>> {
    match BindAll(st.conds, args)
    case None => None
    case Some(cs) => Some(Filter(e, cs, e.source(AfterFrom(st.head))))
  }

  ghost function ExecuteRows<R>(e: Engine<R>, text: string, args: seq<Value>): Option<seq<R>> {
    match ParseStatement(text)
    case None => None
    case Some(st) =>
      match Matching(e, st, args)
      case None => None
      case Some(rows) =>
        var sorted := e.sort(st.order, rows);
        Some(if st.page.Some? then Window(sorted, st.page.value.0, st.page.value.1) else sorted)
  }

  // ------------------------------------------------------------ the selected columns

  predicate EndsInComma(w: string) {
    w != "" && w[|w| - 1] == ','
  }

  /** A comma-separated list, item by item. */
  function Items(ws: seq<string>): seq<seq<string>> {
    if ws == [] then []
    else if EndsInComma(ws[0]) then [[ws[0][..|ws[0]| - 1]]] + Items(ws[1..])
    else
      var rest := Items(ws[1..]);
      if rest == [] then [[ws[0]]] else [[ws[0]] + rest[0]] + rest[1..]
  }

  function Unqualified(column: string): string {
    if '.' in column then AfterDot(column) else column
  }

  function AfterDot(column: string): string
    requires '.' in column
  {
    if column[0] == '.' then column[1..] else AfterDot(column[1..])
  }

  /** The name of a result column: its alias, or the column without its table. */
  function Label(item: seq<string>): string
    requires item != []
  {
    if |item| == 3 && item[1] == "AS" then item[2] else Unqualified(item[0])
  }

  /** A result set: the names of its columns, and the cells of its rows. */
  datatype Table = Table(header: seq<string>, cells: seq<seq<Option<Value>>>)

  ghost function Project<R>(e: Engine<R>, items: seq<seq<string>>, rows: seq<R>): Table
    requires forall j :: 0 <= j < |items| ==> items[j] != []
  {
    Table(seq(|items|, j requires 0 <= j < |items| => Label(items[j])),
          seq(|rows|, i requires 0 <= i < |rows| =>
            seq(|items|, j requires 0 <= j < |items| => e.column(rows[i], items[j][0]))))
  }

  lemma {:induction false} ItemsNonempty(ws: seq<string>)
    ensures forall j :: 0 <= j < |Items(ws)| ==> Items(ws)[j] != []
  {
    if ws != [] { ItemsNonempty(ws[1..]); }
  }

  /** The words between SELECT and FROM. */
  function SelectList(head: seq<string>): seq<string> {
    if head == [] then [] else Until(head[1..], {"FROM"})
  }

  /** The result set a client of the statement is sent. */
  ghost function ExecuteTable<R>(e: Engine<R>, text: string, args: seq<Value>): Option<Table> {
    match (ParseStatement(text), ExecuteRows(e, text, args))
    case (Some(st), Some(rows)) =>
      ItemsNonempty(SelectList(st.head));
      Some(Project(e, Items(SelectList(st.head)), rows))
    case _ => None
  }

  ghost function ExecuteCount<R>(e: Engine<R>, text: string, args: seq<Value>): Option<nat> {
    match ParseStatement(text)
    case None => None
    case Some(st) =>
      if |st.head| < 3 || st.head[..3] != ["SELECT", "COUNT(*)", "FROM"] then None
      else match Matching(e, st, args)
           case None => None
           case Some(rows) => Some(|rows|)
  }

  // ------------------------------------------------------------ what the two statements answer

  const KEYWORDS := CLAUSES + {"FROM"}

  /** No keyword of the statement occurs as a word of the selected columns or of the source. */
  ghost predicate PlainText(b: Builder) {
    && NoneOf(Words(Join(b.columns, ", ")), KEYWORDS) && NoneOf(Words(FromText(b)), KEYWORDS)
    && NoneOf(OrderWords(b), {"LIMIT"}) && AllPlain(b.asked) && b.offset >= 0
  }

  lemma HeadIs(selected: string, b: Builder)
    ensures HeadWords(selected, b) == ["SELECT"] + Words(selected) + (["FROM"] + Words(FromText(b)))
  {
    SolidWord("SELECT");
    SolidWord("FROM");
    FlatFour("SELECT", selected, "FROM", FromText(b));
  }

  lemma {:induction false} AfterFromBack(pre: seq<string>, rest: seq<string>)
    requires "FROM" !in pre
    ensures AfterFrom(pre + (["FROM"] + rest)) == rest
  {
    var ws := pre + (["FROM"] + rest);
    if pre == [] {
      assert ws == ["FROM"] + rest;
    } else {
      assert ws[1..] == pre[1..] + (["FROM"] + rest);
      AfterFromBack(pre[1..], rest);
    }
  }

  lemma HeadPlain(selected: string, b: Builder)
    requires NoneOf(Words(selected), KEYWORDS) && NoneOf(Words(FromText(b)), KEYWORDS)
    ensures NoneOf(HeadWords(selected, b), CLAUSES) && AfterFrom(HeadWords(selected, b)) == Words(FromText(b))
  {
    HeadIs(selected, b);
    AfterFromBack(["SELECT"] + Words(selected), Words(FromText(b)));
  }

  lemma BindAllIs(ns: seq<Cond<nat>>, args: seq<Value>, cs: seq<Cond<Value>>)
    requires |ns| == |cs|
    requires forall i :: 0 <= i < |cs| ==> InRange(ns[i], |args|) && Bind(ns[i], args) == cs[i]
    ensures BindAll(ns, args) == Some(cs)
  {
    assert forall i :: 0 <= i < |ns| ==> InRange(ns[i], |args|);
    assert BindAll(ns, args).value == cs;
  }

  lemma BindAllNumbered(cs: seq<Cond<Value>>)
    ensures BindAll(NumberAll(cs), AllValues(cs)) == Some(cs)
  {
    BindsToAsked(cs, AllValues(cs));
    BindAllIs(NumberAll(cs), AllValues(cs), cs);
  }

  /** The rows a builder asks for: those of its source that satisfy every condition. */
  ghost function Asked<R>(e: Engine<R>, b: Builder): seq<R> {
    Filter(e, b.asked, e.source(Words(FromText(b))))
  }

  lemma RowsAnswer<R>(e: Engine<R>, b: Builder)
    requires PlainText(b) && b.limit > 0
    ensures ExecuteRows(e, Join(SqlSegments(b), " "), AllValues(b.asked)) ==
            Some(Window(e.sort(OrderWords(b), Asked(e, b)), b.limit, b.offset))
  {
    HeadPlain(Join(b.columns, ", "), b);
    SqlReadsBack(b);
    BindAllNumbered(b.asked);
  }

  /** Words without commas, the last of them followed by one, are one item. */
  lemma {:induction false} ItemFirst(ws: seq<string>, rest: seq<string>)
    requires ws != [] && forall i :: 0 <= i < |ws| ==> !EndsInComma(ws[i])
    ensures Items(ws[..|ws| - 1] + [ws[|ws| - 1] + ","] + rest) == [ws] + Items(rest)
  {
    var all := ws[..|ws| - 1] + [ws[|ws| - 1] + ","] + rest;
    if |ws| == 1 {
      assert all == [ws[0] + ","] + rest && all[1..] == rest && ws == [ws[0]];
      assert (ws[0] + ",")[..|ws[0]|] == ws[0];
    } else {
      var tail := ws[1..];
      assert all[1..] == tail[..|tail| - 1] + [tail[|tail| - 1] + ","] + rest;
      ItemFirst(tail, rest);
      assert [ws[0]] + tail == ws;
    }
  }

  lemma {:induction false} ItemLast(ws: seq<string>)
    requires ws != [] && forall i :: 0 <= i < |ws| ==> !EndsInComma(ws[i])
    ensures Items(ws) == [ws]
  {
    if |ws| > 1 {
      ItemLast(ws[1..]);
      assert [ws[0]] + ws[1..] == ws;
    } else {
      assert ws == [ws[0]];
    }
  }

  /** The page query selects the builder's columns, whatever else it says. */
  lemma TableAnswer<R>(e: Engine<R>, b: Builder, items: seq<seq<string>>)
    requires PlainText(b) && b.limit > 0 && Items(Words(Join(b.columns, ", "))) == items
    requires forall j :: 0 <= j < |items| ==> items[j] != []
    ensures ExecuteTable(e, Join(SqlSegments(b), " "), AllValues(b.asked)) ==
            Some(Project(e, items, Window(e.sort(OrderWords(b), Asked(e, b)), b.limit, b.offset)))
  {
    RowsAnswer(e, b);
    HeadPlain(Join(b.columns, ", "), b);
    SqlReadsBack(b);
    SelectListIs(Join(b.columns, ", "), b);
  }

  lemma SelectListIs(selected: string, b: Builder)
    requires NoneOf(Words(selected), KEYWORDS)
    ensures SelectList(HeadWords(selected, b)) == Words(selected)
  {
    HeadIs(selected, b);
    SelectListBack(Words(selected), Words(FromText(b)));
  }

  lemma SelectListBack(selected: seq<string>, from: seq<string>)
    requires NoneOf(selected, KEYWORDS)
    ensures SelectList(["SELECT"] + selected + (["FROM"] + from)) == selected
  {
    var rest := ["FROM"] + from;
    var head := ["SELECT"] + selected + rest;
    assert head[1..] == selected + rest;
    UntilBack(selected, rest, {"FROM"});
  }

  lemma CountHead(selected: string, b: Builder)
    requires Solid(selected) && selected !in KEYWORDS && NoneOf(Words(FromText(b)), KEYWORDS)
    ensures NoneOf(HeadWords(selected, b), CLAUSES) && AfterFrom(HeadWords(selected, b)) == Words(FromText(b))
    ensures |HeadWords(selected, b)| >= 3 && HeadWords(selected, b)[..3] == ["SELECT", selected, "FROM"]
  {
    SolidWord(selected);
    HeadPlain(selected, b);
    HeadIs(selected, b);
    FirstThree(selected, Words(FromText(b)));
  }

  lemma FirstThree(selected: string, rest: seq<string>)
    ensures (["SELECT"] + [selected] + (["FROM"] + rest))[..3] == ["SELECT", selected, "FROM"]
  {
  }

  lemma CountAnswer<R>(e: Engine<R>, b: Builder)
    requires PlainText(b)
    ensures ExecuteCount(e, Join(CountSegments(b), " "), AllValues(b.asked)) == Some(|Asked(e, b)|)
  {
    CountHead("COUNT(*)", b);
    CountReadsBack(b);
    BindAllNumbered(b.asked);
  }

  // ------------------------------------------------------------ pages

  /** A statement and its arguments. */
  datatype Query = Query(text: string, args: seq<Value>)

  function RowQuery(b: Builder): Query {
    Query(Join(SqlSegments(b), " "), AllValues(b.asked))
  }

  function CountQuery(b: Builder): Query {
    Query(Join(CountSegments(b), " "), AllValues(b.asked))
  }

  /** The rows returned for pages 1..n, put together. */
  ghost function Fetched<R>(e: Engine<R>, page: nat -> Query, n: nat): seq<R> {
    if n == 0 then []
    else
      var rows := ExecuteRows(e, page(n).text, page(n).args);
      Fetched(e, page, n - 1) + if rows.Some? then rows.value else []
  }

  /** The queries are those of one listing, page by page. */
  ghost predicate PagesOf(page: nat -> Query, base: Builder, limit: int) {
    forall p: nat :: p >= 1 ==> page(p) == RowQuery(AskPage(base, p, limit))
  }

  lemma {:induction false} FetchedArePages<R>(e: Engine<R>, page: nat -> Query, base: Builder, n: nat, limit: int)
    requires PlainText(base) && base.offset == 0 && 1 <= limit <= MAX_LIMIT && PagesOf(page, base, limit)
    ensures Fetched(e, page, n) == Pages(e.sort(OrderWords(base), Asked(e, base)), n, limit)
  {
    if n > 0 {
      FetchedArePages(e, page, base, n - 1, limit);
      var b := AskPage(base, n, limit);
      assert FromText(b) == FromText(base);
      RowsAnswer(e, b);
    }
  }

  /** ORDER BY arranges the rows it is given, and neither drops nor repeats any. */
  ghost predicate Arranges<R(!new)>(e: Engine<R>) {
    forall order, rows :: multiset(e.sort(order, rows)) == multiset(rows)
  }

  /** What a listing promises: the count statement answers the number of rows asked for, and the pages
      up to the number computed from it hold exactly those rows, each as often as it was asked for, in
      the order of the ORDER BY clause. */
  ghost predicate Complete<R>(e: Engine<R>, page: nat -> Query, count: Query, limit: int, order: seq<string>,
                              asked: seq<R>)
  {
    && ExecuteCount(e, count.text, count.args) == Some(|asked|)
    && Fetched(e, page, TotalPages(|asked|, limit)) == e.sort(order, asked)
    && multiset(Fetched(e, page, TotalPages(|asked|, limit))) == multiset(asked)
  }

  lemma PagesAnswer<R(!new)>(e: Engine<R>, page: nat -> Query, base: Builder, limit: int)
    requires PlainText(base) && base.offset == 0 && 1 <= limit <= MAX_LIMIT && PagesOf(page, base, limit)
    requires Arranges(e) && |Asked(e, base)| <= MAX_INT32
    ensures Complete(e, page, CountQuery(base), limit, OrderWords(base), Asked(e, base))
  {
    var asked := Asked(e, base);
    var rows := e.sort(OrderWords(base), asked);
    assert multiset(rows) == multiset(asked);
    assert |rows| == |multiset(rows)| == |multiset(asked)| == |asked|;
    CountAnswer(e, base);
    FetchedArePages(e, page, base, TotalPages(|rows|, limit), limit);
    PagesCoverResult(rows, limit);
  }
}
