/**
 The SELECT builder: a mutable object whose methods append conditions and arguments, and whose
 two statements are proved to mean what was asked for.
 */
module QueryBuilding {
  import opened Options
  import opened Decimal
  import opened SqlWords
  import opened Conditions

  const MAX_INT32: int := 0x7fff_ffff

  datatype Value = Str(s: string) | Instant(t: int) | Uuid(u: string) | Integer(n: int) | Json(j: string)

  /** A dynamically typed argument, as far as the builder tells such values apart. */
  datatype Any = Nil | Scalar(v: Value) | Slice(vs: seq<Value>)

  /** What a builder stands for: the conditions asked for, in order, and the other clauses. */
  datatype Builder = Builder(
    table: string, columns: seq<string>, joins: seq<string>,
    asked: seq<Cond<Value>>, orderBy: string, limit: int, offset: int)

  // ------------------------------------------------------------ what each method asks for

  function AskIn(b: Builder, column: string, value: Any): Builder {
    if value.Slice? && value.vs != [] then b.(asked := b.asked + [In(column, value.vs)]) else b
  }

  /** Go's zero time is the first instant of year 1, UTC. */
  const ZERO_TIME: int := -62135596800 * 1_000_000_000

  function AskBetween(b: Builder, column: string, from: int, to: int): Builder {
    b.(asked := b.asked
    + (if from != ZERO_TIME then [AtLeast(column, Instant(from))] else [])
    + (if to != ZERO_TIME then [Before(column, Instant(to))] else []))
  }

  function AskOrder(b: Builder, column: string, order: string): Builder {
    if column == "" then b else b.(orderBy := column + if order != "" then " " + order else "")
  }

  /** Signed 64-bit wrap-around. */
  function Wrap64(n: int): (r: int)
    ensures MIN_INT64 <= r <= MAX_INT64
    ensures MIN_INT64 <= n <= MAX_INT64 ==> r == n
  {
    (n + 0x8000_0000_0000_0000) % 0x1_0000_0000_0000_0000 - 0x8000_0000_0000_0000
  }

  /** The offset of a page, saturated when the 64-bit product is negative or above MaxInt32. */
  function PageOffset(page: int, limit: int): (o: int)
    ensures 0 <= o <= MAX_INT32
  {
    if page <= 1 then 0
    else
      var offset := Wrap64(Wrap64(page - 1) * limit);
      if offset < 0 || offset > MAX_INT32 then MAX_INT32 else offset
  }

  function AskPage(b: Builder, page: int, limit: int): Builder {
    if limit <= 0 then b
    else b.(limit := limit, offset := if page > 1 then PageOffset(page, limit) else b.offset)
  }

  // ------------------------------------------------------------ statement text

  function FromText(b: Builder): string {
    if b.joins == [] then b.table else b.table + " " + Join(b.joins, " ")
  }

  function WhereSegments(b: Builder): seq<string> {
    if b.asked == [] then [] else ["WHERE", Join(Texts(NumberAll(b.asked)), " AND ")]
  }

  function OrderSegments(b: Builder): seq<string> {
    if b.orderBy == "" then [] else ["ORDER", "BY", b.orderBy]
  }

  function PageSegments(b: Builder): seq<string> {
    if b.limit <= 0 then [] else ["LIMIT", FormatInt(b.limit), "OFFSET", FormatInt(b.offset)]
  }

  function SqlSegments(b: Builder): seq<string> {
    ["SELECT", Join(b.columns, ", "), "FROM", FromText(b)] + WhereSegments(b) + OrderSegments(b) + PageSegments(b)
  }

  function CountSegments(b: Builder): seq<string> {
    ["SELECT", "COUNT(*)", "FROM", FromText(b)] + WhereSegments(b)
  }

  class QueryBuilder {
    const table: string
    const columns: seq<string>
    var joins: seq<string>
    var wheres: seq<string>
    var args: seq<Value>
    var orderBy: string
    var limit: int
    var offset: int
    ghost var asked: seq<Cond<Value>>

    ghost function View(): Builder
      reads this
    {
      Builder(table, columns, joins, asked, orderBy, limit, offset)
    }

    /** The clauses are the texts of the conditions asked for, and the arguments their values. */
    ghost predicate Valid()
      reads this
    {
      wheres == Texts(NumberAll(asked)) && args == AllValues(asked)
    }

    constructor Select(table: string, columns: seq<string>)
      ensures Valid() && View() == Builder(table, columns, [], [], "", 0, 0)
    {
      this.table, this.columns := table, columns;
      joins, wheres, args, orderBy, limit, offset := [], [], [], "", 0, 0;
      asked := [];
    }

    method LeftJoin(other: string, on: string)
      requires Valid()
      modifies this
      ensures Valid() && View() == old(View()).(joins := old(joins) + ["LEFT JOIN " + other + " ON " + on])
    {
      joins := joins + ["LEFT JOIN " + other + " ON " + on];
    }

    method AddArg(value: Value) returns (placeholder: string)
      modifies this`args
      ensures args == old(args) + [value] && placeholder == Hole(|args|)
    {
      args := args + [value];
      placeholder := "$" + FormatNat(|args|);
    }

    ghost method Asked(c: Cond<Value>, before: seq<Cond<Value>>)
      requires asked == before && args == AllValues(before) + Values(c)
      requires wheres == Texts(NumberAll(before)) + [Text(Number(c, 1 + |AllValues(before)|))]
      modifies this`asked
      ensures Valid() && asked == before + [c]
    {
      OneMore(before, c, args, wheres);
      asked := before + [c];
    }

    /** The placeholders of a list of values, appended as arguments in order. */
    method AddArgs(vs: seq<Value>) returns (placeholders: seq<string>)
      modifies this`args
      ensures args == old(args) + vs && placeholders == Holes(Count(1 + |old(args)|, |vs|))
    {
      placeholders := [];
      var i := 0;
      while i < |vs|
        invariant 0 <= i <= |vs|
        invariant args == old(args) + vs[..i]
        invariant placeholders == Holes(Count(1 + |old(args)|, i))
      {
        var ph := AddArg(vs[i]);
        HolesMore(1 + |old(args)|, i);
        placeholders := placeholders + [ph];
        i := i + 1;
      }
    }

    /** Nil, non-slices and empty slices add nothing. */
    method WhereIn(column: string, value: Any)
      requires Valid()
      modifies this
      ensures Valid() && View() == AskIn(old(View()), column, value)
    {
      if !value.Slice? || value.vs == [] {
        return;
      }
      var placeholders := AddArgs(value.vs);
      wheres := wheres + [column + " " + "IN" + " " + ("(" + (Join(placeholders, ", ") + ")"))];
      Asked(In(column, value.vs), asked);
    }

    method WhereNull(column: string)
      requires Valid()
      modifies this
      ensures Valid() && View() == old(View()).(asked := old(asked) + [IsNull(column)])
    {
      wheres := wheres + [column + " " + "IS" + " " + "NULL"];
      Asked(IsNull(column), asked);
    }

    method WhereNotNull(column: string)
      requires Valid()
      modifies this
      ensures Valid() && View() == old(View()).(asked := old(asked) + [IsNotNull(column)])
    {
      wheres := wheres + [column + " " + "IS" + " " + ("NOT" + " " + "NULL")];
      Asked(IsNotNull(column), asked);
    }

    method WhereLike(column: string, value: Option<Value>)
      requires Valid()
      modifies this
      ensures Valid()
      ensures View() == if value.Some? then old(View()).(asked := old(asked) + [Like(column, value.value)])
                        else old(View())
    {
      if value.None? {
        return;
      }
      var ph := AddArg(value.value);
      wheres := wheres + [column + " " + "LIKE" + " " + ph];
      Asked(Like(column, value.value), asked);
    }

    method WhereILike(column: string, value: Option<Value>)
      requires Valid()
      modifies this
      ensures Valid()
      ensures View() == if value.Some? then old(View()).(asked := old(asked) + [ILike(column, value.value)])
                        else old(View())
    {
      if value.None? {
        return;
      }
      var ph := AddArg(value.value);
      wheres := wheres + [column + " " + "ILIKE" + " " + ph];
      Asked(ILike(column, value.value), asked);
    }

    /** A half-open range; a zero bound leaves its side open. */
    method WhereBetween(column: string, from: int, to: int)
      requires Valid()
      modifies this
      ensures Valid() && View() == AskBetween(old(View()), column, from, to)
    {
      if from != ZERO_TIME {
        WhereFrom(column, Instant(from));
      }
      if to != ZERO_TIME {
        WhereTo(column, Instant(to));
      }
    }

    method WhereFrom(column: string, bound: Value)
      requires Valid()
      modifies this
      ensures Valid() && View() == old(View()).(asked := old(asked) + [AtLeast(column, bound)])
    {
      var ph := AddArg(bound);
      wheres := wheres + [column + " " + ">=" + " " + ph];
      Asked(AtLeast(column, bound), asked);
    }

    method WhereTo(column: string, bound: Value)
      requires Valid()
      modifies this
      ensures Valid() && View() == old(View()).(asked := old(asked) + [Before(column, bound)])
    {
      var ph := AddArg(bound);
      wheres := wheres + [column + " " + "<" + " " + ph];
      Asked(Before(column, bound), asked);
    }

    method OrderBy(column: string, order: string)
      requires Valid()
      modifies this
      ensures Valid() && View() == AskOrder(old(View()), column, order)
    {
      if column == "" {
        return;
      }
      orderBy := column;
      if order != "" {
        orderBy := orderBy + (" " + order);
      }
    }

    method Paginate(page: int, limit: int)
      requires Valid()
      modifies this
      ensures Valid() && View() == AskPage(old(View()), page, limit)
    {
      if limit <= 0 {
        return;
      }
      this.limit := limit;
      if page > 1 {
        var offset := Wrap64(Wrap64(page - 1) * limit);
        if offset < 0 || offset > MAX_INT32 {
          offset := MAX_INT32;
        }
        this.offset := offset;
      }
    }

    method SQL() returns (text: string, values: seq<Value>)
      requires Valid()
      ensures text == Join(SqlSegments(View()), " ") && values == args
      ensures text == "SELECT " + Join(columns, ", ") + " FROM " + table
                      + (if joins == [] then "" else " " + Join(joins, " "))
                      + (if wheres == [] then "" else " WHERE " + Join(wheres, " AND "))
                      + (if orderBy == "" then "" else " ORDER BY " + orderBy)
                      + (if limit <= 0 then "" else " LIMIT " + FormatInt(limit) + " OFFSET " + FormatInt(offset))
    {
      text := From("SELECT " + Join(columns, ", ") + " FROM " + table);
      text := Where(text);
      if orderBy != "" {
        text := text + (" ORDER BY " + orderBy);
      } else {
        assert text + "" == text;
      }
      if limit > 0 {
        text := text + (" LIMIT " + FormatInt(limit) + " OFFSET " + FormatInt(offset));
      } else {
        assert text + "" == text;
      }
      values := args;
      SqlTextIs(View(), wheres);
    }

    method CountSQL() returns (text: string, values: seq<Value>)
      requires Valid()
      ensures text == Join(CountSegments(View()), " ") && values == args
      ensures text == "SELECT COUNT(*) FROM " + table
                      + (if joins == [] then "" else " " + Join(joins, " "))
                      + (if wheres == [] then "" else " WHERE " + Join(wheres, " AND "))
    {
      text := From("SELECT COUNT(*) FROM " + table);
      text := Where(text);
      values := args;
      CountTextIs(View(), wheres);
    }

    /** The joins, and then the conditions, after a statement's text so far. */
    method From(head: string) returns (text: string)
      ensures text == head + (if joins == [] then "" else " " + Join(joins, " "))
    {
      text := head;
      if |joins| > 0 {
        text := text + (" " + Join(joins, " "));
      } else {
        assert text + "" == text;
      }
    }

    method Where(head: string) returns (text: string)
      ensures text == head + (if wheres == [] then "" else " WHERE " + Join(wheres, " AND "))
    {
      text := head;
      if |wheres| > 0 {
        text := text + (" WHERE " + Join(wheres, " AND "));
      } else {
        assert text + "" == text;
      }
    }
  }

  /** The segments of the row statement, put together. */
  lemma SqlTextIs(b: Builder, wheres: seq<string>)
    requires wheres == Texts(NumberAll(b.asked))
    ensures Join(SqlSegments(b), " ") ==
            "SELECT " + Join(b.columns, ", ") + " FROM " + b.table
            + (if b.joins == [] then "" else " " + Join(b.joins, " "))
            + (if wheres == [] then "" else " WHERE " + Join(wheres, " AND "))
            + (if b.orderBy == "" then "" else " ORDER BY " + b.orderBy)
            + (if b.limit <= 0 then "" else " LIMIT " + FormatInt(b.limit) + " OFFSET " + FormatInt(b.offset))
  {
    var head := ["SELECT", Join(b.columns, ", "), "FROM", FromText(b)];
    HeadTextIs(Join(b.columns, ", "), b);
    WithWhere(head, b, wheres);
    WithOrder(head + WhereSegments(b), b);
    WithPage(head + WhereSegments(b) + OrderSegments(b), b);
  }

  lemma CountTextIs(b: Builder, wheres: seq<string>)
    requires wheres == Texts(NumberAll(b.asked))
    ensures Join(CountSegments(b), " ") ==
            "SELECT COUNT(*) FROM " + b.table
            + (if b.joins == [] then "" else " " + Join(b.joins, " "))
            + (if wheres == [] then "" else " WHERE " + Join(wheres, " AND "))
  {
    HeadTextIs("COUNT(*)", b);
    assert "SELECT " + "COUNT(*)" + " FROM " == "SELECT COUNT(*) FROM ";
    WithWhere(["SELECT", "COUNT(*)", "FROM", FromText(b)], b, wheres);
  }

  lemma HeadTextIs(selected: string, b: Builder)
    ensures Join(["SELECT", selected, "FROM", FromText(b)], " ") ==
            "SELECT " + selected + " FROM " + b.table + (if b.joins == [] then "" else " " + Join(b.joins, " "))
  {
    JoinFour("SELECT", selected, "FROM", FromText(b), " ");
    HeadClause(selected, b.table, if b.joins == [] then "" else " " + Join(b.joins, " "));
    FromIs(b);
  }

  lemma FromIs(b: Builder)
    ensures FromText(b) == b.table + (if b.joins == [] then "" else " " + Join(b.joins, " "))
  {
    if b.joins == [] {
      assert b.table + "" == b.table;
    } else {
      assert b.table + " " + Join(b.joins, " ") == b.table + (" " + Join(b.joins, " "));
    }
  }

  lemma {:induction false} OneMore(before: seq<Cond<Value>>, c: Cond<Value>, args: seq<Value>, wheres: seq<string>)
    requires args == AllValues(before) + Values(c)
    requires wheres == Texts(NumberAll(before)) + [Text(Number(c, 1 + |AllValues(before)|))]
    ensures wheres == Texts(NumberAll(before + [c])) && args == AllValues(before + [c])
  {
    LastOf(before, c);
    NumberedLast(before, c);
  }

  lemma {:induction false} NumberedLast<V>(cs: seq<Cond<V>>, c: Cond<V>)
    ensures Texts(NumberAll(cs + [c])) == Texts(NumberAll(cs)) + [Text(Number(c, 1 + |AllValues(cs)|))]
  {
    NumberAllLast(cs, c);
    TextsLast(NumberAll(cs), Number(c, 1 + |AllValues(cs)|));
  }

  lemma {:induction false} NumberAllLast<V>(cs: seq<Cond<V>>, c: Cond<V>)
    ensures NumberAll(cs + [c]) == NumberAll(cs) + [Number(c, 1 + |AllValues(cs)|)]
  {
    assert (cs + [c])[..|cs|] == cs;
  }

  lemma {:induction false} TextsLast(ns: seq<Cond<nat>>, n: Cond<nat>)
    ensures Texts(ns + [n]) == Texts(ns) + [Text(n)]
  {
    assert (ns + [n])[..|ns|] == ns;
  }

  lemma {:induction false} HolesMore(from: nat, n: nat)
    ensures Holes(Count(from, n + 1)) == Holes(Count(from, n)) + [Hole(from + n)]
    decreases n
  {
    if n == 0 {
      assert Count(from, 1) == [from];
      assert Holes([from]) == [Hole(from)];
    } else {
      HolesMore(from + 1, n - 1);
      assert Count(from, n + 1)[1..] == Count(from + 1, n);
      assert Count(from, n)[1..] == Count(from + 1, n - 1);
    }
  }

  lemma Clause(head: string, keyword: string, rest: string)
    ensures head + " " + (keyword + " " + rest) == head + (" " + keyword + " " + rest)
    ensures keyword == "WHERE" ==> " " + keyword + " " == " WHERE "
    ensures keyword == "ORDER BY" ==> " " + keyword + " " == " ORDER BY "
  {
  }

  lemma HeadClause(selected: string, table: string, rest: string)
    ensures "SELECT" + " " + (selected + " " + ("FROM" + " " + (table + rest))) ==
            "SELECT " + selected + " FROM " + table + rest
  {
    assert "SELECT" + " " == "SELECT " && " " + ("FROM" + " ") == " FROM ";
  }

  lemma LimitClause(head: string, limit: string, offset: string)
    ensures head + " " + ("LIMIT" + " " + (limit + " " + ("OFFSET" + " " + offset))) ==
            head + (" LIMIT " + limit + " OFFSET " + offset)
  {
    var clause := "LIMIT" + " " + (limit + " " + ("OFFSET" + " " + offset));
    assert " " + clause == " LIMIT " + limit + " OFFSET " + offset;
    assert head + " " + clause == head + (" " + clause);
  }

  lemma WithWhere(head: seq<string>, b: Builder, wheres: seq<string>)
    requires head != [] && wheres == Texts(NumberAll(b.asked))
    ensures Join(head + WhereSegments(b), " ") ==
            Join(head, " ") + (if wheres == [] then "" else " WHERE " + Join(wheres, " AND "))
  {
    NumberAllLength(b.asked);
    TextsOf(NumberAll(b.asked));
    if |wheres| > 0 {
      JoinMore(head, WhereSegments(b), " ");
      JoinTwo("WHERE", Join(wheres, " AND "), " ");
      Clause(Join(head, " "), "WHERE", Join(wheres, " AND "));
    } else {
      assert head + [] == head && Join(head, " ") + "" == Join(head, " ");
    }
  }

  lemma {:induction false} NumberAllLength<V>(cs: seq<Cond<V>>)
    ensures |NumberAll(cs)| == |cs|
  {
    if cs != [] { NumberAllLength(cs[..|cs| - 1]); }
  }

  lemma WithOrder(head: seq<string>, b: Builder)
    requires head != []
    ensures Join(head + OrderSegments(b), " ") ==
            Join(head, " ") + (if b.orderBy == "" then "" else " ORDER BY " + b.orderBy)
  {
    if b.orderBy != "" {
      JoinMore(head, OrderSegments(b), " ");
      JoinThree("ORDER", "BY", b.orderBy, " ");
      assert "ORDER" + " " + ("BY" + " " + b.orderBy) == "ORDER BY" + " " + b.orderBy;
      Clause(Join(head, " "), "ORDER BY", b.orderBy);
    } else {
      assert head + [] == head && Join(head, " ") + "" == Join(head, " ");
    }
  }

  lemma WithPage(head: seq<string>, b: Builder)
    requires head != []
    ensures Join(head + PageSegments(b), " ") ==
            Join(head, " ")
            + (if b.limit <= 0 then "" else " LIMIT " + FormatInt(b.limit) + " OFFSET " + FormatInt(b.offset))
  {
    if b.limit > 0 {
      JoinMore(head, PageSegments(b), " ");
      JoinFour("LIMIT", FormatInt(b.limit), "OFFSET", FormatInt(b.offset), " ");
      LimitClause(Join(head, " "), FormatInt(b.limit), FormatInt(b.offset));
    } else {
      assert head + [] == head && Join(head, " ") + "" == Join(head, " ");
    }
  }
}
