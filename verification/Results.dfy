/**
 What a client of the list endpoints is sent: the selected columns of one page, no longer than the limit
 asked for. And a concrete ORDER BY, so that what is asked of the database's is not too much.
 */
module Results {
  import opened Options
  import opened Decimal
  import opened SqlWords
  import opened Conditions
  import opened QueryBuilding
  import opened Statements
  import opened Paging
  import opened Search
  import opened Listing
  import opened Endpoints
  import opened Answers

  // ------------------------------------------------------------ a concrete ORDER BY

  /** NULL comes last; the types are kept apart. */
  function Tag(v: Option<Value>): nat {
    match v
    case None => 3
    case Some(Instant(_)) => 0
    case Some(Uuid(_)) => 1
    case Some(_) => 2
  }

  predicate AtMost(a: Option<Value>, b: Option<Value>) {
    || Tag(a) < Tag(b)
    || (Tag(a) == Tag(b)
        && (Tag(a) == 0 ==> a.value.t <= b.value.t) && (Tag(a) == 1 ==> TextUpTo(a.value.u, b.value.u)))
  }

  lemma {:induction false} TextTotal(a: string, b: string)
    ensures TextUpTo(a, b) || TextUpTo(b, a)
  {
    if a != "" && b != "" && a[0] == b[0] { TextTotal(a[1..], b[1..]); }
  }

  lemma {:induction false} TextTransitive(a: string, b: string, c: string)
    requires TextUpTo(a, b) && TextUpTo(b, c)
    ensures TextUpTo(a, c)
  {
    if a != "" && a[0] == b[0] == c[0] { TextTransitive(a[1..], b[1..], c[1..]); }
  }

  lemma AtMostTotal(a: Option<Value>, b: Option<Value>)
    ensures AtMost(a, b) || AtMost(b, a)
  {
    if Tag(a) == Tag(b) == 1 { TextTotal(a.value.u, b.value.u); }
  }

  lemma AtMostTransitive(a: Option<Value>, b: Option<Value>, c: Option<Value>)
    requires AtMost(a, b) && AtMost(b, c)
    ensures AtMost(a, c)
  {
    if Tag(a) == Tag(b) == Tag(c) == 1 { TextTransitive(a.value.u, b.value.u, c.value.u); }
  }

  /** Row r goes before row q. */
  ghost predicate Goes<R>(column: (R, string) -> Option<Value>, order: seq<string>, r: R, q: R) {
    |order| == 2 ==> if order[1] == "DESC" then AtMost(column(q, order[0]), column(r, order[0]))
                     else AtMost(column(r, order[0]), column(q, order[0]))
  }

  ghost predicate InOrder<R(!new)>(column: (R, string) -> Option<Value>, order: seq<string>, rows: seq<R>) {
    forall i, j :: 0 <= i < j < |rows| ==> Goes(column, order, rows[i], rows[j])
  }

  ghost function Insert<R>(column: (R, string) -> Option<Value>, order: seq<string>, r: R, rows: seq<R>): seq<R> {
    if rows == [] then [r]
    else if Goes(column, order, r, rows[0]) then [r] + rows
    else [rows[0]] + Insert(column, order, r, rows[1..])
  }

  ghost function OrderBy<R>(column: (R, string) -> Option<Value>, order: seq<string>, rows: seq<R>): seq<R> {
    if rows == [] then [] else Insert(column, order, rows[0], OrderBy(column, order, rows[1..]))
  }

  lemma GoesTotal<R>(column: (R, string) -> Option<Value>, order: seq<string>, r: R, q: R)
    ensures Goes(column, order, r, q) || Goes(column, order, q, r)
  {
    if |order| == 2 { AtMostTotal(column(r, order[0]), column(q, order[0])); }
  }

  lemma GoesTransitive<R>(column: (R, string) -> Option<Value>, order: seq<string>, a: R, b: R, c: R)
    requires Goes(column, order, a, b) && Goes(column, order, b, c)
    ensures Goes(column, order, a, c)
  {
    if |order| == 2 {
      var x, y, z := column(a, order[0]), column(b, order[0]), column(c, order[0]);
      if order[1] == "DESC" { AtMostTransitive(z, y, x); } else { AtMostTransitive(x, y, z); }
    }
  }

  lemma {:induction false} InsertKeeps<R>(column: (R, string) -> Option<Value>, order: seq<string>, r: R, rows: seq<R>)
    ensures multiset(Insert(column, order, r, rows)) == multiset(rows) + multiset{r}
  {
    if rows != [] {
      assert rows == [rows[0]] + rows[1..];
      if !Goes(column, order, r, rows[0]) { InsertKeeps(column, order, r, rows[1..]); }
    }
  }

  /** What goes before every row and before r goes before every row of the insertion. */
  lemma FirstOf<R(!new)>(column: (R, string) -> Option<Value>, order: seq<string>, a: R, rows: seq<R>, all: seq<R>)
    requires InOrder(column, order, all) && forall q :: q in all ==> Goes(column, order, a, q)
    ensures InOrder(column, order, [a] + all)
  {
  }

  lemma {:induction false} InsertSorts<R(!new)>(
    column: (R, string) -> Option<Value>, order: seq<string>, r: R, rows: seq<R>)
    requires InOrder(column, order, rows)
    ensures InOrder(column, order, Insert(column, order, r, rows))
  {
    if rows != [] {
      var h, t := rows[0], rows[1..];
      assert forall i :: 0 <= i < |t| ==> t[i] == rows[i + 1] && Goes(column, order, rows[0], rows[i + 1]);
      if Goes(column, order, r, h) {
        forall q | q in rows ensures Goes(column, order, r, q) {
          if q != h { GoesTransitive(column, order, r, h, q); }
        }
        FirstOf(column, order, r, t, rows);
      } else {
        GoesTotal(column, order, r, h);
        InsertSorts(column, order, r, t);
        InsertKeeps(column, order, r, t);
        var all := Insert(column, order, r, t);
        forall q | q in all ensures Goes(column, order, h, q) {
          assert q in multiset(all);
          assert q == r || q in multiset(t);
        }
        FirstOf(column, order, h, t, all);
      }
    }
  }

  lemma {:induction false} OrderBySorted<R(!new)>(
    column: (R, string) -> Option<Value>, order: seq<string>, rows: seq<R>)
    ensures multiset(OrderBy(column, order, rows)) == multiset(rows)
    ensures InOrder(column, order, OrderBy(column, order, rows))
  {
    if rows != [] {
      OrderBySorted(column, order, rows[1..]);
      var rest := OrderBy(column, order, rows[1..]);
      assert rows == [rows[0]] + rows[1..];
      InsertKeeps(column, order, rows[0], rest);
      InsertSorts(column, order, rows[0], rest);
    }
  }

  /** Sorting by insertion is an ORDER BY as the listings need it. */
  lemma OrderBySorts<R(!new)>(column: (R, string) -> Option<Value>)
    ensures Sorts((order, rows) => OrderBy(column, order, rows), column)
  {
    forall order, rows
      ensures && multiset(OrderBy(column, order, rows)) == multiset(rows)
              && (|order| == 2 && order[1] == "ASC" ==> Ascending(column, order[0], OrderBy(column, order, rows)))
              && (|order| == 2 && order[1] == "DESC" ==> Descending(column, order[0], OrderBy(column, order, rows)))
    {
      OrderBySorted(column, order, rows);
    }
  }

  // ------------------------------------------------------------ a page of users

  const USER_HEADER := [
    "id", "name", "email", "email_verified_at", "phone", "gender", "role", "profile_picture", "created_at",
    "updated_at"]

  function UserCells(u: UserRow): seq<Option<Value>> {
    [Some(Uuid(u.id)), Some(Str(u.name)), Some(Str(u.email)), Moment(u.verifiedAt), Answers.Text(u.phone),
     Answers.Text(u.gender), Some(Str(u.role)), Answers.Text(u.picture), Some(Instant(u.createdAt)),
     Some(Instant(u.updatedAt))]
  }

  function UserTable(rows: seq<UserRow>): Table {
    Table(USER_HEADER, seq(|rows|, i requires 0 <= i < |rows| => UserCells(rows[i])))
  }

  lemma UserLabel(j: nat, column: string)
    requires j < |USER_COLUMNS| && column == USER_COLUMNS[j]
    ensures Label([column]) == USER_HEADER[j] && !EndsInComma(column)
  {
    assert forall i :: 0 <= i < |column| ==> column[i] != '.';
  }

  lemma UserCell(u: UserRow, j: nat, column: string)
    requires j < |USER_COLUMNS| && column == USER_COLUMNS[j]
    ensures UserColumnOf(u, column) == UserCells(u)[j]
  {
  }

  /** Each column as a list of one word. */
  function Singles(cols: seq<string>): seq<seq<string>> {
    seq(|cols|, j requires 0 <= j < |cols| => [cols[j]])
  }

  lemma UserItems()
    ensures Items(Words(Join(USER_COLUMNS, ", "))) == Singles(USER_COLUMNS)
  {
    forall j | 0 <= j < |USER_COLUMNS| ensures Words(USER_COLUMNS[j]) == [USER_COLUMNS[j]] {
      UserColumn(j);
      SolidWord(USER_COLUMNS[j]);
    }
    forall j | 0 <= j < |USER_COLUMNS| ensures !EndsInComma(USER_COLUMNS[j]) {
      UserLabel(j, USER_COLUMNS[j]);
    }
    ColumnItems(USER_COLUMNS);
  }

  lemma UserProjected(e: Engine<UserRow>, rows: seq<UserRow>)
    requires e.column == UserColumnOf
    ensures Project(e, Singles(USER_COLUMNS), rows) == UserTable(rows)
  {
    var t := Project(e, Singles(USER_COLUMNS), rows);
    forall j | 0 <= j < |USER_COLUMNS| ensures t.header[j] == USER_HEADER[j] {
      UserLabel(j, USER_COLUMNS[j]);
    }
    forall i | 0 <= i < |rows| ensures t.cells[i] == UserCells(rows[i]) {
      forall j | 0 <= j < |USER_COLUMNS| ensures t.cells[i][j] == UserCells(rows[i])[j] {
        UserCell(rows[i], j, USER_COLUMNS[j]);
      }
    }
  }

  /** A page holds no more rows than the client asked for, within 1..100, and never more than 100. */
  predicate WithinLimit(n: nat, limit: int) {
    n <= 100 && (1 <= limit <= 100 ==> n <= limit) && (limit < 1 ==> n <= 20)
  }

  lemma PageSent<R>(e: Engine<R>, b: Builder, items: seq<seq<string>>, limit: int)
    requires PlainText(b) && b.limit == ClampLimit(limit) && Items(Words(Join(b.columns, ", "))) == items
    requires forall j :: 0 <= j < |items| ==> items[j] != []
    ensures var q := RowQuery(b);
            var rows := ExecuteRows(e, q.text, q.args);
            && rows.Some? && WithinLimit(|rows.value|, limit)
            && ExecuteTable(e, q.text, q.args) == Some(Project(e, items, rows.value))
  {
    RowsAnswer(e, b);
    TableAnswer(e, b, items);
  }

  lemma PagePlain(base: Builder, page: int, limit: int)
    requires PlainText(base) && limit >= 1
    ensures var b := AskPage(base, page, limit); PlainText(b) && b.limit == limit && b.columns == base.columns
  {
    assert FromText(AskPage(base, page, limit)) == FromText(base);
  }

  lemma SourceColumns(base: Builder, source: Builder, filtered: Builder, s: Sort, allowed: map<string, string>)
    requires Extends(filtered, source) && source.orderBy == "" && PlainSorts(allowed)
    requires base == AskSort(filtered, s, allowed)
    ensures base.columns == source.columns
  {
  }

  lemma UsersAsked(s: UserQuery)
    ensures PlainText(AskUsers(UserSource(), s)) && AskUsers(UserSource(), s).limit == ClampLimit(s.limit)
  {
    UserBasePlain(s);
    PagePlain(UserBase(s), ClampPage(s.page), ClampLimit(s.limit));
  }

  lemma UserColumnsAsked(s: UserQuery, source: Builder)
    requires source == UserSource()
    ensures AskUsers(source, s).columns == source.columns
  {
    UserFilterKeeps(source, s);
    SourceColumns(UserBase(s), source, AskUserFilter(source, s), s.sort, USER_SORT);
  }

  /**
   What the user listing sends, for every table and search: one page of rows, within the limit asked for,
   and of each row exactly these ten columns.
   */
  lemma UserPageSent(e: Engine<UserRow>, s: UserQuery)
    requires e.column == UserColumnOf
    ensures var q := RowQuery(AskUsers(UserSource(), s));
            var rows := ExecuteRows(e, q.text, q.args);
            && rows.Some? && WithinLimit(|rows.value|, s.limit)
            && ExecuteTable(e, q.text, q.args) == Some(UserTable(rows.value))
  {
    UsersAsked(s);
    UserColumnsAsked(s, UserSource());
    UserItems();
    UserPageOf(e, AskUsers(UserSource(), s), Singles(USER_COLUMNS), s.limit);
  }

  lemma UserPageOf(e: Engine<UserRow>, b: Builder, items: seq<seq<string>>, limit: int)
    requires PlainText(b) && b.limit == ClampLimit(limit) && Items(Words(Join(b.columns, ", "))) == items
    requires e.column == UserColumnOf && items == Singles(USER_COLUMNS)
    ensures var rows := ExecuteRows(e, RowQuery(b).text, RowQuery(b).args);
            && rows.Some? && WithinLimit(|rows.value|, limit)
            && ExecuteTable(e, RowQuery(b).text, RowQuery(b).args) == Some(UserTable(rows.value))
  {
    PageSent(e, b, items, limit);
    UserProjected(e, ExecuteRows(e, RowQuery(b).text, RowQuery(b).args).value);
  }

  // ------------------------------------------------------------ a page of audit entries

  const AUDIT_HEADER := [
    "id", "action", "entity", "entity_id", "prev", "next", "meta", "created_at", "actor_id", "actor_name"]

  function AuditCells(r: AuditRow): seq<Option<Value>> {
    [Some(Integer(r.entry.id)), Some(Str(r.entry.action)), Some(Str(r.entry.entity)), Some(Str(r.entry.entityId)),
     Document(r.entry.prev), Document(r.entry.next), Document(r.entry.meta), Some(Instant(r.entry.createdAt)),
     if r.entry.actor.Some? then Some(Uuid(r.entry.actor.value)) else None,
     if r.user.Some? then Some(Str(r.user.value.name)) else None]
  }

  function AuditTable(rows: seq<AuditRow>): Table {
    Table(AUDIT_HEADER, seq(|rows|, i requires 0 <= i < |rows| => AuditCells(rows[i])))
  }

  const AUDIT_ITEMS := Singles(AUDIT_COLUMNS[..9]) + [["u.name", "AS", "actor_name"]]

  lemma AuditCell(r: AuditRow, j: nat, column: string)
    requires j < |AUDIT_ITEMS| && column == AUDIT_ITEMS[j][0]
    ensures AuditColumnOf(r, column) == AuditCells(r)[j]
  {
  }

  lemma Qualified(table: char, name: string)
    requires table != '.' && '.' !in name
    ensures Unqualified([table] + "." + name) == name
  {
    var c := [table] + "." + name;
    assert c[1] == '.' && c[1..] == "." + name && c[1..][1..] == name;
    assert AfterDot(c) == AfterDot(c[1..]);
  }

  lemma AuditName(j: nat, column: string, name: string)
    requires j < 9 && column == AUDIT_COLUMNS[j] && name == AUDIT_HEADER[j]
    ensures column == "e" + "." + name
  {
  }

  lemma PlainName(j: nat, name: string)
    requires j < 9 && name == AUDIT_HEADER[j]
    ensures '.' !in name && !EndsInComma(name) && name != ""
  {
  }

  lemma AuditLabel(j: nat, column: string)
    requires j < 9 && column == AUDIT_COLUMNS[j]
    ensures Label([column]) == AUDIT_HEADER[j] && !EndsInComma(column)
  {
    var name := AUDIT_HEADER[j];
    AuditName(j, column, name);
    PlainName(j, name);
    Qualified('e', name);
  }

  lemma AuditItem(j: nat)
    requires j < |AUDIT_COLUMNS|
    ensures Words(AUDIT_COLUMNS[j]) == AUDIT_ITEMS[j]
    ensures forall i :: 0 <= i < |AUDIT_ITEMS[j]| ==> !EndsInComma(AUDIT_ITEMS[j][i])
    ensures Label(AUDIT_ITEMS[j]) == AUDIT_HEADER[j]
  {
    if j < 9 {
      AuditColumn(j);
      SolidWord(AUDIT_COLUMNS[j]);
      AuditLabel(j, AUDIT_COLUMNS[j]);
    } else {
      ActorItem(AUDIT_COLUMNS[j], AUDIT_ITEMS[j]);
    }
  }

  lemma ActorItem(column: string, item: seq<string>)
    requires column == "u.name AS actor_name" && item == ["u.name", "AS", "actor_name"]
    ensures Words(column) == item && Label(item) == "actor_name"
    ensures forall i :: 0 <= i < |item| ==> !EndsInComma(item[i])
  {
    ActorWords(column);
  }

  lemma AuditItemsNonempty()
    ensures forall j :: 0 <= j < |AUDIT_ITEMS| ==> AUDIT_ITEMS[j] != []
  {
  }

  lemma AuditItems()
    ensures Items(Words(Join(AUDIT_COLUMNS, ", "))) == AUDIT_ITEMS
  {
    forall j | 0 <= j < |AUDIT_COLUMNS|
      ensures Words(AUDIT_COLUMNS[j]) == AUDIT_ITEMS[j]
      ensures forall i :: 0 <= i < |AUDIT_ITEMS[j]| ==> !EndsInComma(AUDIT_ITEMS[j][i])
    {
      AuditItem(j);
    }
    ColumnItems(AUDIT_COLUMNS);
  }

  lemma AuditProjected(e: Engine<AuditRow>, rows: seq<AuditRow>)
    requires e.column == AuditColumnOf
    ensures Project(e, AUDIT_ITEMS, rows) == AuditTable(rows)
  {
    var t := Project(e, AUDIT_ITEMS, rows);
    forall j | 0 <= j < |AUDIT_ITEMS| ensures t.header[j] == AUDIT_HEADER[j] {
      AuditItem(j);
    }
    forall i | 0 <= i < |rows| ensures t.cells[i] == AuditCells(rows[i]) {
      forall j | 0 <= j < |AUDIT_ITEMS| ensures t.cells[i][j] == AuditCells(rows[i])[j] {
        AuditCell(rows[i], j, AUDIT_ITEMS[j][0]);
      }
    }
  }

  lemma EntriesAsked(s: AuditQuery, parseUuid: string -> Option<string>)
    ensures var b := AskAudit(AuditSource(), s, parseUuid); PlainText(b) && b.limit == ClampLimit(s.limit)
  {
    AuditBasePlain(s, parseUuid);
    PagePlain(AuditBase(s, parseUuid), ClampPage(s.page), ClampLimit(s.limit));
  }

  lemma EntryColumnsAsked(s: AuditQuery, parseUuid: string -> Option<string>, source: Builder)
    requires source == AuditSource()
    ensures AskAudit(source, s, parseUuid).columns == source.columns
  {
    AuditFilterKeeps(source, s, parseUuid);
    SourceColumns(AuditBase(s, parseUuid), source, AskAuditFilter(source, s, parseUuid), s.sort, AUDIT_SORT);
  }

  /** What the audit listing sends: one page of entries, within the limit asked for, each with its nine
      columns and the name of the user that made it, if that user exists. */
  lemma AuditPageSent(e: Engine<AuditRow>, s: AuditQuery, parseUuid: string -> Option<string>)
    requires e.column == AuditColumnOf
    ensures var q := RowQuery(AskAudit(AuditSource(), s, parseUuid));
            var rows := ExecuteRows(e, q.text, q.args);
            && rows.Some? && WithinLimit(|rows.value|, s.limit)
            && ExecuteTable(e, q.text, q.args) == Some(AuditTable(rows.value))
  {
    EntriesAsked(s, parseUuid);
    EntryColumnsAsked(s, parseUuid, AuditSource());
    AuditItems();
    AuditPageOf(e, AskAudit(AuditSource(), s, parseUuid), AUDIT_ITEMS, s.limit);
  }

  lemma AuditPageOf(e: Engine<AuditRow>, b: Builder, items: seq<seq<string>>, limit: int)
    requires PlainText(b) && b.limit == ClampLimit(limit) && Items(Words(Join(b.columns, ", "))) == items
    requires e.column == AuditColumnOf && items == AUDIT_ITEMS
    ensures var rows := ExecuteRows(e, RowQuery(b).text, RowQuery(b).args);
            && rows.Some? && WithinLimit(|rows.value|, limit)
            && ExecuteTable(e, RowQuery(b).text, RowQuery(b).args) == Some(AuditTable(rows.value))
  {
    AuditItemsNonempty();
    PageSent(e, b, items, limit);
    AuditProjected(e, ExecuteRows(e, RowQuery(b).text, RowQuery(b).args).value);
  }
}
