/**
 The two list endpoints: the statements the repositories build for any search at all read back as
 the conditions the search asks for, and no text a client sends becomes part of a statement.
 */
module Endpoints {
  import opened Options
  import Casing
  import LikePatterns
  import opened SqlWords
  import opened Conditions
  import opened QueryBuilding
  import opened Statements
  import opened Paging
  import opened DateBounds
  import opened Search
  import opened Listing

  const USER_COLUMNS := [
    "id", "name", "email", "email_verified_at", "phone", "gender", "role", "profile_picture", "created_at",
    "updated_at"]

  const AUDIT_COLUMNS := [
    "e.id", "e.action", "e.entity", "e.entity_id", "e.prev", "e.next", "e.meta", "e.created_at", "e.actor_id",
    "u.name AS actor_name"]

  /** The builders both repositories start from. */
  function UserSource(): Builder {
    Builder("users", USER_COLUMNS, [], [IsNull("deleted_at")], "", 0, 0)
  }

  function AuditSource(): Builder {
    Builder("audit_logs AS e", AUDIT_COLUMNS, ["LEFT JOIN " + "users AS u" + " ON " + "e.actor_id=u.id"], [], "", 0, 0)
  }

  method Queries(qb: QueryBuilder) returns (rows: Query, count: Query)
    requires qb.Valid()
    ensures rows == RowQuery(qb.View()) && count == CountQuery(qb.View())
  {
    var text, args := qb.SQL();
    rows := Query(text, args);
    text, args := qb.CountSQL();
    count := Query(text, args);
  }

  method SelectUsers() returns (qb: QueryBuilder)
    ensures fresh(qb) && qb.Valid() && qb.View() == UserSource()
  {
    qb := new QueryBuilder.Select("users", USER_COLUMNS);
    qb.WhereNull("deleted_at");
    assert [] + [Cond<Value>.IsNull("deleted_at")] == [Cond<Value>.IsNull("deleted_at")];
  }

  method SelectAudit() returns (qb: QueryBuilder)
    ensures fresh(qb) && qb.Valid() && qb.View() == AuditSource()
  {
    qb := new QueryBuilder.Select("audit_logs AS e", AUDIT_COLUMNS);
    qb.LeftJoin("users AS u", "e.actor_id=u.id");
  }

  method ListUsers(search: UserSearch) returns (rows: Query, count: Query)
    modifies search, search.sorting, search.pagination
    ensures search.View() == UserApplied(old(search.View()))
    ensures var b := AskUsers(UserSource(), old(search.View())); rows == RowQuery(b) && count == CountQuery(b)
  {
    var qb := SelectUsers();
    search.ApplyQuery(qb);
    rows, count := Queries(qb);
  }

  method ListAudit(search: AuditSearch, parseUuid: string -> Option<string>) returns (rows: Query, count: Query)
    modifies search, search.range, search.sorting, search.pagination
    ensures search.View() == AuditApplied(old(search.View()))
    ensures var b := AskAudit(AuditSource(), old(search.View()), parseUuid); rows == RowQuery(b) &&
                                                                             count == CountQuery(b)
  {
    var qb := SelectAudit();
    search.ApplyQuery(qb, parseUuid);
    rows, count := Queries(qb);
  }

  // ------------------------------------------------------------ the fixed texts

  lemma {:induction false} WordsOfComma(a: string)
    ensures Words(a + ",") == LastWith(Words(a), ",")
  {
    if a == "" {
      assert a + "," == ",";
      SolidWord(",");
    } else {
      assert (a + ",")[1..] == a[1..] + ",";
      WordsOfComma(a[1..]);
      CommaAfter(a[0], Words(a[1..]));
    }
  }

  function LastWith(ws: seq<string>, c: string): seq<string>
    requires ws != []
  {
    ws[..|ws| - 1] + [ws[|ws| - 1] + c]
  }

  /** Putting a character before the first word and one after the last do not interfere. */
  lemma CommaAfter(h: char, ws: seq<string>)
    requires ws != []
    ensures LastWith([""] + ws, ",") == [""] + LastWith(ws, ",")
    ensures var w := LastWith(ws, ","); [[h] + w[0]] + w[1..] == LastWith([[h] + ws[0]] + ws[1..], ",")
  {
    if |ws| == 1 { assert [h] + (ws[0] + ",") == [h] + ws[0] + ","; }
  }

  ghost predicate NoCommas(stop: set<string>) {
    forall w :: w in stop && w != "" ==> w[|w| - 1] != ','
  }

  lemma CommaKeeps(a: string, stop: set<string>)
    requires NoneOf(Words(a), stop) && NoCommas(stop)
    ensures NoneOf(Words(a + ","), stop)
  {
    WordsOfComma(a);
  }

  /** A list of columns has no stop word if no column has. */
  lemma {:induction false} ColumnsPlain(cols: seq<string>, stop: set<string>)
    requires cols != [] && NoCommas(stop) && forall i :: 0 <= i < |cols| ==> NoneOf(Words(cols[i]), stop)
    ensures NoneOf(Words(Join(cols, ", ")), stop)
  {
    if |cols| > 1 {
      ColumnsPlain(cols[1..], stop);
      CommaKeeps(cols[0], stop);
      var rest := Join(cols[1..], ", ");
      assert cols[0] + ", " + rest == (cols[0] + ",") + " " + rest;
      WordsOfPair(cols[0] + ",", rest);
    }
  }

  /** The items of a list of columns are the columns, word by word. */
  lemma {:induction false} ColumnItems(cols: seq<string>)
    requires cols != []
    requires forall i :: 0 <= i < |cols| ==> forall j :: 0 <= j < |Words(cols[i])| ==> !EndsInComma(Words(cols[i])[j])
    ensures Items(Words(Join(cols, ", "))) == seq(|cols|, i requires 0 <= i < |cols| => Words(cols[i]))
  {
    var ws := Words(cols[0]);
    if |cols| > 1 {
      ColumnItems(cols[1..]);
      var rest := Join(cols[1..], ", ");
      assert cols[0] + ", " + rest == (cols[0] + ",") + " " + rest;
      WordsOfPair(cols[0] + ",", rest);
      WordsOfComma(cols[0]);
      ItemFirst(ws, Words(rest));
    } else {
      ItemLast(ws);
    }
  }

  lemma SolidPlain(w: string, stop: set<string>)
    requires Solid(w) && w !in stop
    ensures NoneOf(Words(w), stop)
  {
    SolidWord(w);
  }

  lemma UserColumn(i: nat)
    requires i < |USER_COLUMNS|
    ensures Solid(USER_COLUMNS[i]) && USER_COLUMNS[i] !in KEYWORDS
  {
  }

  lemma UserColumnsPlain()
    ensures NoneOf(Words(Join(USER_COLUMNS, ", ")), KEYWORDS)
  {
    forall i | 0 <= i < |USER_COLUMNS| ensures NoneOf(Words(USER_COLUMNS[i]), KEYWORDS) {
      UserColumn(i);
      SolidPlain(USER_COLUMNS[i], KEYWORDS);
    }
    ColumnsPlain(USER_COLUMNS, KEYWORDS);
  }

  lemma PairPlain(a: string, b: string, stop: set<string>)
    requires NoneOf(Words(a), stop) && NoneOf(Words(b), stop)
    ensures NoneOf(Words(a + " " + b), stop)
  {
    WordsOfPair(a, b);
  }

  lemma AuditColumn(i: nat)
    requires i < |AUDIT_COLUMNS| - 1
    ensures Solid(AUDIT_COLUMNS[i]) && AUDIT_COLUMNS[i] !in KEYWORDS
  {
  }

  lemma ActorWords(column: string)
    requires column == "u.name AS actor_name"
    ensures Words(column) == ["u.name", "AS", "actor_name"]
  {
    TripleWords("u.name", "AS", "actor_name");
    assert column == "u.name" + " " + "AS" + " " + "actor_name";
  }

  lemma AuditColumnPlain(i: nat, column: string)
    requires i < |AUDIT_COLUMNS| && column == AUDIT_COLUMNS[i]
    ensures NoneOf(Words(column), KEYWORDS)
  {
    if i < |AUDIT_COLUMNS| - 1 {
      AuditColumn(i);
      SolidPlain(column, KEYWORDS);
    } else {
      ActorPlain(column);
    }
  }

  lemma ActorPlain(column: string)
    requires column == "u.name AS actor_name"
    ensures NoneOf(Words(column), KEYWORDS)
  {
    ActorWords(column);
    var ws := ["u.name", "AS", "actor_name"];
    assert ws[0] !in KEYWORDS && ws[1] !in KEYWORDS && ws[2] !in KEYWORDS;
  }

  lemma AuditColumnsPlain()
    ensures NoneOf(Words(Join(AUDIT_COLUMNS, ", ")), KEYWORDS)
  {
    forall i | 0 <= i < |AUDIT_COLUMNS| ensures NoneOf(Words(AUDIT_COLUMNS[i]), KEYWORDS) {
      AuditColumnPlain(i, AUDIT_COLUMNS[i]);
    }
    ColumnsPlain(AUDIT_COLUMNS, KEYWORDS);
  }

  lemma JoinText(text: string, other: string)
    requires text == "LEFT JOIN " + other + " ON " + "e.actor_id=u.id"
    ensures text == ("LEFT" + " " + "JOIN") + " " + other + " " + ("ON" + " " + "e.actor_id=u.id")
  {
  }

  lemma TripleWords(a: string, b: string, c: string)
    requires Solid(a) && Solid(b) && Solid(c)
    ensures Words(a + " " + b + " " + c) == [a, b, c]
  {
    SolidWord(a);
    SolidWord(b);
    SolidWord(c);
    WordsOfTriple(a, b, c);
  }

  lemma JoinWords(left: string, join: string, other: string, on: string, cond: string)
    requires Solid(left) && Solid(join) && Solid(on) && Solid(cond)
    ensures Words((left + " " + join) + " " + other + " " + (on + " " + cond)) ==
            [left, join] + Words(other) + [on, cond]
  {
    SolidWord(left);
    SolidWord(join);
    SolidWord(on);
    SolidWord(cond);
    WordsOfPair(left, join);
    WordsOfPair(on, cond);
    WordsOfTriple(left + " " + join, other, on + " " + cond);
  }

  /** FROM audit_logs AS e LEFT JOIN users AS u ON e.actor_id=u.id. */
  const AUDIT_FROM := ["audit_logs", "AS", "e"] + (["LEFT", "JOIN"] + ["users", "AS", "u"] + ["ON", "e.actor_id=u.id"])

  lemma AuditFromWords(b: Builder)
    requires b.table == "audit_logs AS e" && b.joins == ["LEFT JOIN " + "users AS u" + " ON " + "e.actor_id=u.id"]
    ensures Words(FromText(b)) == AUDIT_FROM
  {
    AuditTableWords(b.table);
    AuditJoinWords(b.joins[0], "users AS u");
    WordsOfPair(b.table, b.joins[0]);
  }

  lemma AuditTableWords(table: string)
    requires table == "audit_logs AS e"
    ensures Words(table) == ["audit_logs", "AS", "e"]
  {
    TripleWords("audit_logs", "AS", "e");
    assert table == "audit_logs" + " " + "AS" + " " + "e";
  }

  lemma AuditJoinWords(text: string, other: string)
    requires other == "users AS u" && text == "LEFT JOIN " + other + " ON " + "e.actor_id=u.id"
    ensures Words(text) == ["LEFT", "JOIN"] + ["users", "AS", "u"] + ["ON", "e.actor_id=u.id"]
  {
    TripleWords("users", "AS", "u");
    assert other == "users" + " " + "AS" + " " + "u";
    JoinText(text, other);
    JoinWords("LEFT", "JOIN", other, "ON", "e.actor_id=u.id");
  }

  // ------------------------------------------------------------ every search is plain

  predicate SameSource(a: Builder, b: Builder) {
    a.table == b.table && a.columns == b.columns && a.joins == b.joins && a.offset == b.offset
  }

  /** Only conditions were added, and they are plain. */
  predicate Extends(r: Builder, b: Builder) {
    SameSource(r, b) && r.orderBy == b.orderBy && AllPlain(r.asked)
  }

  lemma InKeeps(b: Builder, column: string, value: Any)
    requires AllPlain(b.asked) && Solid(column)
    ensures Extends(AskIn(b, column, value), b)
  {
  }

  lemma RangeKeeps(b: Builder, r: Range)
    requires AllPlain(b.asked)
    ensures Extends(AskRange(b, r), b)
  {
  }

  lemma ActorKeeps(b: Builder, actor: string, parseUuid: string -> Option<string>)
    requires AllPlain(b.asked)
    ensures Extends(AskActor(b, actor, parseUuid), b)
  {
  }

  lemma UserFilterKeeps(b: Builder, s: UserQuery)
    requires AllPlain(b.asked)
    ensures Extends(AskUserFilter(b, s), b)
  {
    InKeeps(b, "gender", Strings(Recognised(s.gender, ParseGender)));
    InKeeps(AskIn(b, "gender", Strings(Recognised(s.gender, ParseGender))), "role",
            Strings(Recognised(s.role, ParseRole)));
  }

  lemma AuditFilterKeeps(b: Builder, s: AuditQuery, parseUuid: string -> Option<string>)
    requires AllPlain(b.asked)
    ensures Extends(AskAuditFilter(b, s, parseUuid), b)
  {
    var x := AskIn(b, "e.entity", Strings(Recognised(s.entity, ParseEntity)));
    InKeeps(b, "e.entity", Strings(Recognised(s.entity, ParseEntity)));
    RangeKeeps(x, s.range);
    ActorKeeps(AskRange(x, s.range), Casing.TrimSpace(s.actor), parseUuid);
  }

  predicate PlainSorts(allowed: map<string, string>) {
    forall k :: k in allowed ==> Solid(allowed[k]) && allowed[k] != "" && allowed[k] != "LIMIT"
  }

  lemma SortKeeps(b: Builder, s: Sort, allowed: map<string, string>)
    requires PlainSorts(allowed) && b.orderBy == ""
    ensures var r := AskSort(b, s, allowed);
            SameSource(r, b) && r.asked == b.asked && NoneOf(OrderWords(r), {"LIMIT"})
  {
    if s.key in allowed {
      var col, dir := allowed[s.key], Direction(s.order);
      SolidPlain(col, {"LIMIT"});
      SolidPlain(dir, {"LIMIT"});
      PairPlain(col, dir, {"LIMIT"});
      assert col + (" " + dir) == col + " " + dir;
    }
  }

  /** The user listing up to pagination. */
  function UserBase(s: UserQuery): Builder {
    AskSort(AskUserFilter(UserSource(), s), s.sort, USER_SORT)
  }

  function AuditBase(s: AuditQuery, parseUuid: string -> Option<string>): Builder {
    AskSort(AskAuditFilter(AuditSource(), s, parseUuid), s.sort, AUDIT_SORT)
  }

  lemma UsersPlain(b: Builder)
    requires b.table == "users" && b.joins == []
    ensures NoneOf(Words(FromText(b)), KEYWORDS)
  {
    SolidPlain(b.table, KEYWORDS);
  }

  lemma AuditPlain(b: Builder)
    requires b.table == "audit_logs AS e" && b.joins == ["LEFT JOIN " + "users AS u" + " ON " + "e.actor_id=u.id"]
    ensures NoneOf(Words(FromText(b)), KEYWORDS)
  {
    AuditFromWords(b);
  }

  lemma UserBasePlain(s: UserQuery)
    ensures PlainText(UserBase(s)) && UserBase(s).offset == 0
  {
    var b := UserSource();
    UserFilterKeeps(b, s);
    SortKeeps(AskUserFilter(b, s), s.sort, USER_SORT);
    UserColumnsPlain();
    UsersPlain(UserBase(s));
  }

  lemma AuditBasePlain(s: AuditQuery, parseUuid: string -> Option<string>)
    ensures PlainText(AuditBase(s, parseUuid)) && AuditBase(s, parseUuid).offset == 0
  {
    var b := AuditSource();
    AuditFilterKeeps(b, s, parseUuid);
    SortKeeps(AskAuditFilter(b, s, parseUuid), s.sort, AUDIT_SORT);
    AuditColumnsPlain();
    AuditPlain(AuditBase(s, parseUuid));
  }

  // ------------------------------------------------------------ which rows match

  function Strs(vs: seq<string>): seq<Value> {
    seq(|vs|, i requires 0 <= i < |vs| => Str(vs[i]))
  }

  /** An empty list of values asks for nothing. */
  ghost predicate AmongOrAny<R>(e: Engine<R>, column: string, vs: seq<Value>, r: R) {
    vs == [] || e.holds(In(column, vs), r)
  }

  lemma {:induction false} SatisfiesMore<R>(e: Engine<R>, cs: seq<Cond<Value>>, ds: seq<Cond<Value>>, r: R)
    ensures Satisfies(e, cs + ds, r) <==> Satisfies(e, cs, r) && Satisfies(e, ds, r)
  {
    if Satisfies(e, cs + ds, r) {
      assert forall i :: 0 <= i < |cs| ==> cs[i] == (cs + ds)[i];
      assert forall i :: 0 <= i < |ds| ==> ds[i] == (cs + ds)[|cs| + i];
    }
  }

  lemma SatisfiesOne<R>(e: Engine<R>, c: Cond<Value>, r: R)
    ensures Satisfies(e, [c], r) <==> e.holds(c, r)
  {
    assert [c][0] == c;
  }

  lemma AskInMeans<R>(e: Engine<R>, b: Builder, column: string, vs: seq<string>, r: R)
    ensures Satisfies(e, AskIn(b, column, Strings(vs)).asked, r) <==>
            Satisfies(e, b.asked, r) && AmongOrAny(e, column, Strs(vs), r)
  {
    SatisfiesMore(e, b.asked, [In(column, Strs(vs))], r);
    SatisfiesOne(e, In(column, Strs(vs)), r);
    assert Strings(vs).vs == Strs(vs);
  }

  /** A user matches when not deleted, and of one of the recognised genders and roles, if any. */
  lemma UserMatchesExactly<R>(e: Engine<R>, s: UserQuery, r: R)
    ensures Satisfies(e, UserBase(s).asked, r) <==>
            && e.holds(IsNull("deleted_at"), r)
            && AmongOrAny(e, "gender", Strs(Recognised(s.gender, ParseGender)), r)
            && AmongOrAny(e, "role", Strs(Recognised(s.role, ParseRole)), r)
  {
    var b := UserSource();
    SatisfiesOne(e, IsNull("deleted_at"), r);
    AskInMeans(e, b, "gender", Recognised(s.gender, ParseGender), r);
    AskInMeans(e, AskIn(b, "gender", Strings(Recognised(s.gender, ParseGender))), "role",
               Recognised(s.role, ParseRole), r);
  }

  /** Inside the half-open interval, a missing bound leaving its side open. */
  ghost predicate WithinBounds<R>(e: Engine<R>, i: Interval, r: R) {
    i.ok ==> && (i.from == ZERO_TIME || e.holds(AtLeast("e.created_at", Instant(i.from)), r))
             && (i.to == ZERO_TIME || e.holds(Before("e.created_at", Instant(i.to)), r))
  }

  ghost predicate ByActor<R>(e: Engine<R>, actor: string, parseUuid: string -> Option<string>, r: R) {
    actor == "" || match parseUuid(actor)
                   case Some(id) => e.holds(In("e.actor_id", [Uuid(id)]), r)
                   case None => e.holds(ILike("u.name", Str("%" + LikePatterns.EscapeLike(actor) + "%")), r)
  }

  lemma AskRangeMeans<R>(e: Engine<R>, b: Builder, range: Range, r: R)
    ensures Satisfies(e, AskRange(b, range).asked, r) <==>
            Satisfies(e, b.asked, r) && WithinBounds(e, IntervalOf(range), r)
  {
    var i := IntervalOf(range);
    var lo, hi := AtLeast("e.created_at", Instant(i.from)), Before("e.created_at", Instant(i.to));
    var low := if i.from != ZERO_TIME then [lo] else [];
    var high := if i.to != ZERO_TIME then [hi] else [];
    SatisfiesMore(e, b.asked, low, r);
    SatisfiesMore(e, b.asked + low, high, r);
    SatisfiesOne(e, lo, r);
    SatisfiesOne(e, hi, r);
  }

  lemma AskActorMeans<R>(e: Engine<R>, b: Builder, actor: string, parseUuid: string -> Option<string>, r: R)
    ensures Satisfies(e, AskActor(b, actor, parseUuid).asked, r) <==>
            Satisfies(e, b.asked, r) && ByActor(e, actor, parseUuid, r)
  {
    if actor != "" {
      var c := match parseUuid(actor)
        case Some(id) => In("e.actor_id", [Uuid(id)])
        case None => ILike("u.name", Str("%" + LikePatterns.EscapeLike(actor) + "%"));
      SatisfiesMore(e, b.asked, [c], r);
      SatisfiesOne(e, c, r);
    }
  }

  /** An entry matches when it is of a recognised kind, if any, lies within the bounds, and was
      written by the actor. */
  lemma AuditMatchesExactly<R>(e: Engine<R>, s: AuditQuery, parseUuid: string -> Option<string>, r: R)
    ensures Satisfies(e, AuditBase(s, parseUuid).asked, r) <==>
            && AmongOrAny(e, "e.entity", Strs(Recognised(s.entity, ParseEntity)), r)
            && WithinBounds(e, IntervalOf(s.range), r)
            && ByActor(e, Casing.TrimSpace(s.actor), parseUuid, r)
  {
    var b := AuditSource();
    var x := AskIn(b, "e.entity", Strings(Recognised(s.entity, ParseEntity)));
    AskInMeans(e, b, "e.entity", Recognised(s.entity, ParseEntity), r);
    AskRangeMeans(e, x, s.range, r);
    AskActorMeans(e, AskRange(x, s.range), Casing.TrimSpace(s.actor), parseUuid, r);
  }

  // ------------------------------------------------------------ main results

  /** For every search and every database: fetching the pages of the user listing one by one, as many
      as its count says, returns exactly the rows asked for, in the requested order. */
  lemma UserListingComplete<R(!new)>(e: Engine<R>, s: UserQuery)
    requires Arranges(e) && |Asked(e, UserBase(s))| <= MAX_INT32
    ensures Complete(
              e, (p: nat) => RowQuery(AskUsers(UserSource(), s.(page := p))), CountQuery(AskUsers(UserSource(), s)),
              ClampLimit(s.limit), OrderWords(UserBase(s)), Asked(e, UserBase(s)))
  {
    var b := UserBase(s);
    UserBasePlain(s);
    var page := (p: nat) => RowQuery(AskUsers(UserSource(), s.(page := p)));
    assert PagesOf(page, b, ClampLimit(s.limit));
    PagesAnswer(e, page, b, ClampLimit(s.limit));
    assert CountQuery(AskUsers(UserSource(), s)) == CountQuery(b);
  }

  lemma AuditListingComplete<R(!new)>(e: Engine<R>, s: AuditQuery, parseUuid: string -> Option<string>)
    requires Arranges(e) && |Asked(e, AuditBase(s, parseUuid))| <= MAX_INT32
    ensures Complete(
              e, (p: nat) => RowQuery(AskAudit(AuditSource(), s.(page := p), parseUuid)),
              CountQuery(AskAudit(AuditSource(), s, parseUuid)),
              ClampLimit(s.limit), OrderWords(AuditBase(s, parseUuid)), Asked(e, AuditBase(s, parseUuid)))
  {
    var b := AuditBase(s, parseUuid);
    AuditBasePlain(s, parseUuid);
    var page := (p: nat) => RowQuery(AskAudit(AuditSource(), s.(page := p), parseUuid));
    assert PagesOf(page, b, ClampLimit(s.limit));
    PagesAnswer(e, page, b, ClampLimit(s.limit));
    assert CountQuery(AskAudit(AuditSource(), s, parseUuid)) == CountQuery(b);
  }

  // ------------------------------------------------------------ the words of the clauses

  /** The ORDER BY clause names the allowed column and the canonical direction. */
  lemma SortWords(b: Builder, s: Sort, allowed: map<string, string>)
    requires PlainSorts(allowed) && b.orderBy == ""
    ensures OrderWords(AskSort(b, s, allowed)) == if s.key in allowed then [allowed[s.key], Direction(s.order)] else []
  {
    if s.key in allowed {
      var col, dir := allowed[s.key], Direction(s.order);
      SolidWord(col);
      SolidWord(dir);
      WordsOfPair(col, dir);
      assert col + (" " + dir) == col + " " + dir;
    }
  }

  lemma UserFromWords(b: Builder)
    requires b.table == "users" && b.joins == []
    ensures Words(FromText(b)) == ["users"]
  {
    SolidWord(b.table);
  }
}
