/**
 What the two list endpoints answer, on concrete tables: user rows, and audit entries left-joined
 with the users that made them. The pages hold exactly the rows a client would pick by hand.
 */
module Answers {
  import opened Options
  import opened Decimal
  import opened Conditions
  import opened QueryBuilding
  import opened Statements
  import opened Paging
  import opened DateBounds
  import opened Search
  import opened Listing
  import opened Endpoints
  import opened ClientValues
  import Casing
  import LikePatterns
  import SqlWords

  // ------------------------------------------------------------ tables

  datatype UserRow = UserRow(
    id: string, name: string, email: string, verifiedAt: Option<int>, phone: Option<string>, gender: Option<string>,
    role: string, picture: Option<string>, createdAt: int, updatedAt: int, deletedAt: Option<int>)

  datatype EntryRow = EntryRow(
    id: int, actor: Option<string>, action: string, entity: string, entityId: string, prev: Option<string>,
    next: Option<string>, meta: Option<string>, createdAt: int)

  type AuditRow = Joined<EntryRow, UserRow>

  /** The value of a column; none is NULL. */
  function UserColumnOf(u: UserRow, column: string): Option<Value> {
    if column == "id" then Some(Uuid(u.id))
    else if column == "name" then Some(Str(u.name))
    else if column == "email" then Some(Str(u.email))
    else if column == "email_verified_at" then Moment(u.verifiedAt)
    else if column == "phone" then Text(u.phone)
    else if column == "gender" then Text(u.gender)
    else if column == "role" then Some(Str(u.role))
    else if column == "profile_picture" then Text(u.picture)
    else if column == "created_at" then Some(Instant(u.createdAt))
    else if column == "updated_at" then Some(Instant(u.updatedAt))
    else if column == "deleted_at" then Moment(u.deletedAt)
    else None
  }

  function AuditColumnOf(r: AuditRow, column: string): Option<Value> {
    if column == "e.id" then Some(Integer(r.entry.id))
    else if column == "e.actor_id" then (if r.entry.actor.Some? then Some(Uuid(r.entry.actor.value)) else None)
    else if column == "e.action" then Some(Str(r.entry.action))
    else if column == "e.entity" then Some(Str(r.entry.entity))
    else if column == "e.entity_id" then Some(Str(r.entry.entityId))
    else if column == "e.prev" then Document(r.entry.prev)
    else if column == "e.next" then Document(r.entry.next)
    else if column == "e.meta" then Document(r.entry.meta)
    else if column == "e.created_at" then Some(Instant(r.entry.createdAt))
    else if column == "u.name" then (if r.user.Some? then Some(Str(r.user.value.name)) else None)
    else None
  }

  function Text(v: Option<string>): Option<Value> {
    if v.Some? then Some(Str(v.value)) else None
  }

  function Moment(v: Option<int>): Option<Value> {
    if v.Some? then Some(Instant(v.value)) else None
  }

  function Document(v: Option<string>): Option<Value> {
    if v.Some? then Some(Json(v.value)) else None
  }

  /** PostgreSQL's conditions on a column value: NULL satisfies IS NULL and nothing else. */
  ghost predicate Holds(fold: char -> char, c: Cond<Value>, v: Option<Value>) {
    match c
    case IsNull(_) => v.None?
    case IsNotNull(_) => v.Some?
    case In(_, vs) => v.Some? && v.value in vs
    case Like(_, p) => v.Some? && v.value.Str? && p.Str? && LikePatterns.Matches(p.s, v.value.s)
    case ILike(_, p) => v.Some? && v.value.Str? && p.Str? && LikePatterns.MatchesFolded(fold, p.s, v.value.s)
    case AtLeast(_, b) => v.Some? && v.value.Instant? && b.Instant? && v.value.t >= b.t
    case Before(_, b) => v.Some? && v.value.Instant? && b.Instant? && v.value.t < b.t
  }

  ghost function UserTables(
    users: seq<UserRow>, fold: char -> char, sort: (seq<string>, seq<UserRow>) -> seq<UserRow>): Engine<UserRow>
  {
    Engine(ws => if ws == ["users"] then users else [],
           (c: Cond<Value>, r) => Holds(fold, c, UserColumnOf(r, c.col)), sort, UserColumnOf)
  }

  predicate MadeBy(e: EntryRow, u: UserRow) {
    e.actor == Some(u.id)
  }

  ghost function AuditTables(
    entries: seq<EntryRow>, users: seq<UserRow>, fold: char -> char,
    sort: (seq<string>, seq<AuditRow>) -> seq<AuditRow>): Engine<AuditRow>
  {
    Engine(ws => if ws == ["audit_logs", "AS", "e", "LEFT", "JOIN", "users", "AS", "u", "ON", "e.actor_id=u.id"]
                 then LeftJoin(entries, users, MadeBy) else [],
           (c: Cond<Value>, r) => Holds(fold, c, AuditColumnOf(r, c.col)), sort, AuditColumnOf)
  }

  // ------------------------------------------------------------ ORDER BY

  /** Lexicographic order; on canonical ids it is the order of the ids' bytes. */
  predicate TextUpTo(a: string, b: string) {
    a == "" || (b != "" && (a[0] < b[0] || (a[0] == b[0] && TextUpTo(a[1..], b[1..]))))
  }

  /** Instants by time and ids by their bytes; other types are not sorted by. */
  predicate UpTo(a: Option<Value>, b: Option<Value>) {
    && (a.Some? && b.Some? && a.value.Instant? && b.value.Instant? ==> a.value.t <= b.value.t)
    && (a.Some? && b.Some? && a.value.Uuid? && b.value.Uuid? ==> TextUpTo(a.value.u, b.value.u))
  }

  ghost predicate Ascending<R(!new)>(column: (R, string) -> Option<Value>, c: string, rows: seq<R>) {
    forall i, j :: 0 <= i < j < |rows| ==> UpTo(column(rows[i], c), column(rows[j], c))
  }

  ghost predicate Descending<R(!new)>(column: (R, string) -> Option<Value>, c: string, rows: seq<R>) {
    forall i, j :: 0 <= i < j < |rows| ==> UpTo(column(rows[j], c), column(rows[i], c))
  }

  /** PostgreSQL's ORDER BY: it rearranges the rows, neither dropping nor repeating any, ascending or
      descending by the column named; rows that tie may come in any order. */
  ghost predicate Sorts<R(!new)>(sort: (seq<string>, seq<R>) -> seq<R>, column: (R, string) -> Option<Value>) {
    forall order, rows ::
      && multiset(sort(order, rows)) == multiset(rows)
      && (|order| == 2 && order[1] == "ASC" ==> Ascending(column, order[0], sort(order, rows)))
      && (|order| == 2 && order[1] == "DESC" ==> Descending(column, order[0], sort(order, rows)))
  }

  /** The rows that satisfy a predicate, in order. */
  ghost function Keep<R>(rows: seq<R>, want: R -> bool): seq<R> {
    if rows == [] then [] else (if want(rows[0]) then [rows[0]] else []) + Keep(rows[1..], want)
  }

  // ------------------------------------------------------------ users

  /** Not deleted, and of a gender and a role the client named, where any that exists was named. */
  ghost predicate UserWanted(s: UserQuery, u: UserRow) {
    && u.deletedAt.None?
    && (NothingChosen(s.gender, GENDERS) || (u.gender.Some? && Chosen(s.gender, GENDERS, u.gender.value)))
    && (NothingChosen(s.role, ROLES) || Chosen(s.role, ROLES, u.role))
  }

  lemma InStrs(v: string, vs: seq<string>)
    ensures Str(v) in Strs(vs) <==> v in vs
    ensures Strs(vs) == [] <==> vs == []
  {
    if v in vs {
      var i :| 0 <= i < |vs| && vs[i] == v;
      assert Strs(vs)[i] == Str(v);
    }
  }

  /** A nullable text column against a list of values, none of which asks for nothing. */
  lemma AmongMeans<R>(e: Engine<R>, fold: char -> char, column: string, v: Option<string>, vs: seq<string>, r: R)
    requires e.holds(In(column, Strs(vs)), r) == Holds(fold, In(column, Strs(vs)), Text(v))
    ensures AmongOrAny(e, column, Strs(vs), r) <==> vs == [] || (v.Some? && v.value in vs)
  {
    InStrs(if v.Some? then v.value else "", vs);
  }

  /** The engine judges user u by its columns. */
  ghost predicate JudgesUser(e: Engine<UserRow>, fold: char -> char, u: UserRow) {
    forall c: Cond<Value> :: e.holds(c, u) == Holds(fold, c, UserColumnOf(u, c.col))
  }

  lemma GenderIs(e: Engine<UserRow>, fold: char -> char, s: UserQuery, u: UserRow)
    requires JudgesUser(e, fold, u)
    ensures AmongOrAny(e, "gender", Strs(Recognised(s.gender, ParseGender)), u) <==>
            NothingChosen(s.gender, GENDERS) || (u.gender.Some? && Chosen(s.gender, GENDERS, u.gender.value))
  {
    GenderMeans();
    RecognisedMeans(s.gender, ParseGender, GENDERS);
    assert UserColumnOf(u, "gender") == Text(u.gender);
    AmongMeans(e, fold, "gender", u.gender, Recognised(s.gender, ParseGender), u);
  }

  lemma RoleIs(e: Engine<UserRow>, fold: char -> char, s: UserQuery, u: UserRow)
    requires JudgesUser(e, fold, u)
    ensures AmongOrAny(e, "role", Strs(Recognised(s.role, ParseRole)), u) <==>
            NothingChosen(s.role, ROLES) || Chosen(s.role, ROLES, u.role)
  {
    RoleMeans();
    RecognisedMeans(s.role, ParseRole, ROLES);
    assert UserColumnOf(u, "role") == Text(Some(u.role));
    AmongMeans(e, fold, "role", Some(u.role), Recognised(s.role, ParseRole), u);
  }

  lemma DeletedIs(e: Engine<UserRow>, fold: char -> char, u: UserRow)
    requires JudgesUser(e, fold, u)
    ensures e.holds(IsNull("deleted_at"), u) <==> u.deletedAt.None?
  {
    assert UserColumnOf(u, "deleted_at") == Moment(u.deletedAt);
  }

  lemma UserSatisfies(e: Engine<UserRow>, fold: char -> char, s: UserQuery, u: UserRow)
    requires JudgesUser(e, fold, u)
    ensures Satisfies(e, UserBase(s).asked, u) <==> UserWanted(s, u)
  {
    UserMatchesExactly(e, s, u);
    GenderIs(e, fold, s, u);
    RoleIs(e, fold, s, u);
    DeletedIs(e, fold, u);
  }

  /** The rows asked for are the users wanted. */
  lemma UserAsked(
    users: seq<UserRow>, fold: char -> char, sort: (seq<string>, seq<UserRow>) -> seq<UserRow>, s: UserQuery)
    ensures Asked(UserTables(users, fold, sort), UserBase(s)) == Keep(users, u => UserWanted(s, u))
  {
    var e := UserTables(users, fold, sort);
    UserSourceIs(s);
    forall u | u in users ensures Satisfies(e, UserBase(s).asked, u) <==> UserWanted(s, u) {
      UserSatisfies(e, fold, s, u);
    }
    FilterKeeps(e, UserBase(s).asked, users, u => UserWanted(s, u));
  }

  lemma {:induction false} FilterKeeps<R>(e: Engine<R>, cs: seq<Cond<Value>>, rows: seq<R>, want: R -> bool)
    requires forall r :: r in rows ==> (Satisfies(e, cs, r) <==> want(r))
    ensures Filter(e, cs, rows) == Keep(rows, want)
  {
    if rows != [] {
      assert rows[0] in rows && forall r :: r in rows[1..] ==> r in rows;
      FilterKeeps(e, cs, rows[1..], want);
    }
  }

  lemma UserSourceIs(s: UserQuery)
    ensures SqlWords.Words(FromText(UserBase(s))) == ["users"]
    ensures OrderWords(UserBase(s)) ==
            if s.sort.key in USER_SORT then [USER_SORT[s.sort.key], Direction(s.sort.order)] else []
  {
    UserFilterKeeps(UserSource(), s);
    SortKeeps(AskUserFilter(UserSource(), s), s.sort, USER_SORT);
    SortWords(AskUserFilter(UserSource(), s), s.sort, USER_SORT);
    UserFromWords(UserBase(s));
  }

  /** Ascending by the column the client asked for, or descending if the client spelled "desc". */
  ghost predicate UsersOrdered(sort: Sort, rows: seq<UserRow>) {
    forall i, j :: 0 <= i < j < |rows| ==>
                     if Spells(sort.order, "DESC") then UserUpTo(sort.key, rows[j], rows[i])
                     else UserUpTo(sort.key, rows[i], rows[j])
  }

  predicate UserUpTo(key: string, a: UserRow, b: UserRow) {
    && (key == "id" ==> TextUpTo(a.id, b.id))
    && (key == "created_at" ==> a.createdAt <= b.createdAt)
    && (key == "updated_at" ==> a.updatedAt <= b.updatedAt)
  }

  lemma UserColumnUpTo(key: string, a: UserRow, b: UserRow)
    requires key in USER_SORT && UpTo(UserColumnOf(a, USER_SORT[key]), UserColumnOf(b, USER_SORT[key]))
    ensures UserUpTo(key, a, b)
  {
  }

  lemma UsersSorted(sort: Sort, order: seq<string>, rows: seq<UserRow>)
    requires sort.key in USER_SORT && order == [USER_SORT[sort.key], Direction(sort.order)]
    requires order[1] == "ASC" ==> Ascending(UserColumnOf, order[0], rows)
    requires order[1] == "DESC" ==> Descending(UserColumnOf, order[0], rows)
    ensures UsersOrdered(sort, rows)
  {
    DirectionMeans(sort.order);
    forall i, j | 0 <= i < j < |rows|
      ensures if Spells(sort.order, "DESC") then UserUpTo(sort.key, rows[j], rows[i])
              else UserUpTo(sort.key, rows[i], rows[j])
    {
      if Spells(sort.order, "DESC") {
        UserColumnUpTo(sort.key, rows[j], rows[i]);
      } else {
        UserColumnUpTo(sort.key, rows[i], rows[j]);
      }
    }
  }

  /**
   The user listing, for every table and every search: the executed count is the number of users the
   search wants, and the executed pages together are those users, each once, non-increasing in the column
   asked for when the client spells "desc", in any casing, and non-decreasing otherwise.
   */
  lemma UserPagesAnswer(
    users: seq<UserRow>, fold: char -> char, sort: (seq<string>, seq<UserRow>) -> seq<UserRow>, s: UserQuery)
    requires Sorts(sort, UserColumnOf) && |Keep(users, u => UserWanted(s, u))| <= MAX_INT32
    ensures var wanted := Keep(users, u => UserWanted(s, u));
            var page := (p: nat) => RowQuery(AskUsers(UserSource(), s.(page := p)));
            var n := TotalPages(|wanted|, ClampLimit(s.limit));
            UsersOrdered(s.sort, Fetched(UserTables(users, fold, sort), page, n))
    ensures var order := if s.sort.key in USER_SORT then [USER_SORT[s.sort.key], Direction(s.sort.order)] else [];
            Complete(
              UserTables(users, fold, sort), (p: nat) => RowQuery(AskUsers(UserSource(), s.(page := p))),
              CountQuery(AskUsers(UserSource(), s)), ClampLimit(s.limit), order, Keep(users, u => UserWanted(s, u)))
  {
    var e := UserTables(users, fold, sort);
    UserSourceIs(s);
    UserAsked(users, fold, sort, s);
    assert Arranges(e);
    UserListingComplete(e, s);
    SortedAsAsked(sort, s.sort, Asked(e, UserBase(s)));
  }

  lemma SortedAsAsked(sort: (seq<string>, seq<UserRow>) -> seq<UserRow>, o: Sort, rows: seq<UserRow>)
    requires Sorts(sort, UserColumnOf)
    ensures UsersOrdered(o, sort(if o.key in USER_SORT then [USER_SORT[o.key], Direction(o.order)] else [], rows))
  {
    if o.key in USER_SORT {
      var order := [USER_SORT[o.key], Direction(o.order)];
      UsersSorted(o, order, sort(order, rows));
    } else {
      assert o.key != "id" && o.key != "created_at" && o.key != "updated_at";
    }
  }

  // ------------------------------------------------------------ audit entries

  /** Inside the half-open interval asked for; a missing bound leaves its side open. */
  predicate Inside(r: Range, t: int) {
    && (LowerAsked(r).Some? ==> LowerAsked(r).value <= t)
    && (UpperAsked(r).Some? ==> t < UpperAsked(r).value)
  }

  /** Inside the interval the code applies: a bound on the zero instant leaves its side open too. */
  predicate Within(r: Range, t: int) {
    && (LowerAsked(r).Some? && !DropsLower(r) ==> LowerAsked(r).value <= t)
    && (UpperAsked(r).Some? && !DropsUpper(r) ==> t < UpperAsked(r).value)
  }

  /** Exactly when the code applies the interval asked for: at every time the two agree, if and only if
      no bound in use falls on the zero instant. */
  lemma InsideExactly(r: Range)
    ensures (forall t :: Within(r, t) <==> Inside(r, t)) <==> !DropsLower(r) && !DropsUpper(r)
  {
    BoundsUsedExactly(r);
    if DropsLower(r) {
      var t := if UpperAsked(r).Some? then Min(UpperAsked(r).value, ZERO_TIME) - 1 else ZERO_TIME - 1;
      assert Within(r, t) && !Inside(r, t);
    } else if DropsUpper(r) {
      var t := if LowerAsked(r).Some? && LowerAsked(r).value > ZERO_TIME then LowerAsked(r).value else ZERO_TIME;
      assert Within(r, t) && !Inside(r, t);
    }
  }

  /** A term that is a full id is the actor's; any other occurs, up to case, in the actor's name. */
  ghost predicate ActedBy(users: seq<UserRow>, term: string, parseUuid: string -> Option<string>,
                          fold: char -> char, e: EntryRow)
  {
    term == "" || match parseUuid(term)
                  case Some(id) => e.actor == Some(id)
                  case None => exists u :: u in users && MadeBy(e, u) && NameHas(fold, term, u)
  }

  ghost predicate NameHas(fold: char -> char, term: string, u: UserRow) {
    LikePatterns.Occurs(LikePatterns.Folded(fold, term), LikePatterns.Folded(fold, u.name))
  }

  ghost predicate EntryWanted(users: seq<UserRow>, s: AuditQuery, parseUuid: string -> Option<string>,
                              fold: char -> char, e: EntryRow)
  {
    && (NothingChosen(s.entity, ENTITIES) || Chosen(s.entity, ENTITIES, e.entity))
    && Within(s.range, e.createdAt)
    && ActedBy(users, Casing.TrimSpace(s.actor), parseUuid, fold, e)
  }

  /** For a search whose bounds do not fall on the zero instant, an entry is wanted exactly when it is
      of a recognised entity, lies in the half-open interval asked for, and was made by the actor. */
  lemma PlainlyWanted(
    users: seq<UserRow>, s: AuditQuery, parseUuid: string -> Option<string>, fold: char -> char, e: EntryRow)
    requires !DropsLower(s.range) && !DropsUpper(s.range)
    ensures EntryWanted(users, s, parseUuid, fold, e) <==>
            && (NothingChosen(s.entity, ENTITIES) || Chosen(s.entity, ENTITIES, e.entity))
            && Inside(s.range, e.createdAt)
            && ActedBy(users, Casing.TrimSpace(s.actor), parseUuid, fold, e)
  {
    InsideExactly(s.range);
  }

  /** An end bound of 0000-12-31 asks for entries before year 1 and is answered with all of them. */
  lemma EndDateIgnored(b: Builder, to: string, t: int)
    requires to == "0000-12-31"
    ensures AskRange(b, Range("", "", to)) == b && Within(Range("", "", to), t)
    ensures Inside(Range("", "", to), t) <==> t < ZERO_TIME
  {
    EndDateDropped(to);
  }

  /** The primary key. */
  ghost predicate UniqueIds(users: seq<UserRow>) {
    forall i, j :: 0 <= i < j < |users| ==> users[i].id != users[j].id
  }

  lemma SameUser(users: seq<UserRow>, e: EntryRow, u: UserRow, v: UserRow)
    requires UniqueIds(users) && u in users && v in users && MadeBy(e, u) && MadeBy(e, v)
    ensures u == v
  {
  }

  /** The name condition on a joined row says that the entry's actor has the term in the name. */
  lemma NameMeans(users: seq<UserRow>, fold: char -> char, term: string, r: AuditRow)
    requires UniqueIds(users) && LikePatterns.KeepsSpecials(fold) && RowFor(r, r.entry, users, MadeBy)
    ensures Holds(fold, ILike("u.name", Str("%" + LikePatterns.EscapeLike(term) + "%")),
                  AuditColumnOf(r, "u.name")) <==>
            exists u :: u in users && MadeBy(r.entry, u) && NameHas(fold, term, u)
  {
    if r.user.Some? {
      LikePatterns.EscapedSearchIgnoresCase(fold, term, r.user.value.name);
      forall u | u in users && MadeBy(r.entry, u) ensures u == r.user.value {
        SameUser(users, r.entry, u, r.user.value);
      }
    }
  }

  /** The engine judges the joined row r by its columns. */
  ghost predicate Judges(e: Engine<AuditRow>, fold: char -> char, r: AuditRow) {
    forall c: Cond<Value> :: e.holds(c, r) == Holds(fold, c, AuditColumnOf(r, c.col))
  }

  lemma ByActorMeans(
    e: Engine<AuditRow>, users: seq<UserRow>, fold: char -> char, term: string, parseUuid: string -> Option<string>,
    r: AuditRow)
    requires UniqueIds(users) && LikePatterns.KeepsSpecials(fold) && RowFor(r, r.entry, users, MadeBy) &&
             Judges(e, fold, r)
    ensures ByActor(e, term, parseUuid, r) <==> ActedBy(users, term, parseUuid, fold, r.entry)
  {
    if term != "" {
      match parseUuid(term)
      case Some(id) => IdMeans(e, fold, id, r);
      case None => NameMeans(users, fold, term, r);
    }
  }

  lemma IdMeans(e: Engine<AuditRow>, fold: char -> char, id: string, r: AuditRow)
    requires Judges(e, fold, r)
    ensures e.holds(In("e.actor_id", [Uuid(id)]), r) <==> r.entry.actor == Some(id)
  {
    assert AuditColumnOf(r, "e.actor_id") == if r.entry.actor.Some? then Some(Uuid(r.entry.actor.value)) else None;
  }

  lemma BoundsMean(e: Engine<AuditRow>, fold: char -> char, range: Range, r: AuditRow)
    requires Judges(e, fold, r)
    ensures WithinBounds(e, IntervalOf(range), r) <==> Within(range, r.entry.createdAt)
  {
    BoundsUsedExactly(range);
    assert AuditColumnOf(r, "e.created_at") == Some(Instant(r.entry.createdAt));
  }

  lemma KindMeans(e: Engine<AuditRow>, fold: char -> char, vs: seq<string>, r: AuditRow)
    requires Judges(e, fold, r)
    ensures AmongOrAny(e, "e.entity", Strs(vs), r) <==> vs == [] || r.entry.entity in vs
  {
    assert AuditColumnOf(r, "e.entity") == Some(Str(r.entry.entity));
    AmongMeans(e, fold, "e.entity", Some(r.entry.entity), vs, r);
  }

  lemma EntrySatisfies(
    e: Engine<AuditRow>, users: seq<UserRow>, fold: char -> char, s: AuditQuery, parseUuid: string -> Option<string>,
    r: AuditRow)
    requires UniqueIds(users) && LikePatterns.KeepsSpecials(fold) && RowFor(r, r.entry, users, MadeBy) &&
             Judges(e, fold, r)
    ensures Satisfies(e, AuditBase(s, parseUuid).asked, r) <==> EntryWanted(users, s, parseUuid, fold, r.entry)
  {
    AuditMatchesExactly(e, s, parseUuid, r);
    KindMeans(e, fold, Recognised(s.entity, ParseEntity), r);
    EntityMeans();
    RecognisedMeans(s.entity, ParseEntity, ENTITIES);
    BoundsMean(e, fold, s.range, r);
    ByActorMeans(e, users, fold, Casing.TrimSpace(s.actor), parseUuid, r);
  }

  ghost function EntriesOf(rows: seq<AuditRow>): seq<EntryRow> {
    if rows == [] then [] else [rows[0].entry] + EntriesOf(rows[1..])
  }

  /** Filtering the joined rows is picking the entries. */
  lemma {:induction false} FilterPicks(
    e: Engine<AuditRow>, cs: seq<Cond<Value>>, rows: seq<AuditRow>, entries: seq<EntryRow>, want: EntryRow -> bool)
    requires |rows| == |entries|
    requires forall i :: 0 <= i < |rows| ==>
                           rows[i].entry == entries[i] && (Satisfies(e, cs, rows[i]) <==> want(entries[i]))
    ensures EntriesOf(Filter(e, cs, rows)) == Keep(entries, want) && |Filter(e, cs, rows)| == |Keep(entries, want)|
  {
    if rows != [] {
      assert rows[0].entry == entries[0] && (Satisfies(e, cs, rows[0]) <==> want(entries[0]));
      FilterPicks(e, cs, rows[1..], entries[1..], want);
      var rest := Filter(e, cs, rows[1..]);
      assert ([rows[0]] + rest)[1..] == rest;
      assert [] + rest == rest;
    }
  }

  lemma {:induction false} EntriesMore(a: seq<AuditRow>, b: seq<AuditRow>)
    ensures EntriesOf(a + b) == EntriesOf(a) + EntriesOf(b)
  {
    if a == [] {
      assert a + b == b;
    } else {
      assert (a + b)[1..] == a[1..] + b;
      EntriesMore(a[1..], b);
    }
  }

  /** Row i and the rest. */
  lemma Without(b: seq<AuditRow>, i: nat)
    requires i < |b|
    ensures var c := b[..i] + b[i + 1..];
            && multiset(b) == multiset(c) + multiset{b[i]}
            && multiset(EntriesOf(b)) == multiset(EntriesOf(c)) + multiset{b[i].entry}
  {
    var front, back := b[..i], b[i + 1..];
    assert b == front + ([b[i]] + back);
    EntriesMore(front, [b[i]] + back);
    EntriesMore(front, back);
    assert ([b[i]] + back)[1..] == back;
  }

  /** Taking a's first row out of a rearrangement of a. */
  lemma TakeOut(a: seq<AuditRow>, b: seq<AuditRow>) returns (c: seq<AuditRow>)
    requires a != [] && multiset(a) == multiset(b)
    ensures multiset(a[1..]) == multiset(c)
    ensures multiset(EntriesOf(b)) == multiset(EntriesOf(c)) + multiset{a[0].entry}
  {
    assert a[0] in multiset(b);
    var i :| 0 <= i < |b| && b[i] == a[0];
    c := b[..i] + b[i + 1..];
    Without(b, i);
    assert a == [a[0]] + a[1..];
    assert multiset(a[1..]) + multiset{a[0]} == multiset(c) + multiset{a[0]};
    Cancel(multiset(a[1..]), multiset(c), a[0]);
  }

  lemma Cancel<T>(x: multiset<T>, y: multiset<T>, t: T)
    requires x + multiset{t} == y + multiset{t}
    ensures x == y
  {
    assert x == x + multiset{t} - multiset{t};
    assert y == y + multiset{t} - multiset{t};
  }

  /** The same rows, rearranged, are the same entries, rearranged. */
  lemma {:induction false} SameEntries(a: seq<AuditRow>, b: seq<AuditRow>)
    requires multiset(a) == multiset(b)
    ensures multiset(EntriesOf(a)) == multiset(EntriesOf(b))
    decreases |a|
  {
    if a == [] {
      assert |b| == |multiset(b)| == |multiset(a)| == 0;
    } else {
      var c := TakeOut(a, b);
      SameEntries(a[1..], c);
      assert multiset(EntriesOf(a)) == multiset{a[0].entry} + multiset(EntriesOf(a[1..]));
    }
  }

  lemma AuditSourceIs(s: AuditQuery, parseUuid: string -> Option<string>)
    ensures SqlWords.Words(FromText(AuditBase(s, parseUuid))) == AUDIT_FROM
    ensures OrderWords(AuditBase(s, parseUuid)) ==
            if s.sort.key in AUDIT_SORT then [AUDIT_SORT[s.sort.key], Direction(s.sort.order)] else []
  {
    AuditFilterKeeps(AuditSource(), s, parseUuid);
    SortKeeps(AskAuditFilter(AuditSource(), s, parseUuid), s.sort, AUDIT_SORT);
    SortWords(AskAuditFilter(AuditSource(), s, parseUuid), s.sort, AUDIT_SORT);
    AuditFromWords(AuditBase(s, parseUuid));
  }

  /** The rows asked for stand for the entries wanted, one each, although they come from a join. */
  lemma AuditAsked(
    entries: seq<EntryRow>, users: seq<UserRow>, fold: char -> char,
    sort: (seq<string>, seq<AuditRow>) -> seq<AuditRow>,
    s: AuditQuery, parseUuid: string -> Option<string>)
    requires UniqueIds(users) && LikePatterns.KeepsSpecials(fold)
    ensures var asked := Asked(AuditTables(entries, users, fold, sort), AuditBase(s, parseUuid));
            var wanted := Keep(entries, e => EntryWanted(users, s, parseUuid, fold, e));
            EntriesOf(asked) == wanted && |asked| == |wanted|
  {
    var e := AuditTables(entries, users, fold, sort);
    var b := AuditBase(s, parseUuid);
    var rows := LeftJoin(entries, users, MadeBy);
    assert Unique<EntryRow, UserRow>(users, MadeBy);
    JoinKeepsEntries(entries, users, MadeBy);
    AuditSourceIs(s, parseUuid);
    forall i | 0 <= i < |rows|
      ensures rows[i].entry == entries[i]
              && (Satisfies(e, b.asked, rows[i]) <==> EntryWanted(users, s, parseUuid, fold, entries[i]))
    {
      assert RowFor(rows[i], entries[i], users, MadeBy);
      EntrySatisfies(e, users, fold, s, parseUuid, rows[i]);
    }
    FilterPicks(e, b.asked, rows, entries, x => EntryWanted(users, s, parseUuid, fold, x));
  }

  ghost predicate EntriesOrdered(sort: Sort, rows: seq<AuditRow>) {
    sort.key == "created_at" ==>
      forall i, j :: 0 <= i < j < |rows| ==>
                       if Spells(sort.order, "DESC") then rows[i].entry.createdAt >= rows[j].entry.createdAt
                       else rows[i].entry.createdAt <= rows[j].entry.createdAt
  }

  lemma EntriesSorted(sort: Sort, order: seq<string>, rows: seq<AuditRow>)
    requires sort.key in AUDIT_SORT && order == [AUDIT_SORT[sort.key], Direction(sort.order)]
    requires order[1] == "ASC" ==> Ascending(AuditColumnOf, order[0], rows)
    requires order[1] == "DESC" ==> Descending(AuditColumnOf, order[0], rows)
    ensures EntriesOrdered(sort, rows)
  {
    DirectionMeans(sort.order);
    assert forall r :: AuditColumnOf(r, "e.created_at") == Some(Instant(r.entry.createdAt));
  }

  /**
   The audit listing, for all tables and every search: the executed count is the number of entries
   the search wants, and the executed pages together are those entries, each once, although the
   statements run over a join with the users, latest first when the client sorts by creation and spells
   "desc", in any casing, and earliest first when it spells anything else.
   */
  lemma AuditPagesAnswer(
    entries: seq<EntryRow>, users: seq<UserRow>, fold: char -> char,
    sort: (seq<string>, seq<AuditRow>) -> seq<AuditRow>,
    s: AuditQuery, parseUuid: string -> Option<string>)
    requires UniqueIds(users) && LikePatterns.KeepsSpecials(fold) && Sorts(sort, AuditColumnOf)
    requires |Keep(entries, e => EntryWanted(users, s, parseUuid, fold, e))| <= MAX_INT32
    ensures var e := AuditTables(entries, users, fold, sort);
            var wanted := Keep(entries, x => EntryWanted(users, s, parseUuid, fold, x));
            var page := (p: nat) => RowQuery(AskAudit(AuditSource(), s.(page := p), parseUuid));
            var count := CountQuery(AskAudit(AuditSource(), s, parseUuid));
            && ExecuteCount(e, count.text, count.args) == Some(|wanted|)
            && multiset(EntriesOf(Fetched(e, page, TotalPages(|wanted|, ClampLimit(s.limit))))) == multiset(wanted)
            && EntriesOrdered(s.sort, Fetched(e, page, TotalPages(|wanted|, ClampLimit(s.limit))))
    ensures var e := AuditTables(entries, users, fold, sort);
            var asked := Asked(e, AuditBase(s, parseUuid));
            var order := if s.sort.key in AUDIT_SORT then [AUDIT_SORT[s.sort.key], Direction(s.sort.order)] else [];
            var page := (p: nat) => RowQuery(AskAudit(AuditSource(), s.(page := p), parseUuid));
            && EntriesOf(asked) == Keep(entries, x => EntryWanted(users, s, parseUuid, fold, x))
            && Fetched(e, page, TotalPages(|asked|, ClampLimit(s.limit))) == sort(order, asked)
  {
    AuditSourceIs(s, parseUuid);
    var e := AuditTables(entries, users, fold, sort);
    AuditAsked(entries, users, fold, sort, s, parseUuid);
    assert Arranges(e);
    AuditListingComplete(e, s, parseUuid);
    var asked := Asked(e, AuditBase(s, parseUuid));
    var page := (p: nat) => RowQuery(AskAudit(AuditSource(), s.(page := p), parseUuid));
    SameEntries(Fetched(e, page, TotalPages(|asked|, ClampLimit(s.limit))), asked);
    var order := OrderWords(AuditBase(s, parseUuid));
    if s.sort.key in AUDIT_SORT { EntriesSorted(s.sort, order, sort(order, asked)); }
  }
}
