/**
 The user and audit searches: the filters, sort and page a client sends are sanitised in place
 while they are applied to a query, and the sanitised search asks for the same query again.
 */
module Search {
  import opened Options
  import opened Casing
  import opened Conditions
  import opened QueryBuilding
  import opened Paging
  import opened DateBounds
  import LikePatterns

  // ------------------------------------------------------------ recognised values

  function ParseGender(s: string): Option<string> {
    var g := ToUpper(TrimSpace(s));
    if g == "M" || g == "F" || g == "O" then Some(g) else None
  }

  function ParseRole(s: string): Option<string> {
    var r := ToLower(TrimSpace(s));
    if r == "admin" || r == "user" || r == "system" then Some(r) else None
  }

  function ParseEntity(s: string): Option<string> {
    var e := ToLower(TrimSpace(s));
    if e == "registration_token" || e == "session" || e == "user" then Some(e) else None
  }

  /** A parser's results are its own canonical inputs. */
  ghost predicate Canonical(parse: string -> Option<string>) {
    forall s :: parse(s).Some? ==> parse(parse(s).value) == parse(s)
  }

  lemma TrimmedWord(w: string)
    requires w != "" && !IsSpace(w[0]) && !IsSpace(w[|w| - 1])
    ensures TrimSpace(w) == w
  {
  }

  lemma GenderCanonical()
    ensures Canonical(ParseGender)
  {
    forall s | ParseGender(s).Some? ensures ParseGender(ParseGender(s).value) == ParseGender(s) {
      TrimmedWord(ParseGender(s).value);
      UpperOnce(TrimSpace(s));
    }
  }

  lemma RoleCanonical()
    ensures Canonical(ParseRole)
  {
    forall s | ParseRole(s).Some? ensures ParseRole(ParseRole(s).value) == ParseRole(s) {
      TrimmedWord(ParseRole(s).value);
      LowerOnce(TrimSpace(s));
    }
  }

  lemma EntityCanonical()
    ensures Canonical(ParseEntity)
  {
    forall s | ParseEntity(s).Some? ensures ParseEntity(ParseEntity(s).value) == ParseEntity(s) {
      TrimmedWord(ParseEntity(s).value);
      LowerOnce(TrimSpace(s));
    }
  }

  /** The recognised values among vs, canonicalised, in order. */
  function Recognised(vs: seq<string>, parse: string -> Option<string>): seq<string> {
    if vs == [] then []
    else
      var p := parse(vs[|vs| - 1]);
      Recognised(vs[..|vs| - 1], parse) + if p.Some? then [p.value] else []
  }

  lemma {:induction false} RecognisedOnce(vs: seq<string>, parse: string -> Option<string>)
    requires Canonical(parse)
    ensures Recognised(Recognised(vs, parse), parse) == Recognised(vs, parse)
  {
    if vs != [] {
      var pre, p := Recognised(vs[..|vs| - 1], parse), parse(vs[|vs| - 1]);
      RecognisedOnce(vs[..|vs| - 1], parse);
      if p.Some? { assert (pre + [p.value])[..|pre|] == pre; } else { assert pre + [] == pre; }
    }
  }

  /** Each value is kept, in its canonical form and in its place, or dropped, on its own. */
  lemma {:induction false} RecognisedEach(a: seq<string>, v: string, b: seq<string>, parse: string -> Option<string>)
    ensures Recognised(a + [v] + b, parse) ==
            Recognised(a, parse) + (if parse(v).Some? then [parse(v).value] else []) + Recognised(b, parse)
    decreases |b|
  {
    var all := a + [v] + b;
    if b == [] {
      assert all == a + [v] && all[..|a|] == a;
    } else {
      var front := b[..|b| - 1];
      assert all[..|all| - 1] == a + [v] + front;
      RecognisedEach(a, v, front, parse);
    }
  }

  method Recognise(vs: seq<string>, parse: string -> Option<string>) returns (kept: seq<string>)
    ensures kept == Recognised(vs, parse)
  {
    kept := [];
    var i := 0;
    while i < |vs|
      invariant 0 <= i <= |vs| && kept == Recognised(vs[..i], parse)
    {
      assert vs[..i + 1][..i] == vs[..i];
      var p := parse(vs[i]);
      if p.Some? {
        kept := kept + [p.value];
      }
      i := i + 1;
    }
    assert vs[..|vs|] == vs;
  }

  function Strings(vs: seq<string>): Any {
    Slice(seq(|vs|, i requires 0 <= i < |vs| => Str(vs[i])))
  }

  // ------------------------------------------------------------ sorting

  datatype Sort = Sort(key: string, order: string)

  function Direction(order: string): string {
    if ToUpper(order) == "ASC" || ToUpper(order) == "DESC" then ToUpper(order) else "ASC"
  }

  function SortApplied(s: Sort, allowed: map<string, string>): Sort {
    if s.key in allowed then Sort(s.key, Direction(s.order)) else Sort("", "")
  }

  function AskSort(b: Builder, s: Sort, allowed: map<string, string>): Builder {
    if s.key in allowed then AskOrder(b, allowed[s.key], Direction(s.order)) else b
  }

  class Sorting {
    var key: string
    var order: string

    ghost function View(): Sort
      reads this
    {
      Sort(key, order)
    }

    constructor (s: Sort)
      ensures View() == s
    {
      key, order := s.key, s.order;
    }

    method ApplySort(q: QueryBuilder, allowed: map<string, string>)
      requires q.Valid()
      modifies this, q
      ensures View() == SortApplied(old(View()), allowed)
      ensures q.Valid() && q.View() == AskSort(old(q.View()), old(View()), allowed)
    {
      if key !in allowed {
        key, order := "", "";
        return;
      }
      var direction := ToUpper(order);
      if direction != "ASC" && direction != "DESC" {
        direction := "ASC";
      }
      order := direction;
      q.OrderBy(allowed[key], direction);
    }
  }

  /** The echoed sort asks for the same order again, unless the sort was refused and the allow-list
      has an entry for the empty name it was replaced by. */
  lemma SortReplaysExactly(b: Builder, s: Sort, allowed: map<string, string>)
    ensures SortApplied(SortApplied(s, allowed), allowed) == SortApplied(s, allowed) <==>
            s.key in allowed || "" !in allowed
    ensures AskSort(b, SortApplied(s, allowed), allowed) == AskSort(b, s, allowed) ||
            (s.key !in allowed && "" in allowed)
  {
    UpperOnce(s.order);
    assert ToUpper("ASC") == "ASC";
  }

  // ------------------------------------------------------------ user search

  datatype UserQuery = UserQuery(gender: seq<string>, role: seq<string>, sort: Sort, page: int, limit: int)

  const USER_SORT := map["id" := "id", "created_at" := "created_at", "updated_at" := "updated_at"]

  function UserApplied(s: UserQuery): UserQuery {
    UserQuery(
      Recognised(s.gender, ParseGender), Recognised(s.role, ParseRole),
      SortApplied(s.sort, USER_SORT), ClampPage(s.page), ClampLimit(s.limit))
  }

  function AskUserFilter(b: Builder, s: UserQuery): Builder {
    var g := AskIn(b, "gender", Strings(Recognised(s.gender, ParseGender)));
    AskIn(g, "role", Strings(Recognised(s.role, ParseRole)))
  }

  function AskUsers(b: Builder, s: UserQuery): Builder {
    AskPage(AskSort(AskUserFilter(b, s), s.sort, USER_SORT), ClampPage(s.page), ClampLimit(s.limit))
  }

  class UserSearch {
    var gender: seq<string>
    var role: seq<string>
    const sorting: Sorting
    const pagination: Pagination

    ghost function View(): UserQuery
      reads this, sorting, pagination
    {
      UserQuery(gender, role, sorting.View(), pagination.page, pagination.limit)
    }

    constructor (s: UserQuery)
      ensures View() == s && fresh(sorting) && fresh(pagination)
    {
      gender, role := s.gender, s.role;
      sorting := new Sorting(s.sort);
      pagination := new Pagination(s.page, s.limit);
    }

    method ApplyFilter(q: QueryBuilder)
      requires q.Valid()
      modifies this, q
      ensures gender == Recognised(old(gender), ParseGender) && role == Recognised(old(role), ParseRole)
      ensures q.Valid() && q.View() == AskUserFilter(old(q.View()), old(View()))
    {
      gender := Recognise(gender, ParseGender);
      role := Recognise(role, ParseRole);
      q.WhereIn("gender", Strings(gender));
      q.WhereIn("role", Strings(role));
    }

    /** Filter, then sort, then page. */
    method ApplyQuery(q: QueryBuilder)
      requires q.Valid()
      modifies this, sorting, pagination, q
      ensures View() == UserApplied(old(View()))
      ensures q.Valid() && q.View() == AskUsers(old(q.View()), old(View()))
    {
      ApplyFilter(q);
      sorting.ApplySort(q, USER_SORT);
      pagination.ApplyPagination(q);
    }
  }

  /** The echoed user search is unchanged by being applied again, and asks for the same query. */
  lemma UserSearchReplays(b: Builder, s: UserQuery)
    ensures UserApplied(UserApplied(s)) == UserApplied(s)
    ensures AskUsers(b, UserApplied(s)) == AskUsers(b, s)
  {
    GenderCanonical();
    RoleCanonical();
    RecognisedOnce(s.gender, ParseGender);
    RecognisedOnce(s.role, ParseRole);
    SortReplaysExactly(AskUserFilter(b, s), s.sort, USER_SORT);
  }

  // ------------------------------------------------------------ audit search

  datatype AuditQuery = AuditQuery(
    entity: seq<string>, actor: string, range: Range, sort: Sort, page: int, limit: int)

  const AUDIT_SORT := map["created_at" := "e.created_at"]

  function AuditApplied(s: AuditQuery): AuditQuery {
    AuditQuery(
      Recognised(s.entity, ParseEntity), TrimSpace(s.actor), Sanitised(s.range),
      SortApplied(s.sort, AUDIT_SORT), ClampPage(s.page), ClampLimit(s.limit))
  }

  function AskRange(b: Builder, r: Range): Builder {
    var i := IntervalOf(r);
    if i.ok then AskBetween(b, "e.created_at", i.from, i.to) else b
  }

  /** A full id is compared with the actor's id, any other term with the actor's name. */
  function AskActor(b: Builder, actor: string, parseUuid: string -> Option<string>): Builder {
    if actor == "" then b
    else match parseUuid(actor)
         case Some(id) => AskIn(b, "e.actor_id", Slice([Uuid(id)]))
         case None => b.(asked := b.asked + [ILike("u.name", Str("%" + LikePatterns.EscapeLike(actor) + "%"))])
  }

  function AskAuditFilter(b: Builder, s: AuditQuery, parseUuid: string -> Option<string>): Builder {
    var e := AskIn(b, "e.entity", Strings(Recognised(s.entity, ParseEntity)));
    AskActor(AskRange(e, s.range), TrimSpace(s.actor), parseUuid)
  }

  function AskAudit(b: Builder, s: AuditQuery, parseUuid: string -> Option<string>): Builder {
    AskPage(AskSort(AskAuditFilter(b, s, parseUuid), s.sort, AUDIT_SORT), ClampPage(s.page), ClampLimit(s.limit))
  }

  class AuditSearch {
    var entity: seq<string>
    var actor: string
    const range: DateRange
    const sorting: Sorting
    const pagination: Pagination

    ghost function View(): AuditQuery
      reads this, range, sorting, pagination
    {
      AuditQuery(entity, actor, range.View(), sorting.View(), pagination.page, pagination.limit)
    }

    constructor (s: AuditQuery)
      ensures View() == s && fresh(range) && fresh(sorting) && fresh(pagination)
    {
      entity, actor := s.entity, s.actor;
      range := new DateRange(s.range);
      sorting := new Sorting(s.sort);
      pagination := new Pagination(s.page, s.limit);
    }

    method ApplyFilter(q: QueryBuilder, parseUuid: string -> Option<string>)
      requires q.Valid()
      modifies this, range, q
      ensures entity == Recognised(old(entity), ParseEntity) && actor == TrimSpace(old(actor))
      ensures range.View() == Sanitised(old(range.View()))
      ensures q.Valid() && q.View() == AskAuditFilter(old(q.View()), old(View()), parseUuid)
    {
      entity := Recognise(entity, ParseEntity);
      q.WhereIn("e.entity", Strings(entity));
      ApplyRange(q);
      ApplyActor(q, parseUuid);
    }

    method ApplyRange(q: QueryBuilder)
      requires q.Valid()
      modifies range, q
      ensures range.View() == Sanitised(old(range.View()))
      ensures q.Valid() && q.View() == AskRange(old(q.View()), old(range.View()))
    {
      var from, to, ok := range.Bounds();
      if ok {
        q.WhereBetween("e.created_at", from, to);
      }
    }

    method ApplyActor(q: QueryBuilder, parseUuid: string -> Option<string>)
      requires q.Valid()
      modifies this`actor, q
      ensures actor == TrimSpace(old(actor))
      ensures q.Valid() && q.View() == AskActor(old(q.View()), actor, parseUuid)
    {
      actor := TrimSpace(actor);
      if actor == "" {
        return;
      }
      var id := parseUuid(actor);
      if id.Some? {
        q.WhereIn("e.actor_id", Slice([Uuid(id.value)]));
        return;
      }
      q.WhereILike("u.name", Some(Str("%" + LikePatterns.EscapeLike(actor) + "%")));
    }

    method ApplyQuery(q: QueryBuilder, parseUuid: string -> Option<string>)
      requires q.Valid()
      modifies this, range, sorting, pagination, q
      ensures View() == AuditApplied(old(View()))
      ensures q.Valid() && q.View() == AskAudit(old(q.View()), old(View()), parseUuid)
    {
      ApplyFilter(q, parseUuid);
      sorting.ApplySort(q, AUDIT_SORT);
      pagination.ApplyPagination(q);
    }
  }

  lemma AuditFilterReplays(b: Builder, s: AuditQuery, parseUuid: string -> Option<string>)
    requires Replayable(s.range)
    ensures AskAuditFilter(b, AuditApplied(s), parseUuid) == AskAuditFilter(b, s, parseUuid)
  {
    EntityCanonical();
    RecognisedOnce(s.entity, ParseEntity);
    TrimmedOnce(s.actor);
    RangeReplaysExactly(s.range);
  }

  /** The echoed audit search is unchanged by being applied again if and only if no date bound in
      use was written with the offset 24:60, and then it asks for the same query. */
  lemma AuditSearchReplaysExactly(b: Builder, s: AuditQuery, parseUuid: string -> Option<string>)
    ensures AuditApplied(AuditApplied(s)) == AuditApplied(s) <==> Replayable(s.range)
    ensures Replayable(s.range) ==> AskAudit(b, AuditApplied(s), parseUuid) == AskAudit(b, s, parseUuid)
  {
    EntityCanonical();
    RecognisedOnce(s.entity, ParseEntity);
    TrimmedOnce(s.actor);
    RangeReplaysExactly(s.range);
    SortReplaysExactly(AskAuditFilter(b, s, parseUuid), s.sort, AUDIT_SORT);
    if Replayable(s.range) { AuditFilterReplays(b, s, parseUuid); }
  }
}
