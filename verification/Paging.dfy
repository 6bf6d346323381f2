/**
 Pagination: the clamp, the saturating 64-bit offset, and the law that the pages of an unchanged
 result, put together, are the result.
 */
module Paging {
  import Options
  import opened Decimal
  import opened Conditions
  import opened QueryBuilding

  const DEFAULT_LIMIT := 20
  const MAX_LIMIT := 100

  function ClampPage(page: int): (p: int)
    ensures p >= 1 && (page >= 1 ==> p == page)
  {
    if page < 1 then 1 else page
  }

  function ClampLimit(limit: int): (l: int)
    ensures 1 <= l <= 100
    ensures 1 <= limit <= 100 ==> l == limit
    ensures limit > 100 ==> l == 100
    ensures limit < 1 ==> l == 20
  {
    if limit < 1 then DEFAULT_LIMIT else if limit > MAX_LIMIT then MAX_LIMIT else limit
  }

  /** Request parameters, clamped in place so that the metadata reports what was applied. */
  class Pagination {
    var page: int
    var limit: int

    constructor (page: int, limit: int)
      ensures this.page == page && this.limit == limit
    {
      this.page, this.limit := page, limit;
    }

    method ApplyPagination(q: QueryBuilder)
      requires q.Valid()
      modifies this, q
      ensures page == ClampPage(old(page)) && limit == ClampLimit(old(limit))
      ensures q.Valid() && q.View() == AskPage(old(q.View()), page, limit)
    {
      if page < 1 {
        page := 1;
      }
      if limit < 1 {
        limit := DEFAULT_LIMIT;
      } else if limit > MAX_LIMIT {
        limit := MAX_LIMIT;
      }
      q.Paginate(page, limit);
    }
  }

  /** PageMeta's page count: the total divided by the limit, rounded up. */
  function TotalPages(total: nat, limit: int): nat {
    if limit > 0 then (total + limit - 1) / limit else 0
  }

  // ------------------------------------------------------------ the offset

  lemma ProductSign(a: int, b: int)
    requires a >= 0 && b >= 1
    ensures a <= a * b
  {
  }

  /** The offset is the exact product, saturated, if and only if the 64-bit product did not wrap
      around to a small non-negative number. */
  lemma OffsetExactly(page: int, limit: int)
    requires 1 <= page <= MAX_INT64 && 1 <= limit <= MAX_INT64
    ensures PageOffset(page, limit) == Min((page - 1) * limit, 2147483647) <==>
            (page - 1) * limit <= 9223372036854775807 || !(0 <= Wrap64((page - 1) * limit) < 2147483647)
  {
    ProductSign(page - 1, limit);
    if page == 1 { assert (page - 1) * limit == 0; }
  }

  /** A request that wraps: the page lies far beyond any table, yet the offset is 84. */
  lemma WrappedOffset()
    ensures PageOffset(184467440737095518, 100) == 84
  {
  }

  // ------------------------------------------------------------ the law

  /** What LIMIT and OFFSET leave of an ordered result. */
  function Window<R>(rows: seq<R>, limit: nat, offset: nat): seq<R> {
    var from := Min(offset, |rows|);
    rows[from..Min(from + limit, |rows|)]
  }

  function PageRows<R>(rows: seq<R>, page: int, limit: int): seq<R>
    requires limit >= 1
  {
    Window(rows, limit, PageOffset(page, limit))
  }

  /** Pages 1..n, concatenated. */
  function Pages<R>(rows: seq<R>, n: nat, limit: int): seq<R>
    requires limit >= 1
  {
    if n == 0 then [] else Pages(rows, n - 1, limit) + PageRows(rows, n, limit)
  }

  lemma SmallOffset(page: int, limit: int, total: nat)
    requires page >= 1 && 1 <= limit <= MAX_LIMIT && total <= MAX_INT32 && (page - 1) * limit <= total
    ensures PageOffset(page, limit) == (page - 1) * limit
  {
    ProductSign(page - 1, limit);
  }

  lemma {:induction false} PagesArePrefix<R>(rows: seq<R>, n: nat, limit: int)
    requires 1 <= limit <= MAX_LIMIT && |rows| <= MAX_INT32 && (n >= 1 ==> (n - 1) * limit <= |rows|)
    ensures Pages(rows, n, limit) == rows[..Min(n * limit, |rows|)]
  {
    if n > 0 {
      assert (n - 1) * limit + limit == n * limit;
      if n >= 2 { assert (n - 2) * limit + limit == (n - 1) * limit; }
      PagesArePrefix(rows, n - 1, limit);
      SmallOffset(n, limit, |rows|);
      var from := (n - 1) * limit;
      assert rows[..from] + rows[from..Min(n * limit, |rows|)] == rows[..Min(n * limit, |rows|)];
    } else {
      assert 0 * limit == 0;
    }
  }

  lemma RoundedUp(total: nat, limit: int)
    requires limit >= 1
    ensures var n := TotalPages(total, limit); n * limit >= total && (n >= 1 ==> (n - 1) * limit < total)
  {
    var n := TotalPages(total, limit);
    assert n * limit == total + limit - 1 - (total + limit - 1) % limit;
    assert n >= 1 ==> (n - 1) * limit == n * limit - limit;
  }

  /** Every row appears exactly once, in order, over pages 1..TotalPages. */
  lemma PagesCoverResult<R>(rows: seq<R>, limit: int)
    requires 1 <= limit <= MAX_LIMIT && |rows| <= MAX_INT32
    ensures Pages(rows, TotalPages(|rows|, limit), limit) == rows
  {
    RoundedUp(|rows|, limit);
    PagesArePrefix(rows, TotalPages(|rows|, limit), limit);
  }

  /** A page past the last is empty if and only if its 64-bit product does not wrap into the table. */
  lemma LaterPageEmptyExactly<R>(rows: seq<R>, page: int, limit: int)
    requires 1 <= limit <= MAX_LIMIT && |rows| <= MAX_INT32 && TotalPages(|rows|, limit) < page <= MAX_INT64
    ensures PageRows(rows, page, limit) == [] <==> !(0 <= Wrap64((page - 1) * limit) < |rows|)
  {
    RoundedUp(|rows|, limit);
    var n := TotalPages(|rows|, limit);
    ProductGrows(n, page - 1, limit);
    if page <= 1 { assert (page - 1) * limit == 0; }
  }

  lemma ProductGrows(a: int, b: int, c: int)
    requires a <= b && c >= 1
    ensures a * c <= b * c
  {
  }

  // ------------------------------------------------------------ the joined count

  datatype Joined<E, U> = Joined(entry: E, user: Options.Option<U>)

  function Matching<U>(users: seq<U>, on: U -> bool): seq<U> {
    if users == [] then [] else (if on(users[0]) then [users[0]] else []) + Matching(users[1..], on)
  }

  function Pair<E, U>(e: E, us: seq<U>): seq<Joined<E, U>> {
    if us == [] then [] else [Joined(e, Options.Some(us[0]))] + Pair(e, us[1..])
  }

  /** LEFT JOIN users ON on(e, u): every match, or the entry alone. */
  function LeftJoin<E, U>(entries: seq<E>, users: seq<U>, on: (E, U) -> bool): seq<Joined<E, U>> {
    if entries == [] then []
    else
      var e := entries[0];
      var us := Matching(users, u => on(e, u));
      (if us == [] then [Joined(e, Options.None)] else Pair(e, us)) + LeftJoin(entries[1..], users, on)
  }

  /** No entry matches two users: the join column is unique among users. */
  ghost predicate Unique<E(!new), U>(users: seq<U>, on: (E, U) -> bool) {
    forall e, i, j :: 0 <= i < j < |users| ==> !(on(e, users[i]) && on(e, users[j]))
  }

  lemma {:induction false} AtMostOneMatch<U>(users: seq<U>, on: U -> bool)
    requires forall i, j :: 0 <= i < j < |users| ==> !(on(users[i]) && on(users[j]))
    ensures |Matching(users, on)| <= 1
    ensures (forall i :: 0 <= i < |users| ==> !on(users[i])) ==> Matching(users, on) == []
  {
    if users != [] {
      assert forall i :: 0 <= i < |users[1..]| ==> users[1..][i] == users[i + 1];
      AtMostOneMatch(users[1..], on);
    }
  }

  /** Row r of a join stands for entry e: it carries the user that matches it, if one does. */
  ghost predicate RowFor<E, U>(r: Joined<E, U>, e: E, users: seq<U>, on: (E, U) -> bool) {
    && r.entry == e
    && (r.user.None? ==> forall u :: u in users ==> !on(e, u))
    && (r.user.Some? ==> r.user.value in users && on(e, r.user.value))
  }

  lemma {:induction false} MatchingIs<U>(users: seq<U>, on: U -> bool)
    ensures forall u :: u in Matching(users, on) <==> u in users && on(u)
  {
    if users != [] {
      MatchingIs(users[1..], on);
    }
  }

  /** The join neither drops nor multiplies entries: row i of the join stands for entry i, so the
      count of the joined rows is the count of the entries. */
  lemma {:induction false} JoinKeepsEntries<E(!new), U>(entries: seq<E>, users: seq<U>, on: (E, U) -> bool)
    requires Unique(users, on)
    ensures |LeftJoin(entries, users, on)| == |entries|
    ensures forall i :: 0 <= i < |entries| ==> RowFor(LeftJoin(entries, users, on)[i], entries[i], users, on)
  {
    if entries != [] {
      var e := entries[0];
      AtMostOneMatch(users, u => on(e, u));
      JoinKeepsEntries(entries[1..], users, on);
      var us := Matching(users, u => on(e, u));
      MatchingIs(users, u => on(e, u));
      if us != [] { assert us[1..] == [] && Pair(e, us) == [Joined(e, Options.Some(us[0]))]; }
    }
  }
}
