/**
 The throttler: a slot per key in a shared store, taken with SET NX and an expiry. Store time is
 counted in the store's millisecond ticks; durations are in nanoseconds, as in Go.
 */
module Throttle {

  const MILLISECOND := 1_000_000

  const SECOND := 1_000_000_000

  /** The expiry the store is given: whole milliseconds, at least one. */
  function Millis(ttl: int): (ms: nat)
    requires ttl > 0
    ensures ms >= 1 && (ms + 1) * MILLISECOND > ttl
  {
    if ttl < MILLISECOND then 1 else ttl / MILLISECOND
  }

  /** When each slot expires; it is held up to and including that tick. */
  type Store = map<string, int>

  function SlotKey(key: string): string {
    "throttle:" + key
  }

  predicate Held(s: Store, key: string, now: int) {
    SlotKey(key) in s && now <= s[SlotKey(key)]
  }

  /** How a store command fares: answered, not executed, or executed with the answer lost. */
  datatype Reply = Answered | NotExecuted | AnswerLost

  datatype Event =
    | Acquire(key: string, ttl: int, now: int, reply: Reply)
    | Release(key: string, reply: Reply)

  predicate Takes(s: Store, e: Event) {
    e.Acquire? && e.key != "" && e.ttl > 0 && !e.reply.NotExecuted? && !Held(s, e.key, e.now)
  }

  /** The caller is told it may proceed. */
  predicate Allowed(s: Store, e: Event) {
    Takes(s, e) && e.reply.Answered?
  }

  function Apply(s: Store, e: Event): Store {
    match e
    case Acquire(key, ttl, now, _) => if Takes(s, e) then s[SlotKey(key) := now + Millis(ttl)] else s
    case Release(key, reply) => if key == "" || reply.NotExecuted? then s else s - {SlotKey(key)}
  }

  function Run(s: Store, es: seq<Event>): Store {
    if es == [] then s else Apply(Run(s, es[..|es| - 1]), es[|es| - 1])
  }

  /** The ticks at which callers were allowed to proceed under the key. */
  function AllowedTicks(s: Store, es: seq<Event>, key: string): seq<int> {
    if es == [] then []
    else
      var pre, e := es[..|es| - 1], es[|es| - 1];
      AllowedTicks(s, pre, key) + if Allowed(Run(s, pre), e) && e.key == key then [e.now] else []
  }

  // ------------------------------------------------------------ the object

  datatype Outcome = Error | Result(allowed: bool, retryAfter: int)

  /** The TTL command's answer as a duration: whole seconds, rounded to the nearest, or -2 for no key. */
  function Remaining(s: Store, key: string, now: int): int {
    if Held(s, key, now) then (s[SlotKey(key)] - now + 500) / 1000 * SECOND else -2
  }

  class Throttler {
    var slots: Store

    constructor ()
      ensures slots == map[]
    {
      slots := map[];
    }

    /** `now` and `later` are the store's clock at the two commands, `clock` the caller's. */
    method TryAcquire(key: string, ttl: int, now: int, reply: Reply, later: int, laterReply: Reply, clock: int)
      returns (r: Outcome)
      modifies this
      ensures slots == Apply(old(slots), Acquire(key, ttl, now, reply))
      ensures r == Result(true, clock + ttl) <==> Allowed(old(slots), Acquire(key, ttl, now, reply))
      ensures r.Result? && !r.allowed ==>
                Held(old(slots), key, now) && r.retryAfter == clock + Remaining(old(slots), key, later)
      ensures r.Error? <==> key == "" || ttl <= 0 || !reply.Answered? ||
                            (Held(old(slots), key, now) && !laterReply.Answered?)
    {
      if key == "" {
        return Error;
      }
      if ttl <= 0 {
        return Error;
      }
      var taken := SetNX(SlotKey(key), Millis(ttl), now, reply);
      if !reply.Answered? {
        return Error;
      }
      if taken {
        return Result(true, clock + ttl);
      }
      if !laterReply.Answered? {
        return Error;
      }
      return Result(false, clock + Remaining(slots, key, later));
    }

    /** SET key NX PX ms. */
    method SetNX(k: string, ms: nat, now: int, reply: Reply) returns (taken: bool)
      modifies this
      ensures taken == (!reply.NotExecuted? && !(k in old(slots) && now <= old(slots)[k]))
      ensures slots == if taken then old(slots)[k := now + ms] else old(slots)
    {
      if reply.NotExecuted? || (k in slots && now <= slots[k]) {
        return false;
      }
      slots := slots[k := now + ms];
      return true;
    }

    method Release(key: string, reply: Reply) returns (ok: bool)
      modifies this
      ensures slots == Apply(old(slots), Event.Release(key, reply))
      ensures ok == (key != "" && reply.Answered?)
    {
      if key == "" {
        return false;
      }
      if !reply.NotExecuted? {
        slots := slots - {SlotKey(key)};
      }
      return reply.Answered?;
    }
  }

  // ------------------------------------------------------------ the rate

  /** No release of the key, and every acquisition of it for at least ttl. */
  predicate Unreleased(es: seq<Event>, key: string, ttl: int) {
    forall i :: 0 <= i < |es| && es[i].key == key ==> es[i].Acquire? && es[i].ttl >= ttl
  }

  predicate Spaced(ts: seq<int>, gap: int) {
    forall i :: 0 < i < |ts| ==> ts[i - 1] + gap <= ts[i]
  }

  lemma SlotKeyInjective(a: string, b: string)
    requires SlotKey(a) == SlotKey(b)
    ensures a == b
  {
    assert SlotKey(a)[9..] == a && SlotKey(b)[9..] == b;
  }

  lemma MillisGrow(a: int, b: int)
    requires 0 < a <= b
    ensures Millis(a) <= Millis(b)
  {
  }

  /** The slot outlives the last allowed acquisition by its ttl. */
  predicate Covers(s: Store, ts: seq<int>, key: string, ttl: int)
    requires ttl > 0
  {
    ts != [] ==> SlotKey(key) in s && s[SlotKey(key)] >= ts[|ts| - 1] + Millis(ttl)
  }

  lemma CoversStep(s: Store, e: Event, ts: seq<int>, key: string, ttl: int)
    requires ttl > 0 && Covers(s, ts, key, ttl) && (e.key == key ==> e.Acquire? && e.ttl >= ttl)
    ensures Allowed(s, e) && e.key == key && ts != [] ==> ts[|ts| - 1] + Millis(ttl) + 1 <= e.now
    ensures Covers(Apply(s, e), if Allowed(s, e) && e.key == key then ts + [e.now] else ts, key, ttl)
  {
    if e.key == key {
      MillisGrow(ttl, e.ttl);
    } else if SlotKey(e.key) == SlotKey(key) {
      SlotKeyInjective(e.key, key);
    }
  }

  lemma {:induction false} SlotCovers(s: Store, es: seq<Event>, key: string, ttl: int)
    requires ttl > 0 && Unreleased(es, key, ttl)
    ensures Spaced(AllowedTicks(s, es, key), Millis(ttl) + 1)
    ensures Covers(Run(s, es), AllowedTicks(s, es, key), key, ttl)
  {
    if es != [] {
      var pre, e := es[..|es| - 1], es[|es| - 1];
      assert Unreleased(pre, key, ttl);
      SlotCovers(s, pre, key, ttl);
      CoversStep(Run(s, pre), e, AllowedTicks(s, pre, key), key, ttl);
      assert AllowedTicks(s, pre, key) + [] == AllowedTicks(s, pre, key);
    }
  }

  /** Any two allowed acquisitions of a key that is not released are at least ttl apart, whatever
      the callers, their clocks and the order of their commands. */
  lemma AllowedApart(s: Store, es: seq<Event>, key: string, ttl: int, i: nat, j: nat)
    requires ttl > 0 && Unreleased(es, key, ttl) && i < j < |AllowedTicks(s, es, key)|
    ensures (AllowedTicks(s, es, key)[j] - AllowedTicks(s, es, key)[i]) * 1_000_000 >= ttl
  {
    SlotCovers(s, es, key, ttl);
    SpacedApart(AllowedTicks(s, es, key), Millis(ttl) + 1, i, j);
  }

  lemma {:induction false} SpacedApart(ts: seq<int>, gap: nat, i: nat, j: nat)
    requires Spaced(ts, gap) && i < j < |ts|
    ensures ts[i] + gap <= ts[j]
  {
    if i < j - 1 { SpacedApart(ts, gap, i, j - 1); }
  }

  function InWindow(ts: seq<int>, from: int, to: int): nat {
    if ts == [] then 0
    else InWindow(ts[..|ts| - 1], from, to) + if from <= ts[|ts| - 1] <= to then 1 else 0
  }

  lemma {:induction false} WindowShrinks(ts: seq<int>, from: int, to: int, last: int)
    requires forall i :: 0 <= i < |ts| ==> ts[i] <= last && ts[i] <= to
    ensures InWindow(ts, from, to) == InWindow(ts, from, last)
  {
    if ts != [] { WindowShrinks(ts[..|ts| - 1], from, to, last); }
  }

  lemma OneMore(n: nat, gap: nat, span: int)
    requires (n - 1) * gap <= span - gap
    ensures n * gap <= span
  {
    assert n * gap == (n - 1) * gap + gap;
  }

  lemma {:induction false} WindowBound(ts: seq<int>, gap: nat, from: int, to: int)
    requires Spaced(ts, gap) && InWindow(ts, from, to) >= 1
    ensures (InWindow(ts, from, to) - 1) * gap <= to - from
  {
    var pre, t := ts[..|ts| - 1], ts[|ts| - 1];
    if !(from <= t <= to) {
      WindowBound(pre, gap, from, to);
    } else if InWindow(pre, from, to) >= 1 {
      forall i | 0 <= i < |pre| ensures pre[i] <= t - gap { SpacedApart(ts, gap, i, |pre|); }
      WindowShrinks(pre, from, to, t - gap);
      WindowBound(pre, gap, from, t - gap);
      OneMore(InWindow(pre, from, to), gap, t - from);
    }
  }

  lemma SpacedRate(ts: seq<int>, gap: nat, ttl: int, from: int, w: nat)
    requires Spaced(ts, gap) && gap * MILLISECOND >= ttl > 0
    ensures InWindow(ts, from, from + w) <= w * MILLISECOND / ttl + 1
  {
    var n := InWindow(ts, from, from + w);
    if n >= 1 {
      WindowBound(ts, gap, from, from + w);
      Scaled(n - 1, gap, ttl, w);
    } else {
      Scaled(0, gap, ttl, w);
    }
  }

  /** A window of w milliseconds holds at most w / ttl + 1 allowed acquisitions. */
  lemma RateBounded(s: Store, es: seq<Event>, key: string, ttl: int, from: int, w: nat)
    requires ttl > 0 && Unreleased(es, key, ttl)
    ensures InWindow(AllowedTicks(s, es, key), from, from + w) <= w * MILLISECOND / ttl + 1
  {
    SlotCovers(s, es, key, ttl);
    SpacedRate(AllowedTicks(s, es, key), Millis(ttl) + 1, ttl, from, w);
  }

  lemma Scaled(n: nat, gap: nat, ttl: int, w: nat)
    requires n * gap <= w && gap * MILLISECOND >= ttl > 0
    ensures n <= w * MILLISECOND / ttl
  {
    MultiplyBoth(ttl, gap * MILLISECOND, n);
    assert n * (gap * MILLISECOND) == (n * gap) * MILLISECOND;
    Quotient(n, w * MILLISECOND, ttl);
  }

  lemma MultiplyBoth(a: int, b: int, n: nat)
    requires a <= b
    ensures n * a <= n * b
  {
  }

  lemma Quotient(n: nat, x: int, d: int)
    requires d > 0 && n * d <= x
    ensures n <= x / d
  {
    var q := x / d;
    assert x == q * d + x % d;
    assert q * d + d == (q + 1) * d;
    if q < n { MultiplyBoth(q + 1, n, d); }
  }

  // ------------------------------------------------------------ the slot reopens

  /** Event i took the slot of the key and no later event has. */
  predicate LastTaken(s: Store, es: seq<Event>, i: nat, key: string) {
    && i < |es| && es[i].key == key && Takes(Run(s, es[..i]), es[i])
    && forall j :: i < j < |es| && es[j].key == key ==> !Takes(Run(s, es[..j]), es[j])
  }

  /** The slot is held, if at all, no longer than the acquisition that took it asked for. */
  predicate HeldUpTo(s: Store, key: string, until: int) {
    SlotKey(key) in s ==> s[SlotKey(key)] <= until
  }

  lemma {:induction false} HeldSince(s: Store, es: seq<Event>, i: nat, key: string)
    requires LastTaken(s, es, i, key)
    ensures HeldUpTo(Run(s, es), key, es[i].now + Millis(es[i].ttl))
    decreases |es|
  {
    var pre, e := es[..|es| - 1], es[|es| - 1];
    if i < |es| - 1 {
      assert pre[..i] == es[..i] && pre[i] == es[i];
      forall j | i < j < |pre| && pre[j].key == key ensures !Takes(Run(s, pre[..j]), pre[j]) {
        assert pre[..j] == es[..j] && pre[j] == es[j];
      }
      HeldSince(s, pre, i, key);
      if e.key != key && SlotKey(e.key) == SlotKey(key) { SlotKeyInjective(e.key, key); }
    }
  }

  /** Whole milliseconds never exceed the duration, except that the shortest is one. */
  lemma MillisWithin(ttl: int)
    requires ttl > 0
    ensures Millis(ttl) * MILLISECOND <= ttl || (ttl < MILLISECOND && Millis(ttl) == 1)
  {
  }

  /**
   The slot reopens: when the acquisition that last took it asked for ttl at tick t0, any answered
   acquisition more than ttl later is allowed, whatever was refused or released in between; a ttl below a
   millisecond counts as one tick.
   */
  lemma SlotReopens(s: Store, es: seq<Event>, i: nat, e: Event)
    requires LastTaken(s, es, i, e.key) && e.Acquire? && e.key != "" && e.ttl > 0 && e.reply.Answered?
    requires (e.now - es[i].now) * 1_000_000 > es[i].ttl && e.now - es[i].now > 1
    ensures Allowed(Run(s, es), e)
  {
    HeldSince(s, es, i, e.key);
    MillisWithin(es[i].ttl);
  }

  /** The wait reported to a refused caller is at most the ttl of the acquisition that holds the slot,
      or one millisecond, plus half a second. */
  lemma WaitWithinTtl(s: Store, es: seq<Event>, i: nat, key: string, now: int)
    requires LastTaken(s, es, i, key) && es[i].now <= now
    ensures Remaining(Run(s, es), key, now) <= es[i].ttl + MILLISECOND + SECOND / 2
    ensures es[i].ttl >= MILLISECOND ==> Remaining(Run(s, es), key, now) <= es[i].ttl + SECOND / 2
  {
    HeldSince(s, es, i, key);
    MillisWithin(es[i].ttl);
    if Held(Run(s, es), key, now) { RetryHintIsClose(Run(s, es), key, now); }
  }

  /** A release that reaches the store lets the next acquisition through at once. */
  lemma ReleaseReopens(s: Store, key: string, ttl: int, now: int, reply: Reply)
    requires key != "" && ttl > 0 && !reply.NotExecuted?
    ensures Allowed(Apply(s, Release(key, reply)), Acquire(key, ttl, now, Answered))
  {
  }

  /** The wait reported to a refused caller is within half a second of the slot's remaining time. */
  lemma RetryHintIsClose(s: Store, key: string, now: int)
    ensures Held(s, key, now) ==>
              var exact := (s[SlotKey(key)] - now) * 1_000_000;
              exact - 500_000_000 < Remaining(s, key, now) <= exact + 500_000_000
    ensures !Held(s, key, now) ==> Remaining(s, key, now) == -2
  {
  }
}
