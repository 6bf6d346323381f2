/**
 Each hypothesis of the at-most-once theorem is needed: under any one doubt there is a run in
 which the handler of one envelope succeeds twice.
 */
module Repeat {
  import opened Delivery
  import opened Loss

  ghost predicate NeverRepeats(c: Config, k: Doubts) {
    forall acts, m :: Run(Once(k), c, INIT, acts) ==> Exec(Once(k), c, INIT, acts).handled[m] <= 1
  }

  /** Run d of m decodes, is let through by the claim, and succeeds. */
  lemma Succeed(c: Config, k: Doubts, acts: seq<Action>, s: State, m: MsgId, d: RunId, f: Fault)
    returns (acts': seq<Action>, s': State)
    requires Reaches(c, Once(k), acts, s) && m in c.env && m in s.pending && d !in s.flights
    requires (f.Applied? && c.env[m] !in s.claims) || (f.NotApplied? && k.claimError)
    ensures Reaches(c, Once(k), acts', s') && s'.handled[m] == s.handled[m] + 1
  {
    var a1, s1 := Extend(c, Once(k), acts, s, Reclaim(m, d));
    var a2, s2 := Extend(c, Once(k), a1, s1, Decode(d));
    var a3, s3 := Extend(c, Once(k), a2, s2, Claim(d, f));
    assert s3.flights[d] == Flight(m, Handling, false);
    var a4, s4 := Extend(c, Once(k), a3, s3, Return(d, true));
    acts', s' := a4, s4;
  }

  /** Run 0 has succeeded and is about to acknowledge. */
  ghost function Succeeded(c: Config, m: MsgId): State
    requires m in c.env
  {
    Claimed(c, m).(handled := multiset{m}, flights := map[0 := Flight(m, Acking(Handled), false)])
  }

  lemma ReachSucceeded(c: Config, k: Doubts, m: MsgId) returns (acts: seq<Action>)
    requires m in c.env
    ensures Reaches(c, Once(k), acts, Succeeded(c, m))
  {
    var a1 := ReachClaimed(c, Once(k), m);
    var a2, s2 := Extend(c, Once(k), a1, Claimed(c, m), Return(0, true));
    acts := a2;
    assert s2 == Succeeded(c, m);
  }

  lemma ClaimErrorRepeats(c: Config, k: Doubts, m: MsgId) returns (acts: seq<Action>)
    requires m in c.env && k.claimError
    ensures Run(Once(k), c, INIT, acts) && Exec(Once(k), c, INIT, acts).handled[m] == 2
  {
    var a1 := ReachSucceeded(c, k, m);
    var a2, s2 := Succeed(c, k, a1, Succeeded(c, m), m, 1, NotApplied);
    acts := a2;
  }

  lemma ExpiryRepeats(c: Config, k: Doubts, m: MsgId) returns (acts: seq<Action>)
    requires m in c.env && k.expiry
    ensures Run(Once(k), c, INIT, acts) && Exec(Once(k), c, INIT, acts).handled[m] == 2
  {
    var a1 := ReachSucceeded(c, k, m);
    var a2, s2 := Extend(c, Once(k), a1, Succeeded(c, m), Expire(c.env[m]));
    var a3, s3 := Succeed(c, k, a2, s2, m, 1, Applied);
    acts := a3;
  }

  // ------------------------------------------------------------ panics

  /** A run that panics after another has succeeded releases that one's claim, and a third succeeds. */
  lemma PanicRepeats(c: Config, k: Doubts, acts: seq<Action>, s: State, m: MsgId, d: RunId, other: RunId)
    returns (acts': seq<Action>)
    requires Reaches(c, Once(k), acts, s) && m in c.env && c.env[m] != "" && m in s.pending && s.handled[m] == 1
    requires d in s.flights && s.flights[d] == Flight(m, s.flights[d].pc, false) && other !in s.flights
    requires s.flights[d].pc in k.panics && s.flights[d].pc != Decoding
    ensures Run(Once(k), c, INIT, acts') && Exec(Once(k), c, INIT, acts').handled[m] == 2
  {
    var a1, s1 := Extend(c, Once(k), acts, s, Panic(d));
    var a2, s2 := Extend(c, Once(k), a1, s1, Release(d, Applied));
    var a3, s3 := Succeed(c, k, a2, s2, m, other, Applied);
    acts' := a3;
  }

  /** Run 1 of the handled message, about to claim. */
  lemma ReachClaiming(c: Config, k: Doubts, m: MsgId) returns (acts: seq<Action>, s: State)
    requires m in c.env
    ensures Reaches(c, Once(k), acts, s) && m in s.pending && s.handled[m] == 1 && c.env[m] in s.claims
    ensures s.flights.Keys == {0, 1} && s.flights[1] == Flight(m, Claiming, false)
  {
    var a1 := ReachSucceeded(c, k, m);
    var a2, s2 := Extend(c, Once(k), a1, Succeeded(c, m), Reclaim(m, 1));
    acts, s := Extend(c, Once(k), a2, s2, Decode(1));
  }

  /** Run 0 has failed and released its claim, and the message has been delivered n times in all. */
  lemma {:induction false} ReachCounting(c: Config, k: Doubts, m: MsgId, n: nat) returns (acts: seq<Action>, s: State)
    requires m in c.env && n >= 1
    ensures Reaches(c, Once(k), acts, s) && m in s.pending && s.pending[m] == n
    ensures s.handled == multiset{} && s.claims == {} && s.flights == map[0 := Flight(m, Counting, false)]
    decreases n
  {
    if n == 1 {
      var a1 := ReachClaimed(c, Once(k), m);
      var a2, s2 := Extend(c, Once(k), a1, Claimed(c, m), Return(0, false));
      acts, s := Extend(c, Once(k), a2, s2, Release(0, Applied));
    } else {
      var a1, s1 := ReachCounting(c, k, m, n - 1);
      acts, s := Extend(c, Once(k), a1, s1, ReclaimUnhandled(m));
    }
  }

  /** Run 0 stands at a point past its release, and run 1 has succeeded meanwhile. */
  lemma ReachPastRelease(c: Config, k: Doubts, m: MsgId, pc: Pc) returns (acts: seq<Action>, s: State)
    requires m in c.env && (pc == Counting || pc == DeadLettering || pc == Acking(DeadLettered))
    ensures Reaches(c, Once(k), acts, s) && m in s.pending && s.handled[m] == 1
    ensures 0 in s.flights && s.flights[0] == Flight(m, pc, false) && 2 !in s.flights
  {
    var a1, s1 := ReachCounting(c, k, m, if c.maxRetries < 1 then 1 else c.maxRetries);
    if pc != Counting {
      a1, s1 := Extend(c, Once(k), a1, s1, Count(0, true));
      if pc == Acking(DeadLettered) {
        a1, s1 := Extend(c, Once(k), a1, s1, DeadLetter(0, Applied));
      }
    }
    acts, s := SucceedBeside(c, k, a1, s1, m, pc);
  }

  lemma SucceedBeside(c: Config, k: Doubts, acts: seq<Action>, s: State, m: MsgId, pc: Pc)
    returns (acts': seq<Action>, s': State)
    requires Reaches(c, Once(k), acts, s) && m in c.env && m in s.pending
    requires s.handled == multiset{} && s.claims == {} && s.flights == map[0 := Flight(m, pc, false)]
    ensures Reaches(c, Once(k), acts', s') && m in s'.pending && s'.handled[m] == 1
    ensures 0 in s'.flights && s'.flights[0] == Flight(m, pc, false) && 2 !in s'.flights
  {
    var a1, s1 := Extend(c, Once(k), acts, s, Reclaim(m, 1));
    var a2, s2 := Extend(c, Once(k), a1, s1, Decode(1));
    var a3, s3 := Extend(c, Once(k), a2, s2, Claim(1, Applied));
    acts', s' := Extend(c, Once(k), a3, s3, Return(1, true));
  }

  /** Wherever else a panic may strike, the handler may succeed twice. */
  lemma LatePanicRepeats(c: Config, k: Doubts, m: MsgId, pc: Pc) returns (acts: seq<Action>)
    requires m in c.env && c.env[m] != "" && pc in k.panics && pc !in SAFE_POINTS
    ensures Run(Once(k), c, INIT, acts) && Exec(Once(k), c, INIT, acts).handled[m] == 2
  {
    assert pc.Acking? ==> pc.why.Handled? || pc.why.Duplicate? || pc.why.DeadLettered?;
    if pc == Acking(Handled) {
      var a1 := ReachSucceeded(c, k, m);
      acts := PanicRepeats(c, k, a1, Succeeded(c, m), m, 0, 1);
    } else if pc == Claiming || pc == Acking(Duplicate) {
      var a1, s1 := ReachClaiming(c, k, m);
      if pc == Acking(Duplicate) {
        a1, s1 := Extend(c, Once(k), a1, s1, Claim(1, Applied));
      }
      acts := PanicRepeats(c, k, a1, s1, m, 1, 2);
    } else {
      var a1, s1 := ReachPastRelease(c, k, m, pc);
      acts := PanicRepeats(c, k, a1, s1, m, 0, 2);
    }
  }

  /** The exact condition: the handler succeeds at most once per envelope if and only if SET NX answers,
      claims do not expire, and a decoded message's run panics only while it has no id or owns its claim. */
  lemma NeverRepeatsExactly(c: Config, k: Doubts, m: MsgId)
    requires ValidConfig(c) && m in c.env
    ensures NeverRepeats(c, k) <==> Harmless(k)
  {
    if Harmless(k) {
      forall acts, n | Run(Once(k), c, INIT, acts) ensures Exec(Once(k), c, INIT, acts).handled[n] <= 1 {
        AtMostOnce(c, k, acts, n);
      }
    } else {
      var acts;
      if k.claimError { acts := ClaimErrorRepeats(c, k, m); }
      else if k.expiry { acts := ExpiryRepeats(c, k, m); }
      else {
        var pc :| pc in k.panics && pc !in SAFE_POINTS;
        acts := LatePanicRepeats(c, k, m, pc);
      }
    }
  }
}
