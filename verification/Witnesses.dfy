/**
 Runs of the database machine that show why two theorems carry a proviso: overlapping Register
 calls leave two open invitations, and a ChangePassword that read the user before a picture swap
 brings the old picture back.
 */
module Witnesses {
  import opened Options
  import opened Decimal
  import opened Revocation
  import opened Database
  import opened Locking
  import opened OneShot
  import opened Serial
  import opened Users
  import opened Pictures
  import opened Endings

  ghost predicate Reaches(p: Params, acts: seq<Action>, s: State) {
    Run(p, Init(0), acts) && Exec(p, Init(0), acts) == s
  }

  lemma Extend(p: Params, acts: seq<Action>, s: State, a: Action) returns (acts': seq<Action>, s': State)
    requires Reaches(p, acts, s) && Enabled(p, s, a)
    ensures s' == Apply(p, s, a) && Reaches(p, acts', s')
  {
    RunStep(p, Init(0), acts, a);
    acts', s' := acts + [a], Apply(p, s, a);
  }

  /** A Register that has started and taken its statement snapshot on an empty table. */
  lemma StartRegister(p: Params, acts: seq<Action>, s: State, t: TxId, id: Id, h: Hash)
    returns (acts': seq<Action>, s': State)
    requires Reaches(p, acts, s) && s.rows == map[] && t !in s.txs && h !in s.hashes
    ensures Reaches(p, acts', s')
    ensures s'.rows == map[] && s'.hashes == s.hashes + {h}
    ensures s'.txs == s.txs[t := Tx(Register("e", "n", id, h, 10), None, None, map[], Some({}), false, false)]
  {
    var a1, s1 := Extend(p, acts, s, Begin(t, Register("e", "n", id, h, 10), 0));
    var a2, s2 := Extend(p, a1, s1, Scan(t));
    assert s2.txs[t].scan.value == {};
    acts', s' := a2, s2;
  }

  lemma FinishRegister(p: Params, acts: seq<Action>, s: State, t: TxId, id: Id, h: Hash)
    returns (acts': seq<Action>, s': State)
    requires Reaches(p, acts, s) && RegK(id) !in s.rows
    requires t in s.txs && s.txs[t] == Tx(Register("e", "n", id, h, 10), None, None, map[], Some({}), false, false)
    ensures Reaches(p, acts', s') && s'.txs == s.txs - {t}
    ensures s'.rows == s.rows[RegK(id) := GRow(Registration("e", "n", h, 10, None, None))]
    ensures (exists k :: OpenFor(s.rows, k, "e")) ==> !SerialLog(s'.log)
  {
    var a1, s1 := Extend(p, acts, s, Commit(t, 0));
    NotSerial(p, acts, s, t);
    assert BulkRevoked(s.txs[t], 0) == map[];
    assert s1.rows == s.rows[RegK(id) := GRow(Registration("e", "n", h, 10, None, None))];
    acts', s' := a1, s1;
  }

  /** A Register that commits on a snapshot without an invitation open by then is not serial. */
  lemma NotSerial(p: Params, acts: seq<Action>, s: State, t: TxId)
    requires Reaches(p, acts, s) && Enabled(p, s, Commit(t, 0)) && s.txs[t].op.Register?
    requires s.txs[t].op.email == "e" && s.txs[t].scan == Some({})
    ensures (exists k :: OpenFor(s.rows, k, "e")) ==> !SerialLog(Apply(p, s, Commit(t, 0)).log)
  {
    LogRun(p, Init(0), acts);
    SerialLogStep(p, s, Commit(t, 0));
    if k :| OpenFor(s.rows, k, "e") { MissesOpen(s.rows, s.txs[t], k); }
  }

  lemma MissesOpen(rows: Rows, tx: Tx, k: Key)
    requires tx.op.Register? && tx.op.email == "e" && tx.scan == Some({}) && OpenFor(rows, k, "e")
    ensures !Undisturbed(rows, tx)
  {
    assert Matches(tx, k, rows[k]);
  }

  /** Two overlapping Register calls for one e-mail: both statement snapshots miss the other's
      invitation, both stay open, and the run is no serial one. */
  lemma OverlappingRegistersBothOpen(p: Params) returns (acts: seq<Action>)
    ensures Run(p, Init(0), acts) && !OneOpen(Exec(p, Init(0), acts).rows, "e")
    ensures !SerialLog(Exec(p, Init(0), acts).log)
  {
    var a1, s1 := StartRegister(p, [], Init(0), 0, "a", 1);
    var a2, s2 := StartRegister(p, a1, s1, 1, "b", 2);
    var a3, s3 := FinishRegister(p, a2, s2, 0, "a", 1);
    assert OpenFor(s3.rows, RegK("a"), "e");
    var a4, s4 := FinishRegister(p, a3, s3, 1, "b", 2);
    assert OpenFor(s4.rows, RegK("a"), "e") && OpenFor(s4.rows, RegK("b"), "e");
    acts := a4;
  }

  const OWNER := User("e", "n", "pw", None, false)

  /** A state with one registered user and nothing in progress. */
  ghost predicate ShowsUser(s: State, u: User) {
    && UserK("u") in s.rows && s.rows[UserK("u")] == URow(u)
    && (forall k :: k in s.rows ==> !k.SessK?)
  }

  /** No other transaction is in the way of t locking the user's row. */
  ghost predicate Free(s: State, t: TxId) {
    Unlocked(s, t, UserK("u")) && Unshared(s, t, UserK("u"))
  }

  lemma RegisterUser(p: Params) returns (acts: seq<Action>, s: State)
    ensures Reaches(p, acts, s) && ShowsUser(s, OWNER) && s.txs == map[] && s.names == {} && s.objects == {} &&
            s.deletes == {}
    ensures s.now == 0 && s.sessionIds == {} && s.hashes == {1} && s.markers == map[]
  {
    var a2, s2 := FirstRegister(p);
    var a3, s3 := FinishRegisterKeeping(p, a2, s2);
    var op := CompleteRegistration(1, "u", "pw");
    var a4, s4 := Extend(p, a3, s3, Begin(0, op, 0));
    acts, s := CompleteIt(p, a4, s4);
  }

  lemma FirstRegister(p: Params) returns (acts: seq<Action>, s: State)
    ensures Reaches(p, acts, s)
    ensures var tx := Tx(Register("e", "n", "a", 1, 10), None, None, map[], Some({}), false, false);
            s == Init(0).(txs := map[0 := tx], hashes := {1})
  {
    var a1, s1 := Extend(p, [], Init(0), Begin(0, Register("e", "n", "a", 1, 10), 0));
    var a2, s2 := Extend(p, a1, s1, Scan(0));
    assert s2.txs[0].scan.value == {};
    acts, s := a2, s2;
  }

  lemma FinishRegisterKeeping(p: Params, acts: seq<Action>, s: State) returns (acts': seq<Action>, s': State)
    requires Reaches(p, acts, s) && s.rows == map[] && s.names == {} && s.objects == {} && s.deletes == {}
    requires s.txs == map[0 := Tx(Register("e", "n", "a", 1, 10), None, None, map[], Some({}), false, false)]
    ensures Reaches(p, acts', s') && s'.txs == map[] && s'.names == {} && s'.objects == {} && s'.deletes == {}
    ensures s'.rows == map[RegK("a") := GRow(Registration("e", "n", 1, 10, None, None))]
    ensures s'.now == s.now && s'.sessionIds == s.sessionIds && s'.hashes == s.hashes && s'.markers == s.markers
  {
    var a1, s1 := Extend(p, acts, s, Commit(0, 0));
    assert BulkRevoked(s.txs[0], 0) == map[];
    assert s1.txs == map[];
    acts', s' := a1, s1;
  }

  lemma CompleteIt(p: Params, acts: seq<Action>, s: State) returns (acts': seq<Action>, s': State)
    requires Reaches(p, acts, s) && s.names == {} && s.objects == {} && s.deletes == {}
    requires s.rows == map[RegK("a") := GRow(Registration("e", "n", 1, 10, None, None))]
    requires s.txs == map[0 := Tx(CompleteRegistration(1, "u", "pw"), None, None, map[], None, false, false)]
    ensures Reaches(p, acts', s') && ShowsUser(s', OWNER) && s'.txs == map[]
    ensures s'.names == {} && s'.objects == {} && s'.deletes == {}
    ensures s'.now == s.now && s'.sessionIds == s.sessionIds && s'.hashes == s.hashes && s'.markers == s.markers
  {
    var a1, s1 := Extend(p, acts, s, LockTarget(0, RegK("a")));
    acts', s' := CommitCompletion(p, a1, s1);
  }

  lemma CommitCompletion(p: Params, acts: seq<Action>, s: State) returns (acts': seq<Action>, s': State)
    requires Reaches(p, acts, s) && s.names == {} && s.objects == {} && s.deletes == {}
    requires s.rows == map[RegK("a") := GRow(Registration("e", "n", 1, 10, None, None))]
    requires s.txs == map[0 := Tx(CompleteRegistration(1, "u", "pw"), None, Some(RegK("a")), s.rows, None, false,
                                  false)]
    ensures Reaches(p, acts', s') && ShowsUser(s', OWNER) && s'.txs == map[]
    ensures s'.names == {} && s'.objects == {} && s'.deletes == {}
    ensures s'.now == s.now && s'.sessionIds == s.sessionIds && s'.hashes == s.hashes && s'.markers == s.markers
  {
    var a1, s1 := Extend(p, acts, s, Commit(0, 0));
    assert s1.txs == map[];
    acts', s' := a1, s1;
  }

  /** A whole ChangePicture of the user, with transaction id t. */
  lemma SwapPicture(p: Params, acts: seq<Action>, s: State, u: User, t: TxId, n: Name)
    returns (acts': seq<Action>, s': State)
    requires Reaches(p, acts, s) && ShowsUser(s, u) && !u.deleted && t !in s.txs && n !in s.names && Free(s, t)
    ensures Reaches(p, acts', s') && ShowsUser(s', u.(picture := Some(n))) && s'.txs == s.txs
    ensures s'.names == s.names + {n} && s'.objects == s.objects + {n}
    ensures s'.deletes == s.deletes + (if u.picture.Some? then {u.picture.value} else {})
  {
    var a1, s1 := StartSwap(p, acts, s, u, t, n);
    var a2, s2 := LockSwap(p, a1, s1, u, t, n);
    acts', s' := CommitSwap(p, a2, s2, u, t, n);
    assert s2.txs - {t} == s.txs;
  }

  lemma StartSwap(p: Params, acts: seq<Action>, s: State, u: User, t: TxId, n: Name)
    returns (acts': seq<Action>, s': State)
    requires Reaches(p, acts, s) && ShowsUser(s, u) && t !in s.txs && n !in s.names && Free(s, t)
    ensures Reaches(p, acts', s') && ShowsUser(s', u) && Free(s', t)
    ensures s'.txs == s.txs[t := Tx(ChangePicture("u", n), None, None, map[], None, false, false)]
    ensures s'.names == s.names + {n} && s'.objects == s.objects + {n} && s'.deletes == s.deletes
  {
    acts', s' := Extend(p, acts, s, Begin(t, ChangePicture("u", n), 0));
  }

  /** A picture change by user u that has locked the row holding u. */
  ghost function Swapping(u: User, n: Name): Tx {
    Tx(ChangePicture("u", n), None, Some(UserK("u")), map[UserK("u") := URow(u)], None, false, false)
  }

  lemma LockSwap(p: Params, acts: seq<Action>, s: State, u: User, t: TxId, n: Name)
    returns (acts': seq<Action>, s': State)
    requires Reaches(p, acts, s) && ShowsUser(s, u) && !u.deleted && Free(s, t)
    requires t in s.txs && s.txs[t] == Tx(ChangePicture("u", n), None, None, map[], None, false, false)
    ensures Reaches(p, acts', s')
    ensures s' == s.(txs := s.txs[t := Swapping(u, n)])
  {
    var a1, s1 := Extend(p, acts, s, LockTarget(t, UserK("u")));
    acts', s' := a1, s1;
  }

  lemma CommitSwap(p: Params, acts: seq<Action>, s: State, u: User, t: TxId, n: Name)
    returns (acts': seq<Action>, s': State)
    requires Reaches(p, acts, s) && ShowsUser(s, u) && !u.deleted
    requires t in s.txs && s.txs[t] == Swapping(u, n)
    ensures Reaches(p, acts', s') && ShowsUser(s', u.(picture := Some(n))) && s'.txs == s.txs - {t}
    ensures s'.names == s.names && s'.objects == s.objects
    ensures s'.deletes == s.deletes + (if u.picture.Some? then {u.picture.value} else {})
  {
    var a1, s1 := Extend(p, acts, s, Commit(t, 0));
    acts', s' := a1, s1;
  }

  /** ChangePassword begun before a picture swap and committed after it: the user row names an
      object whose delete is scheduled, and then one that is gone. */
  lemma StaleWriteReachable(p: Params) returns (acts: seq<Action>)
    ensures Run(p, Init(0), acts)
    ensures Shows(Exec(p, Init(0), acts).rows, UserK("u"), 1) && 1 !in Exec(p, Init(0), acts).objects
  {
    var a1, s1 := RegisterUser(p);
    var a2, s2 := SwapPicture(p, a1, s1, OWNER, 0, 1);
    var u := OWNER.(picture := Some(1));
    var op := ChangePassword("u", "new");
    var a3, s3 := Extend(p, a2, s2, Begin(5, op, 0));
    var a4, s4 := SwapPicture(p, a3, s3, u, 0, 2);
    acts := StaleCommit(p, a4, s4, u.(picture := Some(2)), u);
  }

  lemma StaleCommit(p: Params, acts: seq<Action>, s: State, u: User, snap: User) returns (acts': seq<Action>)
    requires Reaches(p, acts, s) && ShowsUser(s, u) && 1 in s.deletes && snap.picture == Some(1)
    requires s.txs == map[5 := Tx(ChangePassword("u", "new"), Some(snap), None, map[], None, false, false)]
    ensures Run(p, Init(0), acts')
    ensures Shows(Exec(p, Init(0), acts').rows, UserK("u"), 1) && 1 !in Exec(p, Init(0), acts').objects
  {
    var a1, s1 := LockStale(p, acts, s, u, snap);
    var a2, s2 := CommitStale(p, a1, s1, u, snap);
    var a3, s3 := Extend(p, a2, s2, DeleteObject(1, true));
    acts' := a3;
  }

  lemma LockStale(p: Params, acts: seq<Action>, s: State, u: User, snap: User) returns (acts': seq<Action>, s': State)
    requires Reaches(p, acts, s) && ShowsUser(s, u)
    requires s.txs == map[5 := Tx(ChangePassword("u", "new"), Some(snap), None, map[], None, false, false)]
    ensures Reaches(p, acts', s') && s'.rows == s.rows && s'.deletes == s.deletes
    ensures s'.txs == map[5 := Tx(ChangePassword("u", "new"), Some(snap), Some(UserK("u")),
                                  map[UserK("u") := URow(u)], Some({}), false, false)]
  {
    var a1, s1 := Extend(p, acts, s, LockTarget(5, UserK("u")));
    var a2, s2 := Extend(p, a1, s1, Scan(5));
    assert s2.txs[5].scan.value == {};
    acts', s' := a2, s2;
  }

  lemma CommitStale(p: Params, acts: seq<Action>, s: State, u: User, snap: User) returns (acts': seq<Action>, s': State)
    requires Reaches(p, acts, s) && snap.picture == Some(1)
    requires s.txs == map[5 := Tx(ChangePassword("u", "new"), Some(snap), Some(UserK("u")),
                                  map[UserK("u") := URow(u)], Some({}), false, false)]
    ensures Reaches(p, acts', s') && s'.deletes == s.deletes && Shows(s'.rows, UserK("u"), 1)
  {
    var tx := s.txs[5];
    assert Scanned(tx) && TargetRead(tx);
    assert UserK("u") in Writes(s.rows, tx, 0);
    var a1, s1 := Extend(p, acts, s, Commit(5, 0));
    acts', s' := a1, s1;
  }

  // ------------------------------------------------------------ a marker that expires too early

  /** Sign in at true time `now` with a clock reading `reading`. */
  lemma SignIn(p: Params, acts: seq<Action>, s: State, reading: Time) returns (acts': seq<Action>, s': State)
    requires Reaches(p, acts, s) && ShowsUser(s, OWNER) && s.txs == map[] && s.sessionIds == {} && 2 !in s.hashes
    requires Near(p.eps, reading, s.now)
    ensures Reaches(p, acts', s') && s'.txs == map[] && s'.now == s.now && s'.markers == s.markers
    ensures Token(s.now, SignAccessToken(reading, p.ttl, "u", "s")) in s'.tokens
    ensures SessK("s") in s'.rows && s'.rows[SessK("s")] == SRow(Session("u", 2, s.now + 1, None))
  {
    var a1, s1 := Extend(p, acts, s, Begin(0, Login("u", "s", 2, s.now + 1), reading));
    var a2, s2 := Extend(p, a1, s1, LockShared(0));
    var a3, s3 := Extend(p, a2, s2, Commit(0, 0));
    assert s3.txs == map[];
    acts', s' := a3, s3;
  }

  /** Log out and let the marker land at once. */
  lemma SignOut(p: Params, acts: seq<Action>, s: State) returns (acts': seq<Action>, s': State)
    requires Reaches(p, acts, s) && s.txs == map[]
    requires SessK("s") in s.rows && s.rows[SessK("s")] == SRow(Session("u", 2, s.now + 1, None))
    ensures Reaches(p, acts', s') && "s" in s'.ended && s'.now == s.now && s'.tokens == s.tokens
    ensures s'.markers == s.markers[SessionKey("s") := Marker("1", s.now + RevocationTTL(p.ttl))]
  {
    var a1, s1 := StartLogout(p, acts, s);
    var a2, s2 := LockLogout(p, a1, s1);
    var a3, s3 := CommitLogout(p, a2, s2);
    acts', s' := LandLogout(p, a3, s3);
  }

  lemma StartLogout(p: Params, acts: seq<Action>, s: State) returns (acts': seq<Action>, s': State)
    requires Reaches(p, acts, s) && s.txs == map[]
    ensures Reaches(p, acts', s') && s'.rows == s.rows && s'.now == s.now && s'.tokens == s.tokens &&
            s'.markers == s.markers
    ensures s'.txs == map[0 := Tx(EndSession("s"), None, None, map[], None, false, false)]
  {
    acts', s' := Extend(p, acts, s, Begin(0, EndSession("s"), 0));
  }

  lemma LockLogout(p: Params, acts: seq<Action>, s: State) returns (acts': seq<Action>, s': State)
    requires Reaches(p, acts, s) && SessK("s") in s.rows && s.rows[SessK("s")] == SRow(Session("u", 2, s.now + 1, None))
    requires s.txs == map[0 := Tx(EndSession("s"), None, None, map[], None, false, false)]
    ensures Reaches(p, acts', s')
    ensures var held := map[SessK("s") := s.rows[SessK("s")]];
            s' == s.(txs := map[0 := Tx(EndSession("s"), None, Some(SessK("s")), held, None, false, false)])
  {
    var a1, s1 := Extend(p, acts, s, LockTarget(0, SessK("s")));
    acts', s' := a1, s1;
  }

  lemma LandLogout(p: Params, acts: seq<Action>, s: State) returns (acts': seq<Action>, s': State)
    requires Reaches(p, acts, s) && "s" in s.due && Database.Revoked(s.rows, "s")
    ensures Reaches(p, acts', s') && "s" in s'.ended && s'.now == s.now && s'.tokens == s.tokens
    ensures s'.markers == s.markers[SessionKey("s") := Marker("1", s.now + RevocationTTL(p.ttl))]
  {
    var a1, s1 := Extend(p, acts, s, LandMarker("s"));
    acts', s' := a1, s1;
  }

  lemma CommitLogout(p: Params, acts: seq<Action>, s: State) returns (acts': seq<Action>, s': State)
    requires Reaches(p, acts, s) && SessK("s") in s.rows && s.rows[SessK("s")] == SRow(Session("u", 2, s.now + 1, None))
    requires s.txs == map[0 := Tx(EndSession("s"), None, Some(SessK("s")), map[SessK("s") := s.rows[SessK("s")]],
                                  None, false, false)]
    ensures Reaches(p, acts', s') && "s" in s'.due && Database.Revoked(s'.rows, "s")
    ensures s'.now == s.now && s'.tokens == s.tokens && s'.markers == s.markers
  {
    var a1, s1 := Extend(p, acts, s, Commit(0, s.now));
    acts', s' := a1, s1;
  }

  /** A session opened and ended at true time `start`, its token signed by a clock off by e. */
  lemma OpenAndEnd(p: Params, start: nat, e: int) returns (acts: seq<Action>, s: State)
    requires 0 <= e <= p.eps
    ensures Reaches(p, acts, s) && "s" in s.ended && s.now == start
    ensures s.markers == map[SessionKey("s") := Marker("1", start + RevocationTTL(p.ttl))]
    ensures Token(start, SignAccessToken(start + e, p.ttl, "u", "s")) in s.tokens
  {
    var a1, s1 := RegisterUser(p);
    var a2, s2 := Extend(p, a1, s1, Advance(start));
    var a3, s3 := SignIn(p, a2, s2, start + e);
    acts, s := SignOut(p, a3, s3);
  }

  /** When twice the clock error plus the lookup delay exceeds the skew, a token of a revoked
      session, verified just before it expires, is looked up after the marker has expired. */
  lemma LateLookupPasses(p: Params, delta: int) returns (acts: seq<Action>)
    requires p.ttl > 0 && p.eps >= 0 && delta >= 0 && 2 * p.eps + delta > 5 * SECOND
    ensures Run(p, Init(0), acts) && "s" in Exec(p, Init(0), acts).ended
    ensures !Dead(p, Exec(p, Init(0), acts), "s", delta)
  {
    var e, late := Min(p.eps, 3 * SECOND), Min(delta, 6 * SECOND);
    var expiry := FloorSecond(p.ttl) + 20 * SECOND;
    var start := expiry - e - p.ttl;
    var a1, s1 := OpenAndEnd(p, start, e);
    var a2, s2 := Extend(p, a1, s1, Advance(expiry + e - 1 + late - start));
    var tok := Token(start, SignAccessToken(start + e, p.ttl, "u", "s"));
    assert tok in s2.tokens && FloorSecond(expiry) == expiry;
    KeysDiffer("u", "s");
    assert GetsThrough(p, s2, tok.claims, delta, expiry + e - 1, expiry - 1, true);
    acts := a2;
  }

  ghost predicate AlwaysDead(p: Params, delta: int) {
    forall start, acts, id :: Run(p, Init(start), acts) && id in Exec(p, Init(start), acts).ended ==>
                                Dead(p, Exec(p, Init(start), acts), id, delta)
  }

  /** Exactly when a revoked session stays dead: the skew must cover twice the clock error plus the
      delay between verifying a token and looking its markers up. */
  lemma DeadExactly(p: Params, delta: int)
    requires p.ttl > 0 && p.eps >= 0 && delta >= 0
    ensures AlwaysDead(p, delta) <==> 2 * p.eps + delta <= 5_000_000_000
  {
    if 2 * p.eps + delta <= 5 * SECOND {
      forall start, acts, id | Run(p, Init(start), acts) && id in Exec(p, Init(start), acts).ended
        ensures Dead(p, Exec(p, Init(start), acts), id, delta)
      {
        EndRun(p, Init(start), acts);
        EndedIsDead(p, Exec(p, Init(start), acts), id, delta);
      }
    } else {
      var acts := LateLookupPasses(p, delta);
    }
  }
}
