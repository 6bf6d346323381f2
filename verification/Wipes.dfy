/**
 Bulk revocation under concurrency: RevokeUserSessions, ResetPassword, ChangePassword and DeleteUser
 revoke, for good, every session of the user that existed when their UPDATE took its snapshot,
 whatever refreshes, logins and logouts run beside them; and of the sessions that exist when they
 commit they spare exactly those inserted since.
 */
module Wipes {
  import opened Options
  import opened Database
  import opened Locking
  import opened Sessions
  import opened Serial

  /** Transaction `now` has gone on from `was`, past its bulk UPDATE's snapshot. */
  ghost predicate Continues(was: Tx, now: Tx) {
    && now.op == was.op && now.target == was.target && now.snap == was.snap && now.scan == was.scan
    && forall k :: k in was.held ==> k in now.held && now.held[k] == was.held[k]
  }

  ghost predicate Ends(a: Action, t: TxId) {
    (a.Commit? || a.Abort?) && a.t == t
  }

  lemma ContinuesStep(p: Params, s: State, a: Action, t: TxId)
    requires Enabled(p, s, a) && !Ends(a, t) && t in s.txs && s.txs[t].scan.Some?
    ensures t in Apply(p, s, a).txs && Continues(s.txs[t], Apply(p, s, a).txs[t])
  {
  }

  ghost predicate StaysOpen(acts: seq<Action>, t: TxId) {
    forall i :: 0 <= i < |acts| ==> !Ends(acts[i], t)
  }

  lemma {:induction false} ContinuesRun(p: Params, s: State, acts: seq<Action>, t: TxId)
    requires Run(p, s, acts) && StaysOpen(acts, t) && t in s.txs && s.txs[t].scan.Some?
    ensures t in Exec(p, s, acts).txs && Continues(s.txs[t], Exec(p, s, acts).txs[t])
    decreases |acts|
  {
    if acts != [] {
      ContinuesStep(p, s, acts[0], t);
      assert StaysOpen(acts[1..], t);
      ContinuesRun(p, Apply(p, s, acts[0]), acts[1..], t);
    }
  }

  /** The bulk update belongs to sessions, and will be written. */
  ghost predicate WipesSessions(tx: Tx) {
    WritesBulk(tx) && !tx.op.Register? && Subject(tx).Some?
  }

  lemma SameSubject(was: Tx, now: Tx)
    requires Continues(was, now) && (was.target.Some? ==> TargetRead(was))
    ensures Subject(now) == Subject(was)
  {
  }

  /** What the commit does to a session of the user: revoked if it was in the snapshot, and as it
      was if it was not. */
  lemma WipeWrites(p: Params, s: State, a: Action, k: Key)
    requires LockInv(s) && Enabled(p, s, a) && a.Commit? && WipesSessions(s.txs[a.t])
    requires k.SessK? && IsSession(s.rows, k) && Subject(s.txs[a.t]) == Some(s.rows[k].s.owner)
    ensures var s' := Apply(p, s, a);
            && IsSession(s'.rows, k)
            && (k in s.txs[a.t].scan.value ==> s'.rows[k].s.revoked.Some?)
            && (k !in s.txs[a.t].scan.value ==> s'.rows[k] == s.rows[k])
  {
    var tx := s.txs[a.t];
    assert Current(s, a.t);
    SessionStep(p, s, a, k);
    BulkIs(s.rows, tx, a.at);
    if k in tx.scan.value && s.rows[k].s.revoked.None? {
      assert k in Revoking(s.rows, tx, tx.scan.value, a.at);
      assert k in Writes(s.rows, tx, a.at);
    }
    if k !in tx.scan.value { assert k !in Writes(s.rows, tx, a.at); }
  }

  /** The state after the snapshot, the run up to the commit, and the state after it. */
  ghost predicate Wipe(p: Params, s: State, t: TxId, acts: seq<Action>, at: Time) {
    && Enabled(p, s, Scan(t)) && Run(p, Apply(p, s, Scan(t)), acts) && StaysOpen(acts, t)
    && var s2 := Exec(p, Apply(p, s, Scan(t)), acts);
    Enabled(p, s2, Commit(t, at)) && WipesSessions(s2.txs[t])
  }

  /** A session of the user that exists at the commit was in the snapshot exactly when it existed, not
      yet revoked, at the snapshot. */
  lemma InSnapshot(p: Params, s: State, t: TxId, acts: seq<Action>, at: Time, k: Key)
    requires LockInv(s) && Wipe(p, s, t, acts, at)
    requires var s2 := Exec(p, Apply(p, s, Scan(t)), acts);
             k.SessK? && IsSession(s2.rows, k) && Subject(s2.txs[t]) == Some(s2.rows[k].s.owner)
    ensures var s2 := Exec(p, Apply(p, s, Scan(t)), acts);
            k in s2.txs[t].scan.value <==> IsSession(s.rows, k) && s.rows[k].s.revoked.None?
  {
    var s1 := Apply(p, s, Scan(t));
    var s2 := Exec(p, s1, acts);
    LockStep(p, s, Scan(t));
    ContinuesRun(p, s1, acts, t);
    SameSubject(s1.txs[t], s2.txs[t]);
    if IsSession(s.rows, k) { RevocationSticks(p, s1, acts, k); }
    ScanIs(p, s, t, k);
  }

  lemma ScanIs(p: Params, s: State, t: TxId, k: Key)
    requires Enabled(p, s, Scan(t))
    ensures var s1 := Apply(p, s, Scan(t));
            && s1.rows == s.rows && s1.txs[t].scan.Some? && Subject(s1.txs[t]) == Subject(s.txs[t])
            && (k in s1.txs[t].scan.value <==> k in s.rows && Matches(s.txs[t], k, s.rows[k]))
  {
  }

  /** Of the user's sessions that exist at the commit, exactly those inserted since the snapshot, and
      not revoked by someone else, are unrevoked after it. */
  lemma WipeExactly(p: Params, s: State, t: TxId, acts: seq<Action>, at: Time, k: Key)
    requires LockInv(s) && Wipe(p, s, t, acts, at)
    requires var s2 := Exec(p, Apply(p, s, Scan(t)), acts);
             k.SessK? && IsSession(s2.rows, k) && Subject(s2.txs[t]) == Some(s2.rows[k].s.owner)
    ensures var s2 := Exec(p, Apply(p, s, Scan(t)), acts);
            var s3 := Apply(p, s2, Commit(t, at));
            && IsSession(s3.rows, k)
            && (s3.rows[k].s.revoked.None? <==> !IsSession(s.rows, k) && s2.rows[k].s.revoked.None?)
  {
    var s1 := Apply(p, s, Scan(t));
    var s2 := Exec(p, s1, acts);
    LockStep(p, s, Scan(t));
    LockRun(p, s1, acts);
    WipeWrites(p, s2, Commit(t, at), k);
    InSnapshot(p, s, t, acts, at, k);
    if IsSession(s.rows, k) { RevocationSticks(p, s1, acts, k); }
  }

  /** Every session of the user that existed at the snapshot is revoked in every state after the commit. */
  lemma WipedForGood(p: Params, s: State, t: TxId, acts: seq<Action>, at: Time, after: seq<Action>, k: Key)
    requires LockInv(s) && Wipe(p, s, t, acts, at)
    requires Run(p, Apply(p, Exec(p, Apply(p, s, Scan(t)), acts), Commit(t, at)), after)
    requires k.SessK? && IsSession(s.rows, k) && Subject(s.txs[t]) == Some(s.rows[k].s.owner)
    ensures var s4 := Exec(p, Apply(p, Exec(p, Apply(p, s, Scan(t)), acts), Commit(t, at)), after);
            IsSession(s4.rows, k) && s4.rows[k].s.revoked.Some?
  {
    var s1 := Apply(p, s, Scan(t));
    var s2 := Exec(p, s1, acts);
    var s3 := Apply(p, s2, Commit(t, at));
    LockStep(p, s, Scan(t));
    LockRun(p, s1, acts);
    LockStep(p, s2, Commit(t, at));
    ScanIs(p, s, t, k);
    ContinuesRun(p, s1, acts, t);
    SameSubject(s1.txs[t], s2.txs[t]);
    RevocationSticks(p, s1, acts, k);
    WipeExactly(p, s, t, acts, at, k);
    RevocationSticks(p, s3, after, k);
  }

  /** ResetPassword and DeleteUser spare no one: in every run, every session of the user that exists
      when they commit is revoked after it. */
  lemma WipesEverySession(p: Params, start: Time, acts: seq<Action>, a: Action, k: Key)
    requires Run(p, Init(start), acts)
    requires var s := Exec(p, Init(start), acts);
             && Enabled(p, s, a) && a.Commit? && WipesSessions(s.txs[a.t])
             && (s.txs[a.t].op.ResetPassword? || s.txs[a.t].op.DeleteUser?)
             && k.SessK? && IsSession(s.rows, k) && Subject(s.txs[a.t]) == Some(s.rows[k].s.owner)
    ensures var s' := Apply(p, Exec(p, Init(start), acts), a); IsSession(s'.rows, k) && s'.rows[k].s.revoked.Some?
  {
    var s := Exec(p, Init(start), acts);
    LockRun(p, Init(start), acts);
    ShieldRun(p, Init(start), acts, a.t);
    WipeWrites(p, s, a, k);
  }
}
