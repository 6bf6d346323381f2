/**
 Sessions under row locks: what a commit may do to a session row, and the safety of refresh
 rotation over all interleavings.
 */
module Sessions {
  import opened Options
  import opened Database
  import opened Locking

  ghost predicate IsSession(rows: Rows, k: Key) {
    k in rows && rows[k].SRow?
  }

  /** The sessions a transaction may revoke: the one it ends, before its expiry, or those of the user
      whose sessions it revokes in bulk. */
  ghost predicate MayRevoke(tx: Tx, at: Time, k: Key, s: Session) {
    if tx.op.EndSession? then k == SessK(tx.op.session) && at <= s.expires
    else
      && (tx.op.RevokeUserSessions? || tx.op.ResetPassword? || tx.op.ChangePassword? || tx.op.DeleteUser?)
      && Subject(tx) == Some(s.owner)
  }

  /** The three things a commit may do to a session row: rotate its secret, revoke it, create it. */
  ghost predicate SessionChange(rows: Rows, tx: Tx, at: Time, k: Key, r: Session) {
    || (tx.op.Refresh? && IsSession(rows, k) && tx.target == Some(k)
        && rows[k].s.revoked.None? && rows[k].s.hash == tx.op.hash && at <= rows[k].s.expires
        && r == rows[k].s.(hash := tx.op.next))
    || (IsSession(rows, k) && MayRevoke(tx, at, k, rows[k].s) && rows[k].s.revoked.None?
        && r == rows[k].s.(revoked := Some(at)))
    || (tx.op.Login? && k !in rows && k == SessK(tx.op.session)
        && r == Session(tx.op.user, tx.op.hash, tx.op.expires, None))
  }

  ghost predicate HeldCurrent(rows: Rows, tx: Tx) {
    forall k :: k in tx.held ==> k in rows && rows[k] == tx.held[k]
  }

  lemma SessionWritten(rows: Rows, tx: Tx, at: Time, k: Key)
    requires Ready(rows, tx, at) && HeldCurrent(rows, tx) && k in Writes(rows, tx, at)
    ensures Writes(rows, tx, at)[k].SRow? ==> SessionChange(rows, tx, at, k, Writes(rows, tx, at)[k].s)
    ensures IsSession(rows, k) ==> Writes(rows, tx, at)[k].SRow?
  {
  }

  /** Row k of `rows'` is the row k of `rows`, or what transaction tx made of it. */
  ghost predicate Evolves(rows: Rows, rows': Rows, tx: Tx, at: Time, k: Key) {
    IsSession(rows', k) ==>
      || (IsSession(rows, k) && rows'[k] == rows[k])
      || SessionChange(rows, tx, at, k, rows'[k].s)
  }

  /** Session rows change only at commits, and only in those three ways. */
  lemma SessionStep(p: Params, s: State, a: Action, k: Key)
    requires LockInv(s) && Enabled(p, s, a)
    ensures var s' := Apply(p, s, a);
            && (a.Commit? ==> Evolves(s.rows, s'.rows, s.txs[a.t], a.at, k))
            && (!a.Commit? ==> s'.rows == s.rows)
            && (IsSession(s.rows, k) ==> IsSession(s'.rows, k))
  {
    if a.Commit? {
      assert Current(s, a.t);
      if k in Writes(s.rows, s.txs[a.t], a.at) { SessionWritten(s.rows, s.txs[a.t], a.at, k); }
    }
  }

  lemma {:induction false} LockRun(p: Params, s: State, acts: seq<Action>)
    requires LockInv(s) && Run(p, s, acts)
    ensures LockInv(Exec(p, s, acts))
    decreases |acts|
  {
    if acts != [] {
      LockStep(p, s, acts[0]);
      LockRun(p, Apply(p, s, acts[0]), acts[1..]);
    }
  }

  /**
   A session row keeps its owner and expiry for ever, and once `revoked_at` is set it is never
   cleared or moved, although UpdateSession rewrites the column on every refresh.
   */
  lemma {:induction false} RevocationSticks(p: Params, s: State, acts: seq<Action>, k: Key)
    requires LockInv(s) && Run(p, s, acts) && IsSession(s.rows, k)
    ensures var s' := Exec(p, s, acts);
            && IsSession(s'.rows, k)
            && s'.rows[k].s.owner == s.rows[k].s.owner && s'.rows[k].s.expires == s.rows[k].s.expires
            && (s.rows[k].s.revoked.Some? ==> s'.rows[k] == s.rows[k])
    decreases |acts|
  {
    if acts != [] {
      LockStep(p, s, acts[0]);
      SessionStep(p, s, acts[0], k);
      RevocationSticks(p, Apply(p, s, acts[0]), acts[1..], k);
    }
  }

  // ------------------------------------------------------------ rotation

  /** No session row carries h. */
  ghost predicate Retired(rows: Rows, h: Hash) {
    forall k :: IsSession(rows, k) ==> rows[k].s.hash != h
  }

  ghost predicate Spends(e: Entry, h: Hash) {
    e.op.Refresh? && e.op.hash == h
  }

  ghost predicate NeverSpent(log: seq<Entry>, h: Hash) {
    forall i :: 0 <= i < |log| ==> !Spends(log[i], h)
  }

  ghost predicate UniqueHash(rows: Rows, k: Key, l: Key) {
    IsSession(rows, k) && IsSession(rows, l) && rows[k].s.hash == rows[l].s.hash ==> k == l
  }

  /** A secret generated by a transaction in progress is on no row and was never presented. */
  ghost predicate FreshSecret(s: State, t: TxId, h: Hash) {
    t in s.txs && h in Generated(s.txs[t].op) ==>
      h in s.hashes && Retired(s.rows, h) && NeverSpent(s.log, h)
  }

  /** Every secret on a row was generated, and no two rows share one. */
  ghost predicate RowSecrets(s: State) {
    && (forall k :: IsSession(s.rows, k) ==> s.rows[k].s.hash in s.hashes)
    && (forall k, l :: UniqueHash(s.rows, k, l))
  }

  /** Secrets already spent are on no row; secrets being generated are nobody else's. */
  ghost predicate OtherSecrets(s: State) {
    && (forall i :: 0 <= i < |s.log| && s.log[i].op.Refresh? ==>
                      s.log[i].op.hash in s.hashes && Retired(s.rows, s.log[i].op.hash))
    && (forall t, h :: FreshSecret(s, t, h))
    && (forall t, u, h :: t in s.txs && u in s.txs && h in Generated(s.txs[t].op) && h in Generated(s.txs[u].op) ==>
                            t == u)
  }

  ghost predicate RotationInv(s: State) {
    LockInv(s) && RowSecrets(s) && OtherSecrets(s)
  }

  /** A hash that is on no row and is not being generated stays off the rows. */
  lemma RetiredStep(p: Params, s: State, a: Action, h: Hash)
    requires LockInv(s) && Enabled(p, s, a) && Retired(s.rows, h)
    requires a.Commit? ==> h !in Generated(s.txs[a.t].op)
    ensures Retired(Apply(p, s, a).rows, h)
  {
    forall k | IsSession(Apply(p, s, a).rows, k) ensures Apply(p, s, a).rows[k].s.hash != h {
      SessionStep(p, s, a, k);
    }
  }

  lemma UniqueChange(rows: Rows, rows': Rows, tx: Tx, at: Time, k: Key, l: Key)
    requires Evolves(rows, rows', tx, at, k) && Evolves(rows, rows', tx, at, l) && UniqueHash(rows, k, l)
    requires tx.op.Refresh? ==> Retired(rows, tx.op.next)
    requires tx.op.Login? ==> Retired(rows, tx.op.hash)
    ensures UniqueHash(rows', k, l)
  {
  }

  lemma UniqueStep(p: Params, s: State, a: Action, k: Key, l: Key)
    requires RotationInv(s) && Enabled(p, s, a)
    ensures UniqueHash(Apply(p, s, a).rows, k, l)
  {
    SessionStep(p, s, a, k);
    SessionStep(p, s, a, l);
    assert UniqueHash(s.rows, k, l);
    if a.Commit? {
      var op := s.txs[a.t].op;
      assert op.Refresh? ==> FreshSecret(s, a.t, op.next);
      assert op.Login? ==> FreshSecret(s, a.t, op.hash);
      UniqueChange(s.rows, Apply(p, s, a).rows, s.txs[a.t], a.at, k, l);
    }
  }

  lemma FreshStep(p: Params, s: State, a: Action, t: TxId, h: Hash)
    requires RotationInv(s) && Enabled(p, s, a)
    ensures FreshSecret(Apply(p, s, a), t, h)
  {
    var s' := Apply(p, s, a);
    if t in s'.txs && h in Generated(s'.txs[t].op) {
      if t in s.txs {
        assert s'.txs[t].op == s.txs[t].op;
        assert FreshSecret(s, t, h);
        RetiredStep(p, s, a, h);
        SpentStep(p, s, a, h);
      } else {
        assert h !in s.hashes;
        RetiredStep(p, s, a, h);
      }
    }
  }

  /** Only a secret on a row can be spent. */
  lemma SpentStep(p: Params, s: State, a: Action, h: Hash)
    requires LockInv(s) && Enabled(p, s, a) && Retired(s.rows, h) && NeverSpent(s.log, h)
    ensures NeverSpent(Apply(p, s, a).log, h)
  {
    if a.Commit? && s.txs[a.t].op.Refresh? {
      assert Current(s, a.t);
      assert IsSession(s.rows, s.txs[a.t].target.value);
    }
  }

  lemma LogStep(p: Params, s: State, a: Action, i: nat)
    requires RotationInv(s) && Enabled(p, s, a)
    requires i < |Apply(p, s, a).log| && Apply(p, s, a).log[i].op.Refresh?
    ensures Apply(p, s, a).log[i].op.hash in Apply(p, s, a).hashes &&
            Retired(Apply(p, s, a).rows, Apply(p, s, a).log[i].op.hash)
  {
    var s' := Apply(p, s, a);
    var h := s'.log[i].op.hash;
    if i < |s.log| {
      assert s'.log[i] == s.log[i];
      if a.Commit? {
        forall g | g in Generated(s.txs[a.t].op) ensures g != h {
          assert FreshSecret(s, a.t, g);
          assert !Spends(s.log[i], g);
        }
      }
      RetiredStep(p, s, a, h);
    } else {
      SpentNow(p, s, a);
    }
  }

  /** A refresh takes its secret off the only row that carried it. */
  lemma SpentNow(p: Params, s: State, a: Action)
    requires RotationInv(s) && Enabled(p, s, a) && a.Commit? && s.txs[a.t].op.Refresh?
    ensures s.txs[a.t].op.hash in s.hashes && Retired(Apply(p, s, a).rows, s.txs[a.t].op.hash)
  {
    var tx := s.txs[a.t];
    var k0 := tx.target.value;
    assert Current(s, a.t) && IsSession(s.rows, k0) && s.rows[k0].s.hash == tx.op.hash;
    assert FreshSecret(s, a.t, tx.op.next);
    forall k | IsSession(Apply(p, s, a).rows, k) ensures Apply(p, s, a).rows[k].s.hash != tx.op.hash {
      SessionStep(p, s, a, k);
      assert UniqueHash(s.rows, k, k0);
    }
  }

  lemma RowSecretsStep(p: Params, s: State, a: Action)
    requires RotationInv(s) && Enabled(p, s, a)
    ensures RowSecrets(Apply(p, s, a))
  {
    var s' := Apply(p, s, a);
    forall k | IsSession(s'.rows, k) ensures s'.rows[k].s.hash in s'.hashes {
      KnownHashStep(p, s, a, k);
    }
    forall k, l ensures UniqueHash(s'.rows, k, l) {
      UniqueStep(p, s, a, k, l);
    }
  }

  lemma OtherSecretsStep(p: Params, s: State, a: Action)
    requires RotationInv(s) && Enabled(p, s, a)
    ensures OtherSecrets(Apply(p, s, a))
  {
    var s' := Apply(p, s, a);
    forall i | 0 <= i < |s'.log| && s'.log[i].op.Refresh?
      ensures s'.log[i].op.hash in s'.hashes && Retired(s'.rows, s'.log[i].op.hash)
    {
      LogStep(p, s, a, i);
    }
    forall t, h ensures FreshSecret(s', t, h) {
      FreshStep(p, s, a, t, h);
    }
    forall t, u, h | t in s'.txs && u in s'.txs && h in Generated(s'.txs[t].op) && h in Generated(s'.txs[u].op)
      ensures t == u
    {
      OwnSecretStep(p, s, a, t, u, h);
    }
  }

  lemma RotationStep(p: Params, s: State, a: Action)
    requires RotationInv(s) && Enabled(p, s, a)
    ensures RotationInv(Apply(p, s, a))
  {
    LockStep(p, s, a);
    RowSecretsStep(p, s, a);
    OtherSecretsStep(p, s, a);
  }

  lemma KnownHashStep(p: Params, s: State, a: Action, k: Key)
    requires RotationInv(s) && Enabled(p, s, a) && IsSession(Apply(p, s, a).rows, k)
    ensures Apply(p, s, a).rows[k].s.hash in Apply(p, s, a).hashes
  {
    SessionStep(p, s, a, k);
    if a.Commit? {
      var op := s.txs[a.t].op;
      assert op.Refresh? ==> FreshSecret(s, a.t, op.next);
      assert op.Login? ==> FreshSecret(s, a.t, op.hash);
    }
  }

  lemma OwnSecretStep(p: Params, s: State, a: Action, t: TxId, u: TxId, h: Hash)
    requires RotationInv(s) && Enabled(p, s, a)
    requires var s' := Apply(p, s, a);
             t in s'.txs && u in s'.txs && h in Generated(s'.txs[t].op) && h in Generated(s'.txs[u].op)
    ensures t == u
  {
    assert FreshSecret(s, t, h) && FreshSecret(s, u, h);
  }

  lemma {:induction false} RotationRun(p: Params, s: State, acts: seq<Action>)
    requires RotationInv(s) && Run(p, s, acts)
    ensures RotationInv(Exec(p, s, acts))
    decreases |acts|
  {
    if acts != [] {
      RotationStep(p, s, acts[0]);
      RotationRun(p, Apply(p, s, acts[0]), acts[1..]);
    }
  }

  /** A secret is spent when the log says so; a commit that spends it again is impossible. */
  ghost predicate SpentOnce(log: seq<Entry>) {
    forall i, j :: 0 <= i < j < |log| && log[i].op.Refresh? && log[j].op.Refresh? ==> log[i].op.hash != log[j].op.hash
  }

  lemma SpentOnceStep(p: Params, s: State, a: Action)
    requires RotationInv(s) && SpentOnce(s.log) && Enabled(p, s, a)
    ensures SpentOnce(Apply(p, s, a).log)
  {
    if a.Commit? && s.txs[a.t].op.Refresh? {
      var k0 := s.txs[a.t].target.value;
      assert Current(s, a.t) && IsSession(s.rows, k0) && s.rows[k0].s.hash == s.txs[a.t].op.hash;
      forall i | 0 <= i < |s.log| && s.log[i].op.Refresh? ensures s.log[i].op.hash != s.txs[a.t].op.hash {
        assert Retired(s.rows, s.log[i].op.hash);
      }
    }
  }

  lemma {:induction false} SpentOnceRun(p: Params, s: State, acts: seq<Action>)
    requires RotationInv(s) && SpentOnce(s.log) && Run(p, s, acts)
    ensures SpentOnce(Exec(p, s, acts).log)
    decreases |acts|
  {
    if acts != [] {
      SpentOnceStep(p, s, acts[0]);
      RotationStep(p, s, acts[0]);
      SpentOnceRun(p, Apply(p, s, acts[0]), acts[1..]);
    }
  }

  /** Over every interleaving of every operation, each refresh token yields at most one new pair. */
  lemma RefreshAtMostOnce(p: Params, start: Time, acts: seq<Action>)
    requires Run(p, Init(start), acts)
    ensures SpentOnce(Exec(p, Init(start), acts).log)
  {
    SpentOnceRun(p, Init(start), acts);
  }

  /** The session a refresh rotates is unrevoked and its user not deleted at the very moment it commits. */
  lemma RefreshNeedsLiveUser(p: Params, start: Time, acts: seq<Action>, a: Action)
    requires Run(p, Init(start), acts)
    requires var s := Exec(p, Init(start), acts); Enabled(p, s, a) && a.Commit? && s.txs[a.t].op.Refresh?
    ensures var s := Exec(p, Init(start), acts);
            var k := s.txs[a.t].target.value;
            && IsSession(s.rows, k) && s.rows[k].s.hash == s.txs[a.t].op.hash && s.rows[k].s.revoked.None?
            && LiveUser(s.rows, s.rows[k].s.owner)
  {
    LockRun(p, Init(start), acts);
    assert Current(Exec(p, Init(start), acts), a.t);
  }
}
