/**
 Registration and recovery tokens take effect at most once: a token is marked used exactly when
 a committed operation consumed it, under every interleaving.
 */
module OneShot {
  import opened Options
  import opened Database
  import opened Locking
  import opened Sessions

  ghost predicate IsInvite(rows: Rows, k: Key) {
    k.RegK? && k in rows && rows[k].GRow?
  }

  ghost predicate IsRecovery(rows: Rows, k: Key) {
    k.RecK? && k in rows && rows[k].CRow?
  }

  /** Consumed by its completion, superseded by a newer invitation, or created unmarked. */
  ghost predicate InviteChange(rows: Rows, tx: Tx, at: Time, k: Key, g: Registration) {
    || (tx.op.CompleteRegistration? && tx.target == Some(k) && IsInvite(rows, k) && Open(rows[k].g)
        && g == rows[k].g.(used := Some(at)))
    || (tx.op.Register? && IsInvite(rows, k) && Open(rows[k].g) && rows[k].g.email == tx.op.email
        && g == rows[k].g.(revoked := Some(at)))
    || (tx.op.Register? && k !in rows && k == RegK(tx.op.id)
        && g == Registration(tx.op.email, tx.op.invitee, tx.op.hash, tx.op.expires, None, None))
  }

  ghost predicate RecoveryChange(rows: Rows, tx: Tx, at: Time, k: Key, c: Recovery) {
    || (tx.op.ResetPassword? && tx.target == Some(k) && IsRecovery(rows, k) && rows[k].c.used.None?
        && c == rows[k].c.(used := Some(at)))
    || (tx.op.RecoverPassword? && k !in rows && k == RecK(tx.op.id)
        && c == Recovery(tx.op.user, tx.op.hash, tx.op.expires, None))
  }

  /** Neither used nor revoked. */
  ghost predicate Open(g: Registration) {
    g.used.None? && g.revoked.None?
  }

  lemma InviteWritten(rows: Rows, tx: Tx, at: Time, k: Key)
    requires Ready(rows, tx, at) && HeldCurrent(rows, tx) && k in Writes(rows, tx, at)
    ensures k.RegK? && Writes(rows, tx, at)[k].GRow? ==> InviteChange(rows, tx, at, k, Writes(rows, tx, at)[k].g)
    ensures IsInvite(rows, k) ==> Writes(rows, tx, at)[k].GRow?
  {
  }

  lemma RecoveryWritten(rows: Rows, tx: Tx, at: Time, k: Key)
    requires Ready(rows, tx, at) && HeldCurrent(rows, tx) && k in Writes(rows, tx, at)
    ensures k.RecK? && Writes(rows, tx, at)[k].CRow? ==> RecoveryChange(rows, tx, at, k, Writes(rows, tx, at)[k].c)
    ensures IsRecovery(rows, k) ==> Writes(rows, tx, at)[k].CRow?
  {
  }

  lemma InviteStep(p: Params, s: State, a: Action, k: Key)
    requires LockInv(s) && Enabled(p, s, a)
    ensures var s' := Apply(p, s, a);
            && (a.Commit? && IsInvite(s'.rows, k) ==>
                  (IsInvite(s.rows, k) && s'.rows[k] == s.rows[k]) ||
                  InviteChange(s.rows, s.txs[a.t], a.at, k, s'.rows[k].g))
            && (!a.Commit? ==> s'.rows == s.rows)
            && (IsInvite(s.rows, k) ==> IsInvite(s'.rows, k))
  {
    if a.Commit? {
      assert Current(s, a.t);
      if k in Writes(s.rows, s.txs[a.t], a.at) { InviteWritten(s.rows, s.txs[a.t], a.at, k); }
    }
  }

  lemma RecoveryStep(p: Params, s: State, a: Action, k: Key)
    requires LockInv(s) && Enabled(p, s, a)
    ensures var s' := Apply(p, s, a);
            && (a.Commit? && IsRecovery(s'.rows, k) ==>
                  (IsRecovery(s.rows, k) && s'.rows[k] == s.rows[k]) ||
                  RecoveryChange(s.rows, s.txs[a.t], a.at, k, s'.rows[k].c))
            && (!a.Commit? ==> s'.rows == s.rows)
            && (IsRecovery(s.rows, k) ==> IsRecovery(s'.rows, k))
  {
    if a.Commit? {
      assert Current(s, a.t);
      if k in Writes(s.rows, s.txs[a.t], a.at) { RecoveryWritten(s.rows, s.txs[a.t], a.at, k); }
    }
  }

  // ------------------------------------------------------------ at most once

  ghost predicate Consumes(e: Entry, k: Key) {
    (e.op.CompleteRegistration? || e.op.ResetPassword?) && e.target == Some(k)
  }

  /** How many committed operations consumed token k. */
  ghost function Times(log: seq<Entry>, k: Key): nat {
    if log == [] then 0
    else Times(log[..|log| - 1], k) + (if Consumes(log[|log| - 1], k) then 1 else 0)
  }

  ghost predicate Marked(rows: Rows, k: Key) {
    (IsInvite(rows, k) && rows[k].g.used.Some?) || (IsRecovery(rows, k) && rows[k].c.used.Some?)
  }

  ghost predicate Tallied(s: State, k: Key) {
    Times(s.log, k) == if Marked(s.rows, k) then 1 else 0
  }

  /** A consuming commit finds its token unmarked and leaves it marked; any other leaves the mark alone. */
  lemma MarkStep(p: Params, s: State, a: Action, k: Key)
    requires LockInv(s) && Enabled(p, s, a) && a.Commit?
    ensures var tx, s' := s.txs[a.t], Apply(p, s, a);
            if (tx.op.CompleteRegistration? || tx.op.ResetPassword?) && tx.target == Some(k)
            then !Marked(s.rows, k) && Marked(s'.rows, k)
            else Marked(s'.rows, k) == Marked(s.rows, k)
  {
    assert Current(s, a.t);
    InviteStep(p, s, a, k);
    RecoveryStep(p, s, a, k);
    var tx := s.txs[a.t];
    if tx.target == Some(k) && (tx.op.CompleteRegistration? || tx.op.ResetPassword?) {
      assert k in Writes(s.rows, tx, a.at);
    }
  }

  lemma TallyStep(p: Params, s: State, a: Action, k: Key)
    requires LockInv(s) && Enabled(p, s, a) && Tallied(s, k)
    ensures Tallied(Apply(p, s, a), k)
  {
    if a.Commit? {
      MarkStep(p, s, a, k);
      var s' := Apply(p, s, a);
      assert s'.log[..|s'.log| - 1] == s.log;
    }
  }

  lemma {:induction false} TallyRun(p: Params, s: State, acts: seq<Action>, k: Key)
    requires LockInv(s) && Run(p, s, acts) && Tallied(s, k)
    ensures Tallied(Exec(p, s, acts), k)
    decreases |acts|
  {
    if acts != [] {
      LockStep(p, s, acts[0]);
      TallyStep(p, s, acts[0], k);
      TallyRun(p, Apply(p, s, acts[0]), acts[1..], k);
    }
  }

  /**
   In every run a registration or recovery token is consumed at most once, and it carries a used
   mark exactly when a committed operation consumed it: rolled-back attempts leave no mark.
   */
  lemma ConsumedAtMostOnce(p: Params, start: Time, acts: seq<Action>, k: Key)
    requires Run(p, Init(start), acts)
    ensures var s := Exec(p, Init(start), acts);
            Times(s.log, k) <= 1 && (Times(s.log, k) == 1 <==> Marked(s.rows, k))
  {
    TallyRun(p, Init(start), acts, k);
  }

  // ------------------------------------------------------------ used or revoked, never both

  ghost predicate NotBoth(rows: Rows, k: Key) {
    IsInvite(rows, k) ==> rows[k].g.used.None? || rows[k].g.revoked.None?
  }

  lemma {:induction false} NeverBoth(p: Params, s: State, acts: seq<Action>, k: Key)
    requires LockInv(s) && Run(p, s, acts) && NotBoth(s.rows, k)
    ensures NotBoth(Exec(p, s, acts).rows, k)
    decreases |acts|
  {
    if acts != [] {
      LockStep(p, s, acts[0]);
      InviteStep(p, s, acts[0], k);
      NeverBoth(p, Apply(p, s, acts[0]), acts[1..], k);
    }
  }

  // ------------------------------------------------------------ latest invitation wins

  ghost predicate OpenFor(rows: Rows, k: Key, email: string) {
    IsInvite(rows, k) && rows[k].g.email == email && Open(rows[k].g)
  }

  ghost predicate RegistersFor(s: State, t: TxId, email: string) {
    t in s.txs && s.txs[t].op.Register? && s.txs[t].op.email == email
  }

  /** At most one Register for the e-mail is in progress. */
  ghost predicate SoloRegister(s: State, email: string) {
    forall t, u :: RegistersFor(s, t, email) && RegistersFor(s, u, email) ==> t == u
  }

  ghost predicate SoloRun(p: Params, s: State, acts: seq<Action>, email: string)
    decreases |acts|
  {
    && SoloRegister(s, email)
    && (acts == [] || (Enabled(p, s, acts[0]) && SoloRun(p, Apply(p, s, acts[0]), acts[1..], email)))
  }

  ghost predicate OneOpen(rows: Rows, email: string) {
    forall k, l :: OpenFor(rows, k, email) && OpenFor(rows, l, email) ==> k == l
  }

  ghost predicate Supersedes(s: State, a: Action, email: string) {
    a.Commit? && RegistersFor(s, a.t, email)
  }

  /** The statement snapshot of registration t holds every invitation open now. */
  ghost predicate HasAllOpen(s: State, t: TxId, email: string)
    requires t in s.txs
  {
    s.txs[t].scan.Some? && forall k :: OpenFor(s.rows, k, email) ==> k in s.txs[t].scan.value
  }

  /** No commit but that of a Register for the e-mail opens an invitation for it. */
  lemma NoneOpens(p: Params, s: State, a: Action, k: Key, email: string)
    requires LockInv(s) && Enabled(p, s, a) && !Supersedes(s, a, email) && OpenFor(Apply(p, s, a).rows, k, email)
    ensures OpenFor(s.rows, k, email)
  {
    InviteStep(p, s, a, k);
  }

  /** After a Register commits its own invitation is open, and beside it exactly those that were open
      and not in its snapshot. */
  lemma OpenAfterRegister(p: Params, s: State, a: Action, k: Key, email: string)
    requires LockInv(s) && Enabled(p, s, a) && Supersedes(s, a, email)
    ensures OpenFor(Apply(p, s, a).rows, k, email) <==>
            k == RegK(s.txs[a.t].op.id) || (OpenFor(s.rows, k, email) && k !in s.txs[a.t].scan.value)
  {
    var tx := s.txs[a.t];
    assert Current(s, a.t);
    InviteStep(p, s, a, k);
    assert RegK(tx.op.id) in Writes(s.rows, tx, a.at);
    if k in tx.scan.value && OpenFor(s.rows, k, email) {
      assert k in BulkRevoked(tx, a.at) && k in Writes(s.rows, tx, a.at);
    }
  }

  /** The exact condition, registration by registration: its commit leaves one open invitation if and
      only if its snapshot holds every invitation open at the commit. */
  lemma OneOpenExactly(p: Params, s: State, a: Action, email: string)
    requires LockInv(s) && Enabled(p, s, a) && Supersedes(s, a, email)
    ensures OneOpen(Apply(p, s, a).rows, email) <==> HasAllOpen(s, a.t, email)
  {
    var own := RegK(s.txs[a.t].op.id);
    OpenAfterRegister(p, s, a, own, email);
    forall k ensures OpenFor(Apply(p, s, a).rows, k, email) <==>
                     k == own || (OpenFor(s.rows, k, email) && k !in s.txs[a.t].scan.value) {
      OpenAfterRegister(p, s, a, k, email);
    }
  }

  lemma OneOpenStep(p: Params, s: State, a: Action, email: string)
    requires LockInv(s) && Enabled(p, s, a) && OneOpen(s.rows, email)
    ensures OneOpen(Apply(p, s, a).rows, email) <==> (Supersedes(s, a, email) ==> HasAllOpen(s, a.t, email))
  {
    if Supersedes(s, a, email) {
      OneOpenExactly(p, s, a, email);
    } else {
      forall k | OpenFor(Apply(p, s, a).rows, k, email) ensures OpenFor(s.rows, k, email) {
        NoneOpens(p, s, a, k, email);
      }
    }
  }

  /** At most one invitation is open in every state of the run. */
  ghost predicate AlwaysOneOpen(p: Params, s: State, acts: seq<Action>, email: string)
    requires Run(p, s, acts)
    decreases |acts|
  {
    OneOpen(s.rows, email) && (acts == [] || AlwaysOneOpen(p, Apply(p, s, acts[0]), acts[1..], email))
  }

  /** Every registration for the e-mail commits with all open invitations in its snapshot. */
  ghost predicate SnapshotsComplete(p: Params, s: State, acts: seq<Action>, email: string)
    requires Run(p, s, acts)
    decreases |acts|
  {
    acts == [] ||
    ((Supersedes(s, acts[0], email) ==> HasAllOpen(s, acts[0].t, email))
     && SnapshotsComplete(p, Apply(p, s, acts[0]), acts[1..], email))
  }

  /** Over every run: there is never more than one open invitation for an address if and only if no
      registration for it commits on a snapshot that misses one. */
  lemma {:induction false} LatestInviteWinsExactly(p: Params, s: State, acts: seq<Action>, email: string)
    requires LockInv(s) && OneOpen(s.rows, email) && Run(p, s, acts)
    ensures AlwaysOneOpen(p, s, acts, email) <==> SnapshotsComplete(p, s, acts, email)
    decreases |acts|
  {
    if acts != [] {
      LockStep(p, s, acts[0]);
      OneOpenStep(p, s, acts[0], email);
      var s' := Apply(p, s, acts[0]);
      if OneOpen(s'.rows, email) { LatestInviteWinsExactly(p, s', acts[1..], email); }
    }
  }

  // ------------------------------------------------------------ registrations that do not overlap

  /** A registration past its bulk update has every open invitation of the e-mail in its snapshot. */
  ghost predicate SeesAll(s: State, t: TxId, email: string) {
    RegistersFor(s, t, email) && s.txs[t].scan.Some? ==> HasAllOpen(s, t, email)
  }

  lemma SeesAllStep(p: Params, s: State, a: Action, t: TxId, email: string)
    requires LockInv(s) && Enabled(p, s, a) && SoloRegister(s, email) && SeesAll(s, t, email)
    ensures SeesAll(Apply(p, s, a), t, email)
  {
    var s' := Apply(p, s, a);
    if RegistersFor(s', t, email) && s'.txs[t].scan.Some? {
      assert a.Commit? ==> RegistersFor(s, t, email);
      forall k | OpenFor(s'.rows, k, email) ensures k in s'.txs[t].scan.value {
        NoneOpens(p, s, a, k, email);
      }
    }
  }

  lemma {:induction false} SoloIsComplete(p: Params, s: State, acts: seq<Action>, email: string)
    requires LockInv(s) && (forall t :: SeesAll(s, t, email)) && Run(p, s, acts) && SoloRun(p, s, acts, email)
    ensures SnapshotsComplete(p, s, acts, email)
    decreases |acts|
  {
    if acts != [] {
      var a, s' := acts[0], Apply(p, s, acts[0]);
      LockStep(p, s, a);
      if Supersedes(s, a, email) { assert SeesAll(s, a.t, email); }
      forall t ensures SeesAll(s', t, email) {
        SeesAllStep(p, s, a, t, email);
      }
      SoloIsComplete(p, s', acts[1..], email);
    }
  }

  /** When Register calls for one e-mail do not overlap, at most one invitation for it is ever open. */
  lemma LatestInviteWins(p: Params, start: Time, acts: seq<Action>, email: string)
    requires Run(p, Init(start), acts) && SoloRun(p, Init(start), acts, email)
    ensures AlwaysOneOpen(p, Init(start), acts, email)
  {
    SoloIsComplete(p, Init(start), acts, email);
    LatestInviteWinsExactly(p, Init(start), acts, email);
  }
}
