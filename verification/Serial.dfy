/**
 Runs against serial execution. The log of committed transactions always replays to the rows and to
 the audit trail. A commit is what its operation does alone on the rows it finds exactly when
 nothing it read without a lock has changed: so a run is serial in commit order if and only if
 none of its commits went by a stale read.
 */
module Serial {
  import opened Options
  import opened Database
  import opened Alone
  import opened Locking
  import opened Sessions

  /** The database after the logged commits. */
  ghost function Replay(log: seq<Entry>): Rows {
    if log == [] then map[] else Replay(log[..|log| - 1]) + log[|log| - 1].writes
  }

  /** The audit rows the logged commits leave. */
  ghost function Trail(log: seq<Entry>): seq<Op> {
    if log == [] then []
    else Trail(log[..|log| - 1]) + if log[|log| - 1].audited then [log[|log| - 1].op] else []
  }

  ghost function EntryOf(rows: Rows, tx: Tx, at: Time): Entry
    requires Ready(rows, tx, at)
  {
    Entry(tx.op, tx.target, Writes(rows, tx, at), Audited(rows, tx, at))
  }

  // ------------------------------------------------------------ the log replays

  /** Some transaction whose locked rows are those of `rows` commits as entry e. */
  ghost predicate CommitsAs(rows: Rows, tx: Tx, at: Time, e: Entry) {
    HeldCurrent(rows, tx) && Ready(rows, tx, at) && e == EntryOf(rows, tx, at)
  }

  ghost predicate FromCurrent(rows: Rows, e: Entry) {
    exists tx, at :: CommitsAs(rows, tx, at, e)
  }

  ghost predicate LockedCurrent(log: seq<Entry>) {
    log == [] || (LockedCurrent(log[..|log| - 1]) && FromCurrent(Replay(log[..|log| - 1]), log[|log| - 1]))
  }

  ghost predicate LogInv(s: State) {
    LockInv(s) && LockedCurrent(s.log) && s.rows == Replay(s.log) && s.audit == Trail(s.log)
  }

  lemma LogStep(p: Params, s: State, a: Action)
    requires LogInv(s) && Enabled(p, s, a)
    ensures LogInv(Apply(p, s, a))
  {
    LockStep(p, s, a);
    if a.Commit? {
      assert Current(s, a.t);
      var e := EntryOf(s.rows, s.txs[a.t], a.at);
      assert CommitsAs(s.rows, s.txs[a.t], a.at, e);
      LogMore(s.log, e);
      CommitLogs(p, s, a, e);
    }
  }

  lemma CommitLogs(p: Params, s: State, a: Action, e: Entry)
    requires Enabled(p, s, a) && a.Commit? && e == EntryOf(s.rows, s.txs[a.t], a.at)
    ensures var s' := Apply(p, s, a);
            && s'.log == s.log + [e] && s'.rows == s.rows + e.writes
            && s'.audit == if e.audited then s.audit + [e.op] else s.audit
  {
  }

  lemma LogMore(log: seq<Entry>, e: Entry)
    requires LockedCurrent(log) && FromCurrent(Replay(log), e)
    ensures LockedCurrent(log + [e]) && Replay(log + [e]) == Replay(log) + e.writes
    ensures Trail(log + [e]) == if e.audited then Trail(log) + [e.op] else Trail(log)
  {
    assert (log + [e])[..|log|] == log;
  }

  lemma {:induction false} LogRun(p: Params, s: State, acts: seq<Action>)
    requires LogInv(s) && Run(p, s, acts)
    ensures LogInv(Exec(p, s, acts))
    decreases |acts|
  {
    if acts != [] {
      LogStep(p, s, acts[0]);
      LogRun(p, Apply(p, s, acts[0]), acts[1..]);
    }
  }

  /** Over every run the rows and the audit trail are those the committed transactions left, in commit
      order, each writing from locked rows that were current; a rolled-back transaction leaves nothing. */
  lemma LogReplays(p: Params, start: Time, acts: seq<Action>)
    requires Run(p, Init(start), acts)
    ensures var s := Exec(p, Init(start), acts);
            LockedCurrent(s.log) && s.rows == Replay(s.log) && s.audit == Trail(s.log)
  {
    LogRun(p, Init(start), acts);
  }

  // ------------------------------------------------------------ serial commits

  ghost predicate DoneAlone(rows: Rows, e: Entry, at: Time) {
    && EarlyReads(rows, e.op) && Found(rows, e.op, e.target)
    && Ready(rows, Reading(rows, e.op, e.target), at)
    && e == EntryOf(rows, Reading(rows, e.op, e.target), at)
  }

  /** The entry is what its operation does when it runs alone on the rows, at some time. */
  ghost predicate IsSerial(rows: Rows, e: Entry) {
    exists at :: DoneAlone(rows, e, at)
  }

  /** The transaction writes what its bulk update matched. */
  ghost predicate WritesBulk(tx: Tx) {
    BulkUpdates(tx.op) && (tx.op.DeleteUser? ==> tx.target.Some?)
  }

  /** The statement snapshot of the bulk update holds every row that matches now. */
  ghost predicate ScanComplete(rows: Rows, tx: Tx) {
    WritesBulk(tx) ==> tx.scan.Some? && forall k :: k in rows && Matches(tx, k, rows[k]) ==> k in tx.scan.value
  }

  /** The user record ChangePassword writes back still says, but for the password, what the row says. */
  ghost predicate SnapCurrent(rows: Rows, tx: Tx) {
    tx.op.ChangePassword? ==>
      tx.snap.Some? && HasUser(rows, tx.op.user)
      && var now := rows[UserK(tx.op.user)].u;
      tx.snap.value.(password := now.password, deleted := now.deleted) == now
  }

  /** Nothing the transaction read without a lock has changed. */
  ghost predicate Undisturbed(rows: Rows, tx: Tx) {
    EarlyReads(rows, tx.op) && ScanComplete(rows, tx) && SnapCurrent(rows, tx)
  }

  /** A transaction about to commit, as locking leaves it. */
  ghost predicate Committing(rows: Rows, tx: Tx, at: Time) {
    HeldCurrent(rows, tx) && Ready(rows, tx, at) && (tx.target.Some? ==> TargetRead(tx))
  }

  lemma TargetFound(rows: Rows, tx: Tx, at: Time)
    requires Committing(rows, tx, at)
    ensures Found(rows, tx.op, tx.target)
  {
  }

  lemma SubjectAlone(rows: Rows, tx: Tx, at: Time)
    requires Committing(rows, tx, at)
    ensures var r := ReadUser(rows, ReadTarget(rows, tx.op, tx.target));
            Subject(r) == Subject(tx) && Subject(ReadScan(rows, r)) == Subject(tx)
  {
    TargetFound(rows, tx, at);
  }

  /** What a bulk update changes, given the rows its snapshot matched. */
  ghost function Revoking(rows: Rows, tx: Tx, ks: set<Key>, at: Time): Rows {
    map k | k in rows && k in ks && Matches(tx, k, rows[k]) :: RevokedRow(rows[k], at)
  }

  lemma BulkIs(rows: Rows, tx: Tx, at: Time)
    requires HeldCurrent(rows, tx) && Scanned(tx)
    ensures BulkRevoked(tx, at) == Revoking(rows, tx, tx.scan.value, at)
  {
  }

  lemma BulkAlone(rows: Rows, tx: Tx, at: Time, when: Time)
    requires Committing(rows, tx, at) && BulkUpdates(tx.op)
    ensures var alone := Reading(rows, tx.op, tx.target);
            && HeldCurrent(rows, alone) && Scanned(alone)
            && BulkRevoked(alone, when) == Revoking(rows, tx, rows.Keys, when)
  {
    var alone := Reading(rows, tx.op, tx.target);
    HeldAlone(rows, tx, at);
    BulkIs(rows, alone, when);
    SubjectAlone(rows, tx, at);
    assert forall k :: k in rows ==> Matches(alone, k, rows[k]) == Matches(tx, k, rows[k]);
  }

  lemma HeldAlone(rows: Rows, tx: Tx, at: Time)
    requires Committing(rows, tx, at) && BulkUpdates(tx.op)
    ensures var alone := Reading(rows, tx.op, tx.target);
            && HeldCurrent(rows, alone) && Scanned(alone)
            && forall k :: k in rows && Matches(alone, k, rows[k]) ==> k in alone.scan.value
  {
    TargetFound(rows, tx, at);
    SubjectAlone(rows, tx, at);
  }

  /** An undisturbed commit would have been ready alone, and would have been audited alike. */
  lemma ReadyAlone(rows: Rows, tx: Tx, at: Time)
    requires Committing(rows, tx, at) && EarlyReads(rows, tx.op)
    ensures var alone := Reading(rows, tx.op, tx.target);
            Ready(rows, alone, at) && Audited(rows, alone, at) == Audited(rows, tx, at)
  {
    TargetFound(rows, tx, at);
    SubjectAlone(rows, tx, at);
    if BulkUpdates(tx.op) { BulkAlone(rows, tx, at, at); }
  }

  /** ... and its bulk update would have changed the same rows. */
  lemma SameBulk(rows: Rows, tx: Tx, at: Time)
    requires Committing(rows, tx, at) && WritesBulk(tx) && ScanComplete(rows, tx)
    ensures BulkRevoked(Reading(rows, tx.op, tx.target), at) == BulkRevoked(tx, at)
  {
    BulkAlone(rows, tx, at, at);
    BulkIs(rows, tx, at);
    assert Revoking(rows, tx, rows.Keys, at) == Revoking(rows, tx, tx.scan.value, at);
  }

  /** ... and would have written the same. */
  lemma SameWrites(rows: Rows, tx: Tx, at: Time)
    requires Committing(rows, tx, at) && Undisturbed(rows, tx)
    requires Ready(rows, Reading(rows, tx.op, tx.target), at)
    ensures Writes(rows, Reading(rows, tx.op, tx.target), at) == Writes(rows, tx, at)
  {
    TargetFound(rows, tx, at);
    SubjectAlone(rows, tx, at);
    if WritesBulk(tx) { SameBulk(rows, tx, at); }
  }

  /** A matching row the snapshot missed is not written; alone it would have been. */
  lemma MissedRow(rows: Rows, tx: Tx, at: Time, when: Time, k: Key)
    requires Committing(rows, tx, at) && WritesBulk(tx) && Ready(rows, Reading(rows, tx.op, tx.target), when)
    requires k in rows && Matches(tx, k, rows[k]) && k !in tx.scan.value
    ensures k !in Writes(rows, tx, at) && k in Writes(rows, Reading(rows, tx.op, tx.target), when)
  {
    TargetFound(rows, tx, at);
    BulkAlone(rows, tx, at, when);
    BulkIs(rows, tx, at);
    assert k in Revoking(rows, tx, rows.Keys, when);
  }

  lemma SerialIsUndisturbed(rows: Rows, tx: Tx, at: Time, when: Time)
    requires Committing(rows, tx, at) && DoneAlone(rows, EntryOf(rows, tx, at), when)
    ensures Undisturbed(rows, tx)
  {
    if WritesBulk(tx) {
      forall k | k in rows && Matches(tx, k, rows[k]) ensures k in tx.scan.value {
        if k !in tx.scan.value { MissedRow(rows, tx, at, when, k); }
      }
    }
    if tx.op.ChangePassword? {
      StaleColumns(rows, tx, at, when);
    }
  }

  lemma StaleColumns(rows: Rows, tx: Tx, at: Time, when: Time)
    requires Committing(rows, tx, at) && tx.op.ChangePassword? && DoneAlone(rows, EntryOf(rows, tx, at), when)
    ensures SnapCurrent(rows, tx)
  {
    var k := UserK(tx.op.user);
    assert Writes(rows, tx, at)[k] == Writes(rows, Reading(rows, tx.op, tx.target), when)[k];
  }

  /** The exact condition, commit by commit: a commit does what its operation does alone if and only
      if nothing it read without a lock has changed. */
  lemma SerialExactly(rows: Rows, tx: Tx, at: Time)
    requires Committing(rows, tx, at)
    ensures IsSerial(rows, EntryOf(rows, tx, at)) <==> Undisturbed(rows, tx)
  {
    if Undisturbed(rows, tx) {
      TargetFound(rows, tx, at);
      ReadyAlone(rows, tx, at);
      SameWrites(rows, tx, at);
      assert DoneAlone(rows, EntryOf(rows, tx, at), at);
    } else if IsSerial(rows, EntryOf(rows, tx, at)) {
      var when :| DoneAlone(rows, EntryOf(rows, tx, at), when);
      SerialIsUndisturbed(rows, tx, at, when);
    }
  }

  // ------------------------------------------------------------ serial runs

  /** Every commit of the run is undisturbed. */
  ghost predicate UndisturbedRun(p: Params, s: State, acts: seq<Action>)
    requires Run(p, s, acts)
    decreases |acts|
  {
    acts == [] || ((acts[0].Commit? ==> Undisturbed(s.rows, s.txs[acts[0].t])) &&
                   UndisturbedRun(p, Apply(p, s, acts[0]), acts[1..]))
  }

  /** Each logged commit is what its operation does alone on what the earlier ones left. */
  ghost predicate SerialLog(log: seq<Entry>) {
    log == [] || (SerialLog(log[..|log| - 1]) && IsSerial(Replay(log[..|log| - 1]), log[|log| - 1]))
  }

  lemma SerialLogStep(p: Params, s: State, a: Action)
    requires LogInv(s) && Enabled(p, s, a)
    ensures SerialLog(Apply(p, s, a).log) <==> SerialLog(s.log) && (a.Commit? ==> Undisturbed(s.rows, s.txs[a.t]))
  {
    if a.Commit? {
      assert Current(s, a.t);
      SerialExactly(s.rows, s.txs[a.t], a.at);
      var s' := Apply(p, s, a);
      assert s'.log[..|s'.log| - 1] == s.log;
    }
  }

  lemma {:induction false} SerialRun(p: Params, s: State, acts: seq<Action>)
    requires LogInv(s) && Run(p, s, acts)
    ensures SerialLog(Exec(p, s, acts).log) <==> SerialLog(s.log) && UndisturbedRun(p, s, acts)
    decreases |acts|
  {
    if acts != [] {
      LogStep(p, s, acts[0]);
      SerialLogStep(p, s, acts[0]);
      SerialRun(p, Apply(p, s, acts[0]), acts[1..]);
    }
  }

  /** A run's commits are those of a serial execution in commit order if and only if none of them
      went by a stale read. */
  lemma SerializableExactly(p: Params, start: Time, acts: seq<Action>)
    requires Run(p, Init(start), acts)
    ensures SerialLog(Exec(p, Init(start), acts).log) <==> UndisturbedRun(p, Init(start), acts)
  {
    SerialRun(p, Init(start), acts);
  }

  // ------------------------------------------------------------ always serial

  /** ResetPassword, and DeleteUser that has found its user, hold the user's row FOR UPDATE from before
      the snapshot of their bulk update to their commit. */
  ghost predicate Shields(tx: Tx) {
    tx.scan.Some? && (tx.op.ResetPassword? || (tx.op.DeleteUser? && tx.target.Some?))
  }

  /** So no session of the user is inserted in between, and the snapshot stays complete. */
  ghost predicate Shielded(s: State, t: TxId) {
    t in s.txs && Shields(s.txs[t]) ==>
      && Subject(s.txs[t]).Some? && UserK(Subject(s.txs[t]).value) in s.txs[t].held
      && forall k :: k in s.rows && Matches(s.txs[t], k, s.rows[k]) ==> k in s.txs[t].scan.value
  }

  lemma ShieldBegins(p: Params, s: State, a: Action)
    requires LockInv(s) && Enabled(p, s, a) && a.Scan?
    ensures Shielded(Apply(p, s, a), a.t)
  {
  }

  /** A row that matches after another transaction's commit matched before. */
  lemma ShieldHolds(p: Params, s: State, a: Action, t: TxId, k: Key)
    requires LockInv(s) && Enabled(p, s, a) && a.Commit? && a.t != t && t in s.txs && Shields(s.txs[t]) &&
             Shielded(s, t)
    requires k in Apply(p, s, a).rows && Matches(s.txs[t], k, Apply(p, s, a).rows[k])
    ensures k in s.rows && Matches(s.txs[t], k, s.rows[k])
  {
    SessionStep(p, s, a, k);
    assert ShareApart(s, t, a.t, UserK(Subject(s.txs[t]).value));
  }

  lemma ShieldStep(p: Params, s: State, a: Action, t: TxId)
    requires LockInv(s) && Enabled(p, s, a) && Shielded(s, t)
    ensures Shielded(Apply(p, s, a), t)
  {
    var s' := Apply(p, s, a);
    if t in s'.txs && Shields(s'.txs[t]) {
      if a.Scan? && a.t == t {
        ShieldBegins(p, s, a);
      } else {
        ShieldKept(p, s, a, t);
        forall k | k in s'.rows && Matches(s'.txs[t], k, s'.rows[k]) ensures k in s'.txs[t].scan.value {
          if a.Commit? { ShieldHolds(p, s, a, t, k); }
        }
      }
    }
  }

  /** Past its snapshot a transaction keeps its snapshot, its subject and its locks. */
  lemma ShieldKept(p: Params, s: State, a: Action, t: TxId)
    requires LockInv(s) && Enabled(p, s, a) && t in Apply(p, s, a).txs && Shields(Apply(p, s, a).txs[t])
    requires !(a.Scan? && a.t == t)
    ensures t in s.txs && Shields(s.txs[t])
    ensures var tx, tx' := s.txs[t], Apply(p, s, a).txs[t];
            tx'.op == tx.op && tx'.scan == tx.scan && Subject(tx') == Subject(tx) && tx.held.Keys <= tx'.held.Keys
    ensures a.Commit? ==> a.t != t
    ensures !a.Commit? ==> Apply(p, s, a).rows == s.rows
  {
  }

  lemma {:induction false} ShieldRun(p: Params, s: State, acts: seq<Action>, t: TxId)
    requires LockInv(s) && Run(p, s, acts) && Shielded(s, t)
    ensures Shielded(Exec(p, s, acts), t)
    decreases |acts|
  {
    if acts != [] {
      LockStep(p, s, acts[0]);
      ShieldStep(p, s, acts[0], t);
      ShieldRun(p, Apply(p, s, acts[0]), acts[1..], t);
    }
  }

  /** Operations that look something up before they lock it, or whose bulk update nothing shields. */
  predicate Exposed(op: Op) {
    op.Register? || op.Login? || op.RevokeUserSessions? || op.ChangePassword?
  }

  /** In every run every other operation does, when it commits, what it does alone. */
  lemma LockedOpsSerial(p: Params, start: Time, acts: seq<Action>, a: Action)
    requires Run(p, Init(start), acts)
    requires var s := Exec(p, Init(start), acts); Enabled(p, s, a) && a.Commit? && !Exposed(s.txs[a.t].op)
    ensures var s := Exec(p, Init(start), acts); IsSerial(s.rows, EntryOf(s.rows, s.txs[a.t], a.at))
  {
    var s := Exec(p, Init(start), acts);
    LockRun(p, Init(start), acts);
    ShieldRun(p, Init(start), acts, a.t);
    assert Current(s, a.t);
    SerialExactly(s.rows, s.txs[a.t], a.at);
  }

  // ------------------------------------------------------------ audit conservation

  /** A commit that changes a row is audited unless it is a refresh rotation, and a refresh never is. */
  ghost predicate RightlyAudited(e: Entry) {
    && (e.writes != map[] ==> (e.audited <==> !e.op.Refresh?))
    && (e.audited ==> e.writes != map[] || e.op.RevokeUserSessions?)
  }

  lemma AuditRule(rows: Rows, tx: Tx, at: Time)
    requires Ready(rows, tx, at)
    ensures RightlyAudited(Entry(tx.op, tx.target, Writes(rows, tx, at), Audited(rows, tx, at)))
  {
    var w := Writes(rows, tx, at);
    match tx.op {
      case Register(_, _, id, _, _) => assert RegK(id) in w;
      case Login(_, session, _, _) => assert SessK(session) in w;
      case RecoverPassword(_, id, _, _) => assert RecK(id) in w;
      case RevokeUserSessions(_) =>
      case EndSession(_) => assert Audited(rows, tx, at) ==> tx.target.value in w;
      case DeletePicture(_) => assert Audited(rows, tx, at) ==> tx.target.value in w;
      case DeleteUser(_) => assert Audited(rows, tx, at) ==> tx.target.value in w;
      case _ => assert tx.target.value in w;
    }
  }

  ghost function Refreshes(log: seq<Entry>): nat {
    if log == [] then 0 else Refreshes(log[..|log| - 1]) + if log[|log| - 1].op.Refresh? then 1 else 0
  }

  /** Commits that changed a row. */
  ghost function Changes(log: seq<Entry>): nat {
    if log == [] then 0 else Changes(log[..|log| - 1]) + if log[|log| - 1].writes != map[] then 1 else 0
  }

  /** Bulk revocations that found nothing to revoke; they are audited all the same. */
  ghost function EmptyWipes(log: seq<Entry>): nat {
    if log == [] then 0
    else EmptyWipes(log[..|log| - 1]) + if log[|log| - 1].op.RevokeUserSessions? &&
                                           log[|log| - 1].writes == map[] then 1 else 0
  }

  lemma {:induction false} TrailLength(log: seq<Entry>)
    requires LockedCurrent(log)
    ensures |Trail(log)| + Refreshes(log) == Changes(log) + EmptyWipes(log)
  {
    if log != [] {
      var pre, e := log[..|log| - 1], log[|log| - 1];
      TrailLength(pre);
      var tx, at :| CommitsAs(Replay(pre), tx, at, e);
      AuditRule(Replay(pre), tx, at);
      assert e.op.Refresh? ==> tx.target.value in e.writes;
    }
  }

  /** Over every run: audit rows = row-changing commits - refreshes + empty bulk revocations. */
  lemma AuditConserved(p: Params, start: Time, acts: seq<Action>)
    requires Run(p, Init(start), acts)
    ensures var s := Exec(p, Init(start), acts);
            |s.audit| == Changes(s.log) - Refreshes(s.log) + EmptyWipes(s.log)
  {
    LogRun(p, Init(start), acts);
    TrailLength(Exec(p, Init(start), acts).log);
  }
}
