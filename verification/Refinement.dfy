/**
 A service method that runs with no other transaction open is a run of the transaction protocol,
 so what is proved of every run holds of it.
 */
module Refinement {
  import opened Options
  import opened Revocation
  import opened Database
  import opened Alone
  import opened Services

  /** The run so far has only transaction t open, and nothing committed. */
  ghost predicate Open(p: Params, s0: State, acts: seq<Action>, s: State, t: TxId, tx: Tx) {
    && Run(p, s0, acts) && Exec(p, s0, acts) == s
    && s.rows == s0.rows && s.audit == s0.audit && s.now == s0.now && s.txs == map[t := tx]
  }

  lemma Grow(p: Params, s0: State, acts: seq<Action>, s: State, t: TxId, tx: Tx, a: Action, tx': Tx)
    returns (acts': seq<Action>, s': State)
    requires Open(p, s0, acts, s, t, tx) && Enabled(p, s, a) && !a.Begin? && !a.Commit? && !a.Abort? && !a.Advance?
    requires Apply(p, s, a).txs == map[t := tx']
    ensures Open(p, s0, acts', s', t, tx')
  {
    RunStep(p, s0, acts, a);
    acts', s' := acts + [a], Apply(p, s, a);
  }

  /** The transaction before it signs a token or inserts a session. */
  ghost function Before(tx: Tx): Tx {
    tx.(signed := false, shared := false)
  }

  lemma Start(p: Params, s: State, op: Op, reading: Time, t: TxId) returns (acts: seq<Action>, s': State)
    requires s.txs == map[] && MayBegin(p, s, op, reading)
    ensures Open(p, s, acts, s', t, Before(ReadTarget(s.rows, op, None)))
  {
    var a := Begin(t, op, reading);
    acts, s' := [a], Apply(p, s, a);
    assert Run(p, s', []) && acts[1..] == [];
  }

  lemma LockFirst(p: Params, s0: State, acts: seq<Action>, s: State, t: TxId, op: Op, target: Option<Key>)
    returns (acts': seq<Action>, s': State)
    requires Open(p, s0, acts, s, t, Before(ReadTarget(s0.rows, op, None))) && Found(s0.rows, op, target)
    ensures Open(p, s0, acts', s', t, Before(ReadTarget(s0.rows, op, target)))
  {
    acts', s' := acts, s;
    if target.Some? {
      var tx := Before(ReadTarget(s0.rows, op, target));
      assert map[][target.value := s0.rows[target.value]] == tx.held;
      acts', s' := Grow(p, s0, acts, s, t, s.txs[t], LockTarget(t, target.value), tx);
    }
  }

  lemma LockSecond(p: Params, s0: State, acts: seq<Action>, s: State, t: TxId, tx: Tx)
    returns (acts': seq<Action>, s': State)
    requires Open(p, s0, acts, s, t, tx) && tx.scan.None?
    requires Subject(tx).Some? && (tx.op.Refresh? || tx.op.ResetPassword?) ==> UserK(Subject(tx).value) !in tx.held
    ensures Open(p, s0, acts', s', t, ReadUser(s0.rows, tx))
  {
    acts', s' := acts, s;
    if ReadUser(s0.rows, tx) != tx {
      LocksUser(p, s, t, tx);
      acts', s' := Grow(p, s0, acts, s, t, tx, LockUser(t), ReadUser(s.rows, tx));
    }
  }

  lemma LocksUser(p: Params, s: State, t: TxId, tx: Tx)
    requires s.txs == map[t := tx] && tx.scan.None? && (tx.op.Refresh? || tx.op.ResetPassword?)
    requires Subject(tx).Some? && LiveUser(s.rows, Subject(tx).value) && UserK(Subject(tx).value) !in tx.held
    ensures Enabled(p, s, LockUser(t)) && Apply(p, s, LockUser(t)).txs == map[t := ReadUser(s.rows, tx)]
  {
  }

  lemma LockOne(p: Params, s0: State, acts: seq<Action>, s: State, t: TxId, tx: Tx, k: Key)
    returns (acts': seq<Action>, s': State)
    requires Open(p, s0, acts, s, t, tx) && tx.scan.Some? && k in tx.scan.value && k in s0.rows && k !in tx.held
    ensures Open(p, s0, acts', s', t, tx.(held := tx.held[k := s0.rows[k]]))
  {
    acts', s' := Grow(p, s0, acts, s, t, tx, LockScanned(t, k), tx.(held := tx.held[k := s0.rows[k]]));
  }

  ghost function Copies(rows: Rows, ks: set<Key>): Rows
    requires ks <= rows.Keys
  {
    map k | k in ks :: rows[k]
  }

  /** The rows matched by the statement snapshot, locked one by one. */
  lemma LockEach(p: Params, s0: State, acts: seq<Action>, s: State, t: TxId, tx: Tx, todo: set<Key>)
    returns (acts': seq<Action>, s': State)
    requires Open(p, s0, acts, s, t, tx) && tx.scan.Some? && todo <= tx.scan.value && todo <= s0.rows.Keys &&
             todo !! tx.held.Keys
    ensures Open(p, s0, acts', s', t, tx.(held := tx.held + Copies(s0.rows, todo)))
    decreases |todo|
  {
    if todo == {} {
      assert tx.held + Copies(s0.rows, {}) == tx.held;
      acts', s' := acts, s;
    } else {
      var k :| k in todo;
      var a1, s1 := LockOne(p, s0, acts, s, t, tx, k);
      acts', s' := LockEach(p, s0, a1, s1, t, tx.(held := tx.held[k := s0.rows[k]]), todo - {k});
      CopyOne(s0.rows, tx.held, k, todo);
    }
  }

  lemma CopyOne(rows: Rows, held: Rows, k: Key, todo: set<Key>)
    requires k in todo && todo <= rows.Keys
    ensures held[k := rows[k]] + Copies(rows, todo - {k}) == held + Copies(rows, todo)
  {
  }

  lemma TakeScan(p: Params, s0: State, acts: seq<Action>, s: State, t: TxId, tx: Tx, scan: set<Key>)
    returns (acts': seq<Action>, s': State)
    requires Open(p, s0, acts, s, t, tx) && tx.scan.None? && BulkUpdates(tx.op) &&
             (tx.op.ResetPassword? ==> UserRead(tx))
    requires scan == set k | k in s0.rows && Matches(tx, k, s0.rows[k])
    ensures Open(p, s0, acts', s', t, tx.(scan := Some(scan)))
  {
    acts', s' := Grow(p, s0, acts, s, t, tx, Scan(t), tx.(scan := Some(scan)));
  }

  lemma LockScan(p: Params, s0: State, acts: seq<Action>, s: State, t: TxId, tx: Tx)
    returns (acts': seq<Action>, s': State)
    requires Open(p, s0, acts, s, t, tx) && tx.scan.None? && (tx.op.ResetPassword? ==> UserRead(tx))
    requires BulkUpdates(tx.op) ==> forall k :: k in tx.held ==> !k.SessK? && !k.RegK?
    ensures Open(p, s0, acts', s', t, ReadScan(s0.rows, tx))
  {
    acts', s' := acts, s;
    if BulkUpdates(tx.op) {
      var scan := set k | k in s0.rows && Matches(tx, k, s0.rows[k]);
      var a1, s1 := TakeScan(p, s0, acts, s, t, tx, scan);
      acts', s' := LockEach(p, s0, a1, s1, t, tx.(scan := Some(scan)), scan);
    }
  }

  /** Every statement up to the commit. */
  lemma Statements(p: Params, s: State, op: Op, target: Option<Key>, reading: Time, at: Time, t: TxId)
    returns (acts: seq<Action>, s': State)
    requires s.txs == map[] && MayBegin(p, s, op, reading)
    requires Found(s.rows, op, target) && Ready(s.rows, Reading(s.rows, op, target), at)
    ensures Open(p, s, acts, s', t, Before(Reading(s.rows, op, target)))
  {
    var read := Before(ReadTarget(s.rows, op, target));
    var a1, s1 := Start(p, s, op, reading, t);
    var a2, s2 := LockFirst(p, s, a1, s1, t, op, target);
    TargetKind(s.rows, op, target);
    var a3, s3 := LockSecond(p, s, a2, s2, t, read);
    SameReading(s.rows, op, target, at);
    acts, s' := LockScan(p, s, a3, s3, t, ReadUser(s.rows, read));
  }

  lemma TargetKind(rows: Rows, op: Op, target: Option<Key>)
    requires Found(rows, op, target)
    ensures var read := Before(ReadTarget(rows, op, target));
            (Subject(read).Some? && (op.Refresh? || op.ResetPassword?) ==> UserK(Subject(read).value) !in read.held)
            && (BulkUpdates(op) ==> forall k :: k in read.held ==> !k.SessK? && !k.RegK?)
  {
  }

  /** Nothing read depends on whether the token has been signed or the session inserted yet. */
  lemma SameReading(rows: Rows, op: Op, target: Option<Key>, at: Time)
    requires Found(rows, op, target) && Ready(rows, Reading(rows, op, target), at)
    ensures var read := ReadUser(rows, Before(ReadTarget(rows, op, target)));
            && ReadScan(rows, read) == Before(Reading(rows, op, target))
            && (op.ResetPassword? ==> UserRead(read)) && read.scan.None?
            && (BulkUpdates(op) ==> forall k :: k in read.held ==> !k.SessK? && !k.RegK?)
  {
    TargetKind(rows, op, target);
    var r := ReadUser(rows, ReadTarget(rows, op, target));
    assert ReadUser(rows, Before(ReadTarget(rows, op, target))) == Before(r);
    assert forall k :: k in rows ==> Matches(Before(r), k, rows[k]) == Matches(r, k, rows[k]);
  }

  lemma SignLast(p: Params, s0: State, acts: seq<Action>, s: State, t: TxId, tx: Tx, reading: Time, at: Time)
    returns (acts': seq<Action>, s': State)
    requires Open(p, s0, acts, s, t, Before(tx)) && Ready(s0.rows, tx, at) && Near(p.eps, reading, s0.now)
    requires tx.signed == tx.op.Refresh? && (tx.shared ==> tx.op.Login? && HasUser(s0.rows, tx.op.user))
    ensures Open(p, s0, acts', s', t, tx)
  {
    acts', s' := acts, s;
    if tx.op.Refresh? {
      acts', s' := Grow(p, s0, acts, s, t, Before(tx), Sign(t, reading), tx);
    } else if tx.shared {
      acts', s' := Grow(p, s0, acts, s, t, Before(tx), LockShared(t), tx);
    }
  }

  /** An operation that can succeed on the rows as they are is a run that ends in its commit. */
  lemma AloneIsRun(p: Params, s: State, op: Op, target: Option<Key>, reading: Time, at: Time, t: TxId)
    returns (acts: seq<Action>, s': State)
    requires s.txs == map[] && MayBegin(p, s, op, reading) && Near(p.eps, reading, s.now)
    requires Found(s.rows, op, target) && Ready(s.rows, Reading(s.rows, op, target), at)
    ensures Run(p, s, acts) && Exec(p, s, acts) == s'
    ensures Outcome(s.rows, s.audit, Reading(s.rows, op, target), at, true, s'.rows, s'.audit)
  {
    var a1, s1 := Statements(p, s, op, target, reading, at, t);
    var a2, s2 := SignLast(p, s, a1, s1, t, Reading(s.rows, op, target), reading, at);
    RunStep(p, s, a2, Commit(t, at));
    acts, s' := a2 + [Commit(t, at)], Apply(p, s2, Commit(t, at));
  }
}
