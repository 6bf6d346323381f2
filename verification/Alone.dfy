/** What a transaction reads, and so does, when no other transaction runs beside it. */
module Alone {
  import opened Options
  import opened Database

  // ------------------------------------------------------------ what a transaction reads

  ghost function ReadTarget(rows: Rows, op: Op, target: Option<Key>): Tx {
    Tx(op,
       if op.ChangePassword? && LiveUser(rows, op.user) then Some(rows[UserK(op.user)].u) else None,
       target,
       if target.Some? && target.value in rows then map[target.value := rows[target.value]] else map[],
       None, op.Refresh?, op.Login? && HasUser(rows, op.user))
  }

  ghost function ReadUser(rows: Rows, tx: Tx): Tx {
    if (tx.op.Refresh? || tx.op.ResetPassword?) && Subject(tx).Some? && LiveUser(rows, Subject(tx).value)
    then tx.(held := tx.held[UserK(Subject(tx).value) := rows[UserK(Subject(tx).value)]]) else tx
  }

  ghost function ReadScan(rows: Rows, tx: Tx): Tx {
    if !BulkUpdates(tx.op) then tx
    else
      var scan := set k | k in rows && Matches(tx, k, rows[k]);
      tx.(scan := Some(scan), held := tx.held + map k | k in scan :: rows[k])
  }

  /** The transaction at its commit, when nothing else runs: it has read and locked what its
      statements select from the rows. */
  ghost function Reading(rows: Rows, op: Op, target: Option<Key>): Tx {
    ReadScan(rows, ReadUser(rows, ReadTarget(rows, op, target)))
  }

  /** The target is a row the first SELECT finds, or there is none to find. */
  ghost predicate Found(rows: Rows, op: Op, target: Option<Key>) {
    if target.Some? then target.value in rows && IsTarget(op, target.value, rows[target.value])
    else forall k :: k in rows ==> !IsTarget(op, k, rows[k])
  }
}
