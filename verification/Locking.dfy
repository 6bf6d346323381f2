/**
 Row locks make each transaction atomic: what a transaction holds is what the database holds,
 from the moment it took the lock until it commits.
 */
module Locking {
  import opened Options
  import opened Database

  ghost predicate Current(s: State, t: TxId)
    requires t in s.txs
  {
    forall k :: k in s.txs[t].held ==> k in s.rows && s.rows[k] == s.txs[t].held[k]
  }

  ghost predicate Apart(s: State, t: TxId, u: TxId)
    requires t in s.txs && u in s.txs
  {
    t != u ==> s.txs[t].held.Keys !! s.txs[u].held.Keys
  }

  /** A row held FOR KEY SHARE by one transaction is held FOR UPDATE by no other. */
  ghost predicate ShareApart(s: State, t: TxId, u: TxId, k: Key)
    requires t in s.txs && u in s.txs
  {
    t != u && SharesKey(s.txs[u], k) ==> !ExcludesShare(s.txs[t], k)
  }

  ghost predicate LockInv(s: State) {
    && (forall t :: t in s.txs ==> Current(s, t))
    && (forall t, u :: t in s.txs && u in s.txs ==> Apart(s, t, u))
    && (forall t, u, k :: t in s.txs && u in s.txs ==> ShareApart(s, t, u, k))
    && (forall t :: t in s.txs && s.txs[t].target.Some? ==> TargetRead(s.txs[t]))
  }

  /** A commit writes only rows its transaction holds, and rows that did not exist. */
  lemma WritesHeldOrNew(rows: Rows, tx: Tx, at: Time, k: Key)
    requires Ready(rows, tx, at) && k in Writes(rows, tx, at)
    ensures k in tx.held || k !in rows
  {
  }

  lemma CurrentStep(p: Params, s: State, a: Action, t: TxId, k: Key)
    requires Enabled(p, s, a)
    requires t in s.txs ==> Current(s, t)
    requires a.Commit? && t in s.txs ==> Apart(s, a.t, t)
    requires t in Apply(p, s, a).txs && k in Apply(p, s, a).txs[t].held
    ensures k in Apply(p, s, a).rows && Apply(p, s, a).rows[k] == Apply(p, s, a).txs[t].held[k]
  {
    if a.Commit? && k in Writes(s.rows, s.txs[a.t], a.at) {
      WritesHeldOrNew(s.rows, s.txs[a.t], a.at, k);
    }
  }

  lemma ApartStep(p: Params, s: State, a: Action, t: TxId, u: TxId)
    requires Enabled(p, s, a)
    requires t in s.txs && u in s.txs ==> Apart(s, t, u)
    requires t in Apply(p, s, a).txs && u in Apply(p, s, a).txs
    ensures Apart(Apply(p, s, a), t, u)
  {
  }

  lemma ShareStep(p: Params, s: State, a: Action, t: TxId, u: TxId, k: Key)
    requires Enabled(p, s, a)
    requires t in s.txs && u in s.txs ==> ShareApart(s, t, u, k)
    requires t in Apply(p, s, a).txs && u in Apply(p, s, a).txs
    ensures ShareApart(Apply(p, s, a), t, u, k)
  {
  }

  lemma TargetStep(p: Params, s: State, a: Action, t: TxId)
    requires Enabled(p, s, a)
    requires t in s.txs && s.txs[t].target.Some? ==> TargetRead(s.txs[t])
    requires t in s.txs ==> Current(s, t)
    requires t in Apply(p, s, a).txs && Apply(p, s, a).txs[t].target.Some?
    ensures TargetRead(Apply(p, s, a).txs[t])
  {
  }

  lemma LockStep(p: Params, s: State, a: Action)
    requires LockInv(s) && Enabled(p, s, a)
    ensures LockInv(Apply(p, s, a))
  {
    var s' := Apply(p, s, a);
    forall t | t in s'.txs ensures Current(s', t) {
      forall k | k in s'.txs[t].held ensures k in s'.rows && s'.rows[k] == s'.txs[t].held[k] {
        CurrentStep(p, s, a, t, k);
      }
    }
    forall t, u | t in s'.txs && u in s'.txs ensures Apart(s', t, u) {
      ApartStep(p, s, a, t, u);
    }
    forall t, u, k | t in s'.txs && u in s'.txs ensures ShareApart(s', t, u, k) {
      ShareStep(p, s, a, t, u, k);
    }
    forall t | t in s'.txs && s'.txs[t].target.Some? ensures TargetRead(s'.txs[t]) {
      TargetStep(p, s, a, t);
    }
  }
}
