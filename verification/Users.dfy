/** What a commit may do to a user row, and the permanence of deletion. */
module Users {
  import opened Options
  import opened Database
  import opened Locking
  import opened Sessions

  ghost predicate IsUser(rows: Rows, k: Key) {
    k in rows && rows[k].URow?
  }

  /** The picture a transaction leaves on the user row it writes. */
  ghost function PictureAfter(rows: Rows, tx: Tx, k: Key): Option<Name>
    requires IsUser(rows, k)
  {
    match tx.op
    case ChangePicture(_, name) => Some(name)
    case DeletePicture(_) => None
    case ChangePassword(_, _) => if tx.snap.Some? then tx.snap.value.picture else None
    case _ => rows[k].u.picture
  }

  /** The columns an operation writes into an existing user row; ChangePassword writes back those of
      its earlier read. */
  ghost predicate UserUpdate(rows: Rows, tx: Tx, k: Key, r: User)
    requires IsUser(rows, k)
  {
    var u := rows[k].u;
    match tx.op
    case ResetPassword(_, password) => r == u.(password := password)
    case ChangePassword(user, password) =>
      k == UserK(user) && tx.snap.Some? && r == tx.snap.value.(password := password, deleted := u.deleted)
    case UpdateUser(user, profile) => k == UserK(user) && r == u.(profile := profile)
    case DeleteUser(user) => k == UserK(user) && r == u.(deleted := true)
    case ChangePicture(user, name) => k == UserK(user) && r == u.(picture := Some(name))
    case DeletePicture(user) => k == UserK(user) && r == u.(picture := None)
    case _ => false
  }

  /** Existing users change only so; a new one has its token's address and name, the chosen
      password and nothing else. */
  ghost predicate UserChange(rows: Rows, tx: Tx, k: Key, r: User) {
    || (IsUser(rows, k) && UserUpdate(rows, tx, k, r)
        && r.picture == PictureAfter(rows, tx, k)
        && (tx.op.ChangePicture? || tx.op.DeletePicture? || tx.op.ChangePassword? ==> tx.target == Some(k)))
    || (tx.op.CompleteRegistration? && k == UserK(tx.op.user) && k !in rows && TargetRead(tx)
        && r == User(Target(tx).g.email, Target(tx).g.name, tx.op.password, None, false))
  }

  lemma UserWritten(rows: Rows, tx: Tx, at: Time, k: Key)
    requires Ready(rows, tx, at) && HeldCurrent(rows, tx) && k in Writes(rows, tx, at)
    ensures Writes(rows, tx, at)[k].URow? ==> UserChange(rows, tx, k, Writes(rows, tx, at)[k].u)
    ensures IsUser(rows, k) ==> Writes(rows, tx, at)[k].URow?
  {
  }

  lemma UserStep(p: Params, s: State, a: Action, k: Key)
    requires LockInv(s) && Enabled(p, s, a)
    ensures var s' := Apply(p, s, a);
            && (a.Commit? && IsUser(s'.rows, k) ==>
                  (IsUser(s.rows, k) && s'.rows[k] == s.rows[k]) || UserChange(s.rows, s.txs[a.t], k, s'.rows[k].u))
            && (!a.Commit? ==> s'.rows == s.rows)
            && (IsUser(s.rows, k) ==> IsUser(s'.rows, k))
  {
    if a.Commit? {
      assert Current(s, a.t);
      if k in Writes(s.rows, s.txs[a.t], a.at) { UserWritten(s.rows, s.txs[a.t], a.at, k); }
    }
  }

  lemma {:induction false} DeletionSticks(p: Params, s: State, acts: seq<Action>, user: Id)
    requires LockInv(s) && Run(p, s, acts)
    requires IsUser(s.rows, UserK(user)) && s.rows[UserK(user)].u.deleted
    ensures var s' := Exec(p, s, acts);
            LockInv(s') && IsUser(s'.rows, UserK(user)) && s'.rows[UserK(user)].u.deleted
    decreases |acts|
  {
    if acts != [] {
      LockStep(p, s, acts[0]);
      UserStep(p, s, acts[0], UserK(user));
      DeletionSticks(p, Apply(p, s, acts[0]), acts[1..], user);
    }
  }

  /** Once a user's deletion has committed no refresh of any of its sessions commits, whenever the
      refresh began. */
  lemma NoRefreshAfterDeletion(p: Params, s: State, acts: seq<Action>, user: Id, a: Action)
    requires LockInv(s) && Run(p, s, acts)
    requires IsUser(s.rows, UserK(user)) && s.rows[UserK(user)].u.deleted
    requires var s' := Exec(p, s, acts); Enabled(p, s', a) && a.Commit? && s'.txs[a.t].op.Refresh?
    ensures var s' := Exec(p, s, acts); Subject(s'.txs[a.t]) != Some(user)
  {
    DeletionSticks(p, s, acts, user);
    assert Current(Exec(p, s, acts), a.t);
  }

  // ------------------------------------------------------------ one live user per address

  ghost predicate LiveAt(rows: Rows, k: Key, email: string) {
    IsUser(rows, k) && rows[k].u.email == email && !rows[k].u.deleted
  }

  ghost predicate OneLive(rows: Rows, k: Key, l: Key, email: string) {
    LiveAt(rows, k, email) && LiveAt(rows, l, email) ==> k == l
  }

  /** A password change in progress has read the address that is on the row. */
  ghost predicate SameAddress(s: State, t: TxId) {
    t in s.txs && s.txs[t].op.ChangePassword? && s.txs[t].snap.Some? ==>
      HasUser(s.rows, s.txs[t].op.user) && s.rows[UserK(s.txs[t].op.user)].u.email == s.txs[t].snap.value.email
  }

  ghost predicate AddressInv(s: State) {
    && LockInv(s)
    && (forall t :: SameAddress(s, t))
    && (forall k, l, email :: OneLive(s.rows, k, l, email))
  }

  /** An address never changes. */
  lemma AddressStays(p: Params, s: State, a: Action, k: Key)
    requires LockInv(s) && Enabled(p, s, a) && (forall t :: SameAddress(s, t)) && IsUser(s.rows, k)
    ensures var s' := Apply(p, s, a);
            && IsUser(s'.rows, k) && s'.rows[k].u.email == s.rows[k].u.email
            && (s.rows[k].u.deleted ==> s'.rows[k].u.deleted)
  {
    UserStep(p, s, a, k);
    if a.Commit? { assert SameAddress(s, a.t); }
  }

  lemma SameAddressStep(p: Params, s: State, a: Action, t: TxId)
    requires LockInv(s) && Enabled(p, s, a) && (forall u :: SameAddress(s, u))
    ensures SameAddress(Apply(p, s, a), t)
  {
    var s' := Apply(p, s, a);
    if t in s'.txs && s'.txs[t].op.ChangePassword? && s'.txs[t].snap.Some? {
      assert SameAddress(s, t);
      if t in s.txs { AddressStays(p, s, a, UserK(s'.txs[t].op.user)); }
    }
  }

  /** A live user of an address was one before, or is created now, when there is none. */
  lemma LiveFrom(p: Params, s: State, a: Action, k: Key, email: string)
    requires LockInv(s) && Enabled(p, s, a) && (forall t :: SameAddress(s, t))
    requires LiveAt(Apply(p, s, a).rows, k, email)
    ensures || LiveAt(s.rows, k, email)
            || (a.Commit? && s.txs[a.t].op.CompleteRegistration? && k == UserK(s.txs[a.t].op.user)
                && forall l :: !LiveAt(s.rows, l, email))
  {
    UserStep(p, s, a, k);
    if IsUser(s.rows, k) {
      AddressStays(p, s, a, k);
    } else if a.Commit? {
      assert EmailFree(s.rows, email);
    }
  }

  lemma AddressStep(p: Params, s: State, a: Action)
    requires AddressInv(s) && Enabled(p, s, a)
    ensures AddressInv(Apply(p, s, a))
  {
    var s' := Apply(p, s, a);
    LockStep(p, s, a);
    forall t ensures SameAddress(s', t) { SameAddressStep(p, s, a, t); }
    forall k, l, email ensures OneLive(s'.rows, k, l, email) {
      if LiveAt(s'.rows, k, email) && LiveAt(s'.rows, l, email) {
        LiveFrom(p, s, a, k, email);
        LiveFrom(p, s, a, l, email);
        assert OneLive(s.rows, k, l, email);
      }
    }
  }

  lemma {:induction false} AddressRun(p: Params, s: State, acts: seq<Action>)
    requires AddressInv(s) && Run(p, s, acts)
    ensures AddressInv(Exec(p, s, acts))
    decreases |acts|
  {
    if acts != [] {
      AddressStep(p, s, acts[0]);
      AddressRun(p, Apply(p, s, acts[0]), acts[1..]);
    }
  }

  /** In every state of every run an address belongs to at most one user that is not deleted, although
      password changes write the address back and deleted users free theirs. */
  lemma OneUserPerAddress(p: Params, start: Time, acts: seq<Action>, u: Id, v: Id)
    requires Run(p, Init(start), acts)
    requires var rows := Exec(p, Init(start), acts).rows;
             LiveUser(rows, u) && LiveUser(rows, v) && rows[UserK(u)].u.email == rows[UserK(v)].u.email
    ensures u == v
  {
    AddressRun(p, Init(start), acts);
    var rows := Exec(p, Init(start), acts).rows;
    assert OneLive(rows, UserK(u), UserK(v), rows[UserK(u)].u.email);
  }

  /** And a deleted user frees the address: a valid invitation to it can be completed. */
  lemma DeletedFrees(rows: Rows, tx: Tx, at: Time)
    requires tx.op.CompleteRegistration? && TargetRead(tx) && UserK(tx.op.user) !in rows
    requires var g := Target(tx).g; g.used.None? && g.revoked.None? && at < g.expires
    requires forall k :: k in rows && rows[k].URow? && rows[k].u.email == Target(tx).g.email ==> rows[k].u.deleted
    ensures Ready(rows, tx, at)
  {
  }
}
