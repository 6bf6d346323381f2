/**
 The PostgreSQL side: users, sessions and one-time tokens, changed by transactions that lock
 rows with SELECT ... FOR UPDATE and commit or roll back. Every service operation is a
 transaction program; its steps interleave with those of all others.

 A row change becomes visible when its transaction commits, so what interleaves is the taking
 of locks, the statement snapshots of bulk updates, and the commits. A transaction may roll
 back at any point: that stands for every error path.
 */
module Database {
  import opened Options
  import opened Revocation

  type Id = string
  type Time = int
  type Hash = nat      // digest of a generated secret; digests of distinct secrets differ
  type Name = nat      // object name of a picture
  type TxId = nat

  datatype Key = UserK(id: Id) | SessK(id: Id) | RegK(id: Id) | RecK(id: Id)

  datatype User = User(email: string, profile: string, password: string, picture: Option<Name>, deleted: bool)
  datatype Session = Session(owner: Id, hash: Hash, expires: Time, revoked: Option<Time>)
  datatype Registration = Registration(
    email: string, name: string, hash: Hash, expires: Time, used: Option<Time>, revoked: Option<Time>)
  datatype Recovery = Recovery(owner: Id, hash: Hash, expires: Time, used: Option<Time>)

  datatype Row = URow(u: User) | SRow(s: Session) | GRow(g: Registration) | CRow(c: Recovery)

  type Rows = map<Key, Row>

  datatype Op =
    | Register(email: string, invitee: string, id: Id, hash: Hash, expires: Time)
    | CompleteRegistration(hash: Hash, user: Id, password: string)
    | Login(user: Id, session: Id, hash: Hash, expires: Time)
    | Refresh(hash: Hash, next: Hash)
    | EndSession(session: Id)              // Logout and RevokeSession
    | RevokeUserSessions(user: Id)
    | RecoverPassword(user: Id, id: Id, hash: Hash, expires: Time)
    | ResetPassword(hash: Hash, password: string)
    | ChangePassword(user: Id, password: string)
    | UpdateUser(user: Id, profile: string)
    | DeleteUser(user: Id)
    | ChangePicture(user: Id, name: Name)
    | DeletePicture(user: Id)

  /** A transaction in progress: the rows it has locked, as it read them. */
  datatype Tx = Tx(
    op: Op,
    snap: Option<User>,           // read without a lock before the transaction (ChangePassword)
    target: Option<Key>,          // the row found by the first SELECT ... FOR UPDATE
    held: Rows,                  // every locked row
    scan: Option<set<Key>>,       // the rows a bulk UPDATE's statement snapshot matched
    signed: bool,                 // an access token has been minted (Refresh)
    shared: bool)                 // the inserted row's foreign key holds its user's row FOR KEY SHARE (Login)

  /** A committed transaction, as history. */
  datatype Entry = Entry(op: Op, target: Option<Key>, writes: Rows, audited: bool)

  datatype State = State(
    rows: Rows,
    txs: map<TxId, Tx>,
    log: seq<Entry>,              // commit order
    audit: seq<Op>,               // audit_logs
    hashes: set<Hash>,            // every secret ever generated
    sessionIds: set<Id>,          // every session id ever generated
    now: Time,
    tokens: set<Token>,
    markers: Markers,             // Redis
    due: set<Id>,                 // session markers still to be written
    ended: map<Id, Time>,         // revoked sessions whose marker has landed, and when
    names: set<Name>,             // every picture name ever generated
    objects: set<Name>,           // object storage
    deletes: set<Name>)           // asynchronous deletes still to run

  datatype Params = Params(ttl: int, eps: int)

  // ------------------------------------------------------------ statements

  predicate HasUser(rows: Rows, user: Id) {
    UserK(user) in rows && rows[UserK(user)].URow?
  }

  predicate LiveUser(rows: Rows, user: Id) {
    HasUser(rows, user) && !rows[UserK(user)].u.deleted
  }

  /** The row the first SELECT ... FOR UPDATE (or UPDATE by id) of the operation is after. */
  ghost predicate IsTarget(op: Op, k: Key, r: Row) {
    match op
    case CompleteRegistration(h, _, _) => k.RegK? && r.GRow? && r.g.hash == h
    case Refresh(h, _) => k.SessK? && r.SRow? && r.s.hash == h
    case EndSession(session) => k == SessK(session) && r.SRow?
    case ResetPassword(h, _) => k.RecK? && r.CRow? && r.c.hash == h
    case ChangePassword(user, _) => k == UserK(user) && r.URow?
    case RecoverPassword(user, _, _, _) => k == UserK(user) && r.URow? && !r.u.deleted
    case UpdateUser(user, _) => k == UserK(user) && r.URow? && !r.u.deleted
    case DeleteUser(user) => k == UserK(user) && r.URow? && !r.u.deleted
    case ChangePicture(user, _) => k == UserK(user) && r.URow? && !r.u.deleted
    case DeletePicture(user) => k == UserK(user) && r.URow? && !r.u.deleted
    case _ => false
  }

  ghost predicate TargetRead(tx: Tx) {
    tx.target.Some? && tx.target.value in tx.held && IsTarget(tx.op, tx.target.value, tx.held[tx.target.value])
  }

  /** The target row as read. */
  ghost function Target(tx: Tx): Row
    requires TargetRead(tx)
  {
    tx.held[tx.target.value]
  }

  /** The user whose row is read second, or whose sessions are revoked in bulk. */
  ghost function Subject(tx: Tx): Option<Id> {
    match tx.op
    case Refresh(_, _) => if TargetRead(tx) then Some(Target(tx).s.owner) else None
    case ResetPassword(_, _) => if TargetRead(tx) then Some(Target(tx).c.owner) else None
    case RevokeUserSessions(user) => Some(user)
    case ChangePassword(user, _) => Some(user)
    case DeleteUser(user) => Some(user)
    case _ => None
  }

  ghost predicate UserRead(tx: Tx) {
    Subject(tx).Some? && UserK(Subject(tx).value) in tx.held
    && tx.held[UserK(Subject(tx).value)].URow? && !tx.held[UserK(Subject(tx).value)].u.deleted
  }

  ghost predicate BulkUpdates(op: Op) {
    op.Register? || op.RevokeUserSessions? || op.ResetPassword? || op.ChangePassword? || op.DeleteUser?
  }

  /** The bulk UPDATE's WHERE clause, evaluated on the snapshot and again on each locked row. */
  ghost predicate Matches(tx: Tx, k: Key, r: Row) {
    if tx.op.Register? then k.RegK? && r.GRow? && r.g.email == tx.op.email && r.g.used.None? && r.g.revoked.None?
    else k.SessK? && r.SRow? && Subject(tx) == Some(r.s.owner) && r.s.revoked.None?
  }

  ghost function RevokedRow(r: Row, at: Time): Row {
    match r
    case SRow(s) => SRow(s.(revoked := Some(at)))
    case GRow(g) => GRow(g.(revoked := Some(at)))
    case _ => r
  }

  /** Rows the bulk UPDATE changes: matched by the snapshot, and still matching once locked. */
  ghost function BulkRevoked(tx: Tx, at: Time): Rows {
    if tx.scan.None? then map[] else
    map k | k in tx.scan.value && k in tx.held && Matches(tx, k, tx.held[k]) :: RevokedRow(tx.held[k], at)
  }

  ghost predicate Scanned(tx: Tx) {
    tx.scan.Some? && tx.scan.value <= tx.held.Keys
  }

  /** The unique index on the e-mail of users that are not deleted. */
  ghost predicate EmailFree(rows: Rows, email: string) {
    forall k :: k in rows && rows[k].URow? && rows[k].u.email == email ==> rows[k].u.deleted
  }

  /** The closure returned nil: every check passed and every statement ran. A user whom DeleteUser did
      not find is still missing at its commit, because ids of new users are fresh and deletion is final. */
  ghost predicate Ready(rows: Rows, tx: Tx, at: Time) {
    MayCommit(rows, tx, at) == true
  }

  ghost predicate MayCommit(rows: Rows, tx: Tx, at: Time) {
    match tx.op
    case Register(_, _, id, _, _) => Scanned(tx) && RegK(id) !in rows
    case CompleteRegistration(_, user, _) =>
      && TargetRead(tx) && UserK(user) !in rows
      && var g := Target(tx).g;
      g.used.None? && g.revoked.None? && g.expires > at && EmailFree(rows, g.email)
    case Login(_, session, _, _) => tx.shared && SessK(session) !in rows
    case Refresh(_, _) =>
      TargetRead(tx) && UserRead(tx) && tx.signed && Target(tx).s.expires >= at && Target(tx).s.revoked.None?
    case EndSession(_) => TargetRead(tx)
    case RevokeUserSessions(_) => Scanned(tx)
    case RecoverPassword(_, id, _, _) => TargetRead(tx) && RecK(id) !in rows
    case ResetPassword(_, _) =>
      TargetRead(tx) && UserRead(tx) && Scanned(tx) && Target(tx).c.expires >= at && Target(tx).c.used.None?
    case ChangePassword(user, _) => TargetRead(tx) && Scanned(tx) && tx.snap.Some?
    case DeleteUser(user) => if tx.target.None? then !LiveUser(rows, user) else TargetRead(tx) && Scanned(tx)
    case UpdateUser(_, _) | ChangePicture(_, _) | DeletePicture(_) => TargetRead(tx)
  }

  /** Logout and RevokeSession leave an expired or revoked session alone. */
  ghost predicate AlreadyOver(s: Session, at: Time) {
    s.expires < at || s.revoked.Some?
  }

  /** The rows a ready transaction writes, computed from the rows it read. */
  ghost function Writes(rows: Rows, tx: Tx, at: Time): Rows
    requires Ready(rows, tx, at)
  {
    match tx.op
    case Register(email, name, id, hash, expires) =>
      BulkRevoked(tx, at)[RegK(id) := GRow(Registration(email, name, hash, expires, None, None))]
    case CompleteRegistration(_, user, password) =>
      var g := Target(tx).g;
      map[tx.target.value := GRow(g.(used := Some(at))),
          UserK(user) := URow(User(g.email, g.name, password, None, false))]
    case Login(user, session, hash, expires) => map[SessK(session) := SRow(Session(user, hash, expires, None))]
    case Refresh(_, next) => map[tx.target.value := SRow(Target(tx).s.(hash := next))]
    case EndSession(_) =>
      if AlreadyOver(Target(tx).s, at) then map[] else map[tx.target.value := SRow(Target(tx).s.(revoked := Some(at)))]
    case RevokeUserSessions(_) => BulkRevoked(tx, at)
    case RecoverPassword(user, id, hash, expires) => map[RecK(id) := CRow(Recovery(user, hash, expires, None))]
    case ResetPassword(_, password) =>
      var k := UserK(Subject(tx).value);
      BulkRevoked(tx, at)[tx.target.value := CRow(Target(tx).c.(used := Some(at)))]
      [k := URow(tx.held[k].u.(password := password))]
    case ChangePassword(_, password) =>
      // the UPDATE writes every column of the earlier unlocked read, except role and deleted_at
      BulkRevoked(tx, at)[tx.target.value :=
      URow(tx.snap.value.(password := password, deleted := Target(tx).u.deleted))]
    case UpdateUser(_, profile) => map[tx.target.value := URow(Target(tx).u.(profile := profile))]
    case DeleteUser(_) =>
      if tx.target.None? then map[]
      else BulkRevoked(tx, at)[tx.target.value := URow(Target(tx).u.(deleted := true))]
    case ChangePicture(_, name) => map[tx.target.value := URow(Target(tx).u.(picture := Some(name)))]
    case DeletePicture(_) =>
      if Target(tx).u.picture.None? then map[] else map[tx.target.value := URow(Target(tx).u.(picture := None))]
  }

  /** Whether the closure reached its audit record before returning nil. */
  ghost predicate Audited(rows: Rows, tx: Tx, at: Time)
    requires Ready(rows, tx, at)
  {
    match tx.op
    case Refresh(_, _) => false
    case EndSession(_) => !AlreadyOver(Target(tx).s, at)
    case DeleteUser(_) => tx.target.Some?
    case DeletePicture(_) => Target(tx).u.picture.Some?
    case _ => true
  }

  // ------------------------------------------------------------ steps

  datatype Action =
    | Begin(t: TxId, op: Op, reading: Time)
    | LockTarget(t: TxId, k: Key)
    | LockUser(t: TxId)
    | LockShared(t: TxId)
    | Scan(t: TxId)
    | LockScanned(t: TxId, k: Key)
    | Sign(t: TxId, reading: Time)
    | Commit(t: TxId, at: Time)
    | Abort(t: TxId)
    | LandMarker(session: Id)
    | DeleteObject(name: Name, succeeds: bool)
    | Advance(dt: nat)

  /** The row whose key the inserted row refers to. */
  ghost predicate SharesKey(tx: Tx, k: Key) {
    tx.shared && tx.op.Login? && k == UserK(tx.op.user)
  }

  /** The transaction holds user row k FOR UPDATE. ChangePassword only updates columns that no foreign
      key refers to, which leaves the row open to FOR KEY SHARE. */
  ghost predicate ExcludesShare(tx: Tx, k: Key) {
    k in tx.held && !tx.op.ChangePassword?
  }

  ghost predicate Unshared(s: State, t: TxId, k: Key) {
    forall u :: u in s.txs && u != t ==> !SharesKey(s.txs[u], k)
  }

  ghost predicate Unlocked(s: State, t: TxId, k: Key) {
    forall u :: u in s.txs && u != t ==> k !in s.txs[u].held
  }

  ghost function Generated(op: Op): set<Hash> {
    match op
    case Register(_, _, _, h, _) => {h}
    case Login(_, _, h, _) => {h}
    case Refresh(_, h) => {h}
    case RecoverPassword(_, _, h, _) => {h}
    case _ => {}
  }

  /** What the operation reads before its first locked statement, and goes by. */
  ghost predicate EarlyReads(rows: Rows, op: Op) {
    match op
    case Register(email, _, _, _, _) => EmailFree(rows, email)
    case Login(user, _, _, _) => LiveUser(rows, user)
    case ChangePassword(user, _) => LiveUser(rows, user)
    case _ => true
  }

  /** Reads and generations made before the first locked statement. */
  ghost predicate MayBegin(p: Params, s: State, op: Op, reading: Time) {
    && Generated(op) !! s.hashes
    && EarlyReads(s.rows, op)
    && (op.Login? ==> op.session !in s.sessionIds && Near(p.eps, reading, s.now))
    && (op.ChangePicture? ==> op.name !in s.names)
  }

  /** Stated as an equation, so that the verifier does not expand the condition at every use. */
  ghost predicate Enabled(p: Params, s: State, a: Action) {
    MayStep(p, s, a) == true
  }

  ghost predicate MayStep(p: Params, s: State, a: Action) {
    match a
    case Begin(t, op, reading) => t !in s.txs && MayBegin(p, s, op, reading)
    case LockTarget(t, k) =>
      t in s.txs && s.txs[t].target.None? && s.txs[t].scan.None?
      && k in s.rows && IsTarget(s.txs[t].op, k, s.rows[k]) && Unlocked(s, t, k)
      && (s.txs[t].op.ChangePassword? || Unshared(s, t, k))
    case LockUser(t) =>
      t in s.txs && (s.txs[t].op.Refresh? || s.txs[t].op.ResetPassword?) && s.txs[t].scan.None? &&
      Subject(s.txs[t]).Some?
      && var user := Subject(s.txs[t]).value;
      && LiveUser(s.rows, user) && UserK(user) !in s.txs[t].held
      && Unlocked(s, t, UserK(user)) && Unshared(s, t, UserK(user))
    case LockShared(t) =>
      t in s.txs && s.txs[t].op.Login? && HasUser(s.rows, s.txs[t].op.user)
      && forall u :: u in s.txs && u != t ==> !ExcludesShare(s.txs[u], UserK(s.txs[t].op.user))
    case Scan(t) => t in s.txs && BulkUpdates(s.txs[t].op) && s.txs[t].scan.None?
                    && (s.txs[t].op.ResetPassword? ==> UserRead(s.txs[t]))
    case LockScanned(t, k) =>
      t in s.txs && s.txs[t].scan.Some? && k in s.txs[t].scan.value && k in s.rows
      && Unlocked(s, t, k) && Unshared(s, t, k) && k !in s.txs[t].held
    case Sign(t, reading) =>
      t in s.txs && s.txs[t].op.Refresh? && !s.txs[t].signed && Near(p.eps, reading, s.now)
      && TargetRead(s.txs[t]) && UserRead(s.txs[t]) && Target(s.txs[t]).s.revoked.None?
    case Commit(t, at) => t in s.txs && Ready(s.rows, s.txs[t], at)
    case Abort(t) => t in s.txs
    case LandMarker(session) => session in s.due
    case DeleteObject(name, _) => name in s.deletes
    case Advance(_) => true
  }

  ghost function Started(s: State, op: Op): Tx {
    Tx(op,
       if op.ChangePassword? && UserK(op.user) in s.rows && s.rows[UserK(op.user)].URow?
       then Some(s.rows[UserK(op.user)].u) else None,
       None, map[], None, false, false)
  }

  /** The picture a committed transaction leaves without a reference, to be deleted later. */
  ghost function Orphaned(tx: Tx): set<Name> {
    if (tx.op.ChangePicture? || tx.op.DeletePicture?) && TargetRead(tx) && Target(tx).u.picture.Some?
    then {Target(tx).u.picture.value} else {}
  }

  ghost predicate Revoked(rows: Rows, session: Id) {
    SessK(session) in rows && rows[SessK(session)].SRow? && rows[SessK(session)].s.revoked.Some?
  }

  ghost function Apply(p: Params, s: State, a: Action): State
    requires Enabled(p, s, a)
  {
    match a
    case Begin(t, op, reading) =>
      s.(txs := s.txs[t := Started(s, op)],
         hashes := s.hashes + Generated(op),
         sessionIds := if op.Login? then s.sessionIds + {op.session} else s.sessionIds,
         tokens := if op.Login? then s.tokens + {Token(s.now, SignAccessToken(reading, p.ttl, op.user, op.session))}
                   else s.tokens,
         names := if op.ChangePicture? then s.names + {op.name} else s.names,
         objects := if op.ChangePicture? then s.objects + {op.name} else s.objects)
    case LockTarget(t, k) =>
      s.(txs := s.txs[t := s.txs[t].(target := Some(k), held := s.txs[t].held[k := s.rows[k]])])
    case LockUser(t) =>
      var k := UserK(Subject(s.txs[t]).value);
      s.(txs := s.txs[t := s.txs[t].(held := s.txs[t].held[k := s.rows[k]])])
    case LockShared(t) => s.(txs := s.txs[t := s.txs[t].(shared := true)])
    case Scan(t) =>
      s.(txs := s.txs[t := s.txs[t].(scan := Some(set k | k in s.rows && Matches(s.txs[t], k, s.rows[k])))])
    case LockScanned(t, k) =>
      s.(txs := s.txs[t := s.txs[t].(held := s.txs[t].held[k := s.rows[k]])])
    case Sign(t, reading) =>
      var tx := s.txs[t];
      s.(txs := s.txs[t := tx.(signed := true)],
         tokens := s.tokens + {Token(s.now, SignAccessToken(reading, p.ttl, Subject(tx).value, tx.target.value.id))})
    case Commit(t, at) =>
      var tx := s.txs[t];
      s.(rows := s.rows + Writes(s.rows, tx, at),
         txs := s.txs - {t},
         log := s.log + [Entry(tx.op, tx.target, Writes(s.rows, tx, at), Audited(s.rows, tx, at))],
         audit := if Audited(s.rows, tx, at) then s.audit + [tx.op] else s.audit,
         due := if tx.op.EndSession? then s.due + {tx.op.session} else s.due,
         deletes := s.deletes + Orphaned(tx))
    case Abort(t) =>
      s.(txs := s.txs - {t},
         deletes := if s.txs[t].op.ChangePicture? then s.deletes + {s.txs[t].op.name} else s.deletes)
    case LandMarker(session) =>
      s.(markers := s.markers[SessionKey(session) := Marker("1", s.now + RevocationTTL(p.ttl))],
         due := s.due - {session},
         ended := if Revoked(s.rows, session) then s.ended[session := s.now] else s.ended)
    case DeleteObject(name, succeeds) =>
      s.(objects := if succeeds then s.objects - {name} else s.objects, deletes := s.deletes - {name})
    case Advance(dt) => s.(now := s.now + dt)
  }

  ghost predicate Run(p: Params, s: State, acts: seq<Action>)
    decreases |acts|
  {
    acts == [] || (Enabled(p, s, acts[0]) && Run(p, Apply(p, s, acts[0]), acts[1..]))
  }

  ghost function Exec(p: Params, s: State, acts: seq<Action>): State
    requires Run(p, s, acts)
    decreases |acts|
  {
    if acts == [] then s else Exec(p, Apply(p, s, acts[0]), acts[1..])
  }

  /** Extends a run by one step. */
  lemma {:induction false} RunStep(p: Params, s: State, acts: seq<Action>, a: Action)
    requires Run(p, s, acts) && Enabled(p, Exec(p, s, acts), a)
    ensures Run(p, s, acts + [a]) && Exec(p, s, acts + [a]) == Apply(p, Exec(p, s, acts), a)
    decreases |acts|
  {
    if acts == [] {
      assert [a][1..] == [] && Run(p, Apply(p, s, a), []);
      assert [] + [a] == [a];
    } else {
      assert (acts + [a])[1..] == acts[1..] + [a];
      RunStep(p, Apply(p, s, acts[0]), acts[1..], a);
    }
  }

  ghost function Init(now: Time): State {
    State(map[], map[], [], [], {}, {}, now, {}, map[], {}, map[], {}, {}, {})
  }
}
