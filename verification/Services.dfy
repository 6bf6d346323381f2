/**
 The service methods as code: each runs a transaction over the database and then writes its
 revocation markers. Every method is proved to do exactly what its operation does in the
 transaction protocol, and to leave the database as it was when it fails.
 */
module Services {
  import opened Options
  import opened Database
  import opened Alone
  import opened Records
  import opened Decimal
  import opened Revocation

  // ------------------------------------------------------------ contracts

  /** What a method leaves behind: on success the operation's writes and its audit row, on failure
      the database as it was. */
  ghost predicate Outcome(rows: Rows, audit: seq<Op>, tx: Tx, at: Time, ok: bool, rows': Rows, audit': seq<Op>) {
    if ok then
      && Ready(rows, tx, at) && rows' == rows + Writes(rows, tx, at)
      && audit' == if Audited(rows, tx, at) then audit + [tx.op] else audit
    else rows' == rows && audit' == audit
  }

  /** A closure did its operation, or failed for a reason. */
  ghost predicate Tried(rows: Rows, audit: seq<Op>, op: Op, target: Option<Key>, at: Time,
                        ok: bool, rows': Rows, audit': seq<Op>, broken: bool) {
    && (broken || Found(rows, op, target))
    && (ok ==> Outcome(rows, audit, Reading(rows, op, target), at, ok, rows', audit'))
    && (!ok ==> broken || !Ready(rows, Reading(rows, op, target), at))
  }

  /** A transaction did its operation, or failed for a reason and left no trace. */
  ghost predicate Did(rows: Rows, audit: seq<Op>, op: Op, target: Option<Key>, at: Time,
                      ok: bool, rows': Rows, audit': seq<Op>, broken: bool) {
    Tried(rows, audit, op, target, at, ok, rows', audit', broken) && (!ok ==> rows' == rows && audit' == audit)
  }

  // ------------------------------------------------------------ sessions

  lemma RefreshReads(rows: Rows, op: Op, k: Key, at: Time)
    requires op.Refresh? && k in rows && IsTarget(op, k, rows[k])
    ensures var tx, s := Reading(rows, op, Some(k)), rows[k].s;
            && (Ready(rows, tx, at) <==> s.expires >= at && s.revoked.None? && LiveUser(rows, s.owner))
            && (Ready(rows, tx, at) ==> Writes(rows, tx, at) == map[k := SRow(s.(hash := op.next))])
  {
  }

  datatype TokenPair = TokenPair(access: Claims, refresh: Hash)

  /** Generating a token, signing it and reading the request context can fail; `able` says they do
      not. The pair is returned only once the rotation has committed. */
  method RefreshAccessToken(db: DB, hash: Hash, next: Hash, ttl: int, reading: Time, at: Time, able: bool)
    returns (pair: Option<TokenPair>, ghost target: Option<Key>)
    modifies db
    ensures var tx := Reading(old(db.rows), Refresh(hash, next), target);
            && (db.broken || Found(old(db.rows), Refresh(hash, next), target))
            && Outcome(old(db.rows), old(db.audit), tx, at, pair.Some?, db.rows, db.audit)
            && (pair.None? ==> db.broken || !able || !Ready(old(db.rows), tx, at))
    ensures pair.Some? ==> Renews(old(db.rows), target, pair.value, next, ttl, reading)
  {
    target, pair := None, None;
    var ok := db.Statement();
    if !ok {
      return;
    }
    var rows, audit := db.rows, db.audit;
    var renewed;
    ok, renewed, target := RefreshClosure(db, hash, next, ttl, reading, at, able);
    ok := db.Finish(ok, rows, audit);
    if ok {
      pair := Some(renewed);
    }
  }

  /** An access token for the session and its owner, and the new refresh token. */
  ghost predicate Renews(rows: Rows, target: Option<Key>, pair: TokenPair, next: Hash, ttl: int, reading: Time) {
    && target.Some? && target.value in rows && rows[target.value].SRow?
    && pair == TokenPair(SignAccessToken(reading, ttl, rows[target.value].s.owner, target.value.id), next)
  }

  method RefreshClosure(db: DB, hash: Hash, next: Hash, ttl: int, reading: Time, at: Time, able: bool)
    returns (ok: bool, pair: TokenPair, ghost target: Option<Key>)
    modifies db
    ensures var tx := Reading(old(db.rows), Refresh(hash, next), target);
            && (db.broken || Found(old(db.rows), Refresh(hash, next), target))
            && (ok ==> Outcome(old(db.rows), old(db.audit), tx, at, ok, db.rows, db.audit))
            && (!ok ==> db.broken || !able || !Ready(old(db.rows), tx, at))
    ensures ok ==> Renews(old(db.rows), target, pair, next, ttl, reading)
  {
    target, pair := None, TokenPair(Claims("", "", 0, 0), 0);
    var sess: SessionRecord?;
    ok, sess := db.GetSessionByRefreshTokenHash(hash);
    if !ok || sess == null {
      return false, pair, None;
    }
    target := Some(sess.key);
    RefreshReads(db.rows, Refresh(hash, next), sess.key, at);
    if sess.IsExpired(at) {
      return false, pair, target;
    }
    if sess.revoked.Some? {
      return false, pair, target;
    }
    var u: UserRecord?;
    ok, u := db.GetUserByID(sess.owner);
    if !ok || u == null {
      return false, pair, target;
    }
    pair := TokenPair(SignAccessToken(reading, ttl, sess.owner, sess.key.id), next);
    ok := sess.Rotate(next, able);
    if !ok {
      return;
    }
    ok := db.UpdateSession(sess);
  }

  lemma EndReads(rows: Rows, session: Id, at: Time)
    requires SessK(session) in rows && rows[SessK(session)].SRow?
    ensures var k := SessK(session);
            var tx, s := Reading(rows, EndSession(session), Some(k)), rows[k].s;
            && Ready(rows, tx, at)
            && (Audited(rows, tx, at) <==> at <= s.expires && s.revoked.None?)
            && Writes(rows, tx, at) ==
               if at <= s.expires && s.revoked.None? then map[k := SRow(s.(revoked := Some(at)))] else map[]
  {
  }

  /** A session that has neither expired nor been revoked is revoked at `at` and one audit row tells so;
      any other is left alone, and so is the audit trail. */
  ghost predicate SessionEnded(rows: Rows, audit: seq<Op>, session: Id, at: Time, rows': Rows, audit': seq<Op>) {
    var k := SessK(session);
    && k in rows && rows[k].SRow?
    && (at <= rows[k].s.expires && rows[k].s.revoked.None? ==>
          rows' == rows[k := SRow(rows[k].s.(revoked := Some(at)))] && audit' == audit + [EndSession(session)])
    && (rows[k].s.expires < at || rows[k].s.revoked.Some? ==> rows' == rows && audit' == audit)
  }

  lemma EndIs(rows: Rows, audit: seq<Op>, session: Id, at: Time, rows': Rows, audit': seq<Op>)
    requires SessK(session) in rows && rows[SessK(session)].SRow?
    requires Outcome(rows, audit, Reading(rows, EndSession(session), Some(SessK(session))), at, true, rows', audit')
    ensures SessionEnded(rows, audit, session, at, rows', audit')
  {
    EndReads(rows, session, at);
  }

  /** Ends one session, if its owner may be acted for. */
  method EndSessionClosure(db: DB, session: Id, authorized: Id -> bool, at: Time)
    returns (ok: bool, ghost target: Option<Key>)
    modifies db
    ensures db.broken || Found(old(db.rows), EndSession(session), target)
    ensures ok ==> Outcome(old(db.rows), old(db.audit), Reading(old(db.rows), EndSession(session), target), at, ok,
                           db.rows, db.audit)
    ensures ok ==> target == Some(SessK(session)) && authorized(old(db.rows)[SessK(session)].s.owner)
    ensures !ok && !db.broken && target.Some? ==> !authorized(old(db.rows)[SessK(session)].s.owner)
  {
    target := None;
    var sess: SessionRecord?;
    ok, sess := db.GetSessionByID(session);
    if !ok || sess == null {
      return false, None;
    }
    target := Some(sess.key);
    EndReads(db.rows, session, at);
    if !authorized(sess.owner) {
      return false, target;
    }
    if sess.IsExpired(at) || sess.revoked.Some? {
      assert db.rows + map[] == db.rows;
      return true, target;
    }
    sess.Revoke(at);
    ok := db.UpdateSession(sess);
    if ok {
      ok := db.Record(EndSession(session));
    }
  }

  /** Logging out is done once the row is; the marker is written if it can be. */
  method Logout(db: DB, revoker: RevocationStore, session: Id, at: Time, reply: Reply)
    returns (ok: bool, ghost target: Option<Key>)
    modifies db, revoker
    ensures Did(old(db.rows), old(db.audit), EndSession(session), target, at, ok, db.rows, db.audit, db.broken)
    ensures ok ==> SessionEnded(old(db.rows), old(db.audit), session, at, db.rows, db.audit)
    ensures revoker.markers == if ok then SessionMarked(old(revoker.markers), revoker.jwtTTL, session, at, reply)
                               else old(revoker.markers)
  {
    target := None;
    ok := db.Statement();
    if !ok {
      return;
    }
    var rows, audit := db.rows, db.audit;
    ok, target := EndSessionClosure(db, session, owner => true, at);
    ok := db.Finish(ok, rows, audit);
    if ok {
      EndIs(rows, audit, session, at, db.rows, db.audit);
      var written := revoker.RevokeSession(session, at, reply);
    }
  }

  /** Revoking a session reports success only once the marker is written too. */
  method RevokeSession(db: DB, revoker: RevocationStore, session: Id, authorized: Id -> bool, at: Time, reply: Reply)
    returns (ok: bool, ghost committed: bool, ghost target: Option<Key>)
    modifies db, revoker
    ensures db.broken || Found(old(db.rows), EndSession(session), target)
    ensures Outcome(old(db.rows), old(db.audit), Reading(old(db.rows), EndSession(session), target), at, committed,
                    db.rows, db.audit)
    ensures committed ==> target == Some(SessK(session)) && authorized(old(db.rows)[SessK(session)].s.owner)
    ensures committed ==> SessionEnded(old(db.rows), old(db.audit), session, at, db.rows, db.audit)
    ensures !committed && !db.broken && target.Some? ==> !authorized(old(db.rows)[SessK(session)].s.owner)
    ensures ok <==> committed && (revoker.jwtTTL <= 0 || reply.Applied?)
    ensures revoker.markers == if committed
                               then SessionMarked(old(revoker.markers), revoker.jwtTTL, session, at, reply)
                               else old(revoker.markers)
  {
    target, committed := None, false;
    ok := db.Statement();
    if !ok {
      return;
    }
    var rows, audit := db.rows, db.audit;
    ok, target := EndSessionClosure(db, session, authorized, at);
    ok := db.Finish(ok, rows, audit);
    committed := ok;
    if !ok {
      return;
    }
    EndIs(rows, audit, session, at, db.rows, db.audit);
    ok := revoker.RevokeSession(session, at, reply);
  }

  lemma LoginReads(rows: Rows, op: Op, at: Time)
    requires op.Login?
    ensures var tx := Reading(rows, op, None);
            && (Ready(rows, tx, at) <==> SessK(op.session) !in rows && HasUser(rows, op.user))
            && (Ready(rows, tx, at) ==>
                  Writes(rows, tx, at) == map[SessK(op.session) := SRow(Session(op.user, op.hash, op.expires, None))])
  {
  }

  method Login(db: DB, email: string, verified: string -> bool, session: Id, hash: Hash, expires: Time,
               ttl: int, reading: Time, at: Time, able: bool)
    returns (pair: Option<TokenPair>, ghost op: Op)
    modifies db
    ensures op.Login? && op.session == session && op.hash == hash && op.expires == expires
    ensures pair.Some? ==> UserWith(old(db.rows), op.user, email) && verified(old(db.rows)[UserK(op.user)].u.password)
    ensures pair.Some? ==> pair.value == TokenPair(SignAccessToken(reading, ttl, op.user, session), hash)
    ensures pair.None? ==> db.broken || !able || NoUserWith(old(db.rows), email) ||
                           (UserWith(old(db.rows), op.user, email)
                            && (!verified(old(db.rows)[UserK(op.user)].u.password) || SessK(session) in old(db.rows)))
    ensures Outcome(old(db.rows), old(db.audit), Reading(old(db.rows), op, None), at, pair.Some?, db.rows, db.audit)
  {
    op, pair := Database.Login("", session, hash, expires), None;
    var usr: UserRecord?;
    var ok;
    ok, usr := db.GetUserByEmail(email);
    if !ok || usr == null {
      return;
    }
    op := Database.Login(usr.id, session, hash, expires);
    if !verified(usr.password) {
      return;
    }
    if !able {
      return;
    }
    var access := SignAccessToken(reading, ttl, usr.id, session);
    LoginReads(db.rows, op, at);
    ok := db.Statement();
    if !ok {
      return;
    }
    var rows, audit := db.rows, db.audit;
    ok := db.StoreSession(session, Session(usr.id, hash, expires, None));
    if ok {
      ok := db.Record(Database.Login(usr.id, session, hash, expires));
    }
    ok := db.Finish(ok, rows, audit);
    if ok {
      pair := Some(TokenPair(access, hash));
    }
  }

  // ------------------------------------------------------------ bulk revocation

  lemma SameSubject(rows: Rows, op: Op, target: Option<Key>)
    requires Found(rows, op, target)
    ensures var r := ReadUser(rows, ReadTarget(rows, op, target));
            Subject(r) == Subject(ReadTarget(rows, op, target)) && Subject(ReadScan(rows, r)) == Subject(r)
  {
  }

  /** A bulk update run alone revokes every session of its user that is not revoked. */
  lemma BulkSessions(rows: Rows, op: Op, target: Option<Key>, at: Time)
    requires BulkUpdates(op) && !op.Register? && Found(rows, op, target)
    requires Subject(ReadTarget(rows, op, target)).Some?
    ensures var tx := Reading(rows, op, target);
            && Scanned(tx) && Subject(tx) == Subject(ReadTarget(rows, op, target))
            && BulkRevoked(tx, at) == RevokedSessions(rows, Subject(tx).value, at)
  {
    SameSubject(rows, op, target);
    ScannedAlone(rows, ReadUser(rows, ReadTarget(rows, op, target)));
    BulkOf(rows, Reading(rows, op, target), at);
  }

  lemma ScannedAlone(rows: Rows, r: Tx)
    requires BulkUpdates(r.op) && Subject(ReadScan(rows, r)) == Subject(r) && Subject(r).Some? && !r.op.Register?
    ensures FullScan(rows, ReadScan(rows, r))
  {
  }

  /** The scan is every unrevoked session of the user, and all of it is held as it stands. */
  ghost predicate FullScan(rows: Rows, tx: Tx) {
    && tx.scan.Some? && Subject(tx).Some?
    && tx.scan.value == RevokedSessions(rows, Subject(tx).value, 0).Keys
    && forall k :: k in tx.scan.value ==> k in tx.held && tx.held[k] == rows[k]
  }

  lemma BulkOf(rows: Rows, tx: Tx, at: Time)
    requires FullScan(rows, tx) && !tx.op.Register?
    ensures Scanned(tx) && BulkRevoked(tx, at) == RevokedSessions(rows, Subject(tx).value, at)
  {
  }

  method RevokeUserSessions(db: DB, revoker: RevocationStore, user: Id, permitted: bool, reading: int, at: Time,
                            reply: Reply)
    returns (ok: bool, ghost committed: bool)
    requires 0 < reading <= MAX_INT64
    modifies db, revoker
    ensures permitted ==> Did(old(db.rows), old(db.audit), Database.RevokeUserSessions(user), None, at, committed,
                              db.rows, db.audit, db.broken)
    ensures !permitted ==> !committed && db.rows == old(db.rows) && db.audit == old(db.audit)
    ensures ok <==> committed && (revoker.jwtTTL <= 0 || reply.Applied?)
    ensures revoker.markers == if committed
                               then UserMarked(old(revoker.markers), revoker.jwtTTL, user, reading, at, reply)
                               else old(revoker.markers)
  {
    committed := false;
    if !permitted {
      return false, false;
    }
    BulkSessions(db.rows, Database.RevokeUserSessions(user), None, at);
    ok := db.Statement();
    if !ok {
      return;
    }
    var rows, audit := db.rows, db.audit;
    ok := db.RevokeUserSessions(user, at);
    if ok {
      ok := db.Record(Database.RevokeUserSessions(user));
    }
    ok := db.Finish(ok, rows, audit);
    committed := ok;
    if !ok {
      return;
    }
    ok := revoker.RevokeAllForUser(user, reading, at, reply);
  }

  // ------------------------------------------------------------ passwords

  lemma ResetReads(rows: Rows, op: Op, k: Key, at: Time)
    requires op.ResetPassword? && k in rows && IsTarget(op, k, rows[k])
    ensures var tx, c := Reading(rows, op, Some(k)), rows[k].c;
            && (Ready(rows, tx, at) <==> c.expires >= at && c.used.None? && LiveUser(rows, c.owner))
            && (Ready(rows, tx, at) ==>
                  Writes(rows, tx, at) == RevokedSessions(rows, c.owner, at)[k := CRow(c.(used := Some(at)))]
                  [UserK(c.owner) := URow(rows[UserK(c.owner)].u.(password := op.password))])
  {
    BulkSessions(rows, op, Some(k), at);
  }

  /** Writing other rows first changes nothing for the bulk revocation. */
  lemma RevokeAfter(rows: Rows, others: Rows, user: Id, at: Time)
    requires forall k :: k in others ==> !k.SessK?
    ensures rows + others + RevokedSessions(rows + others, user, at) ==
            rows + (RevokedSessions(rows, user, at) + others)
  {
    assert RevokedSessions(rows + others, user, at) == RevokedSessions(rows, user, at);
  }

  lemma ResetRows(rows: Rows, k: Key, token: Row, u: Row, user: Id, at: Time)
    requires k.RecK?
    ensures var saved := rows[k := token][UserK(user) := u];
            saved + RevokedSessions(saved, user, at) ==
            rows + RevokedSessions(rows, user, at)[k := token][UserK(user) := u]
  {
    var others := map[k := token, UserK(user) := u];
    RevokeAfter(rows, others, user, at);
    assert rows[k := token][UserK(user) := u] == rows + others;
    assert RevokedSessions(rows, user, at)[k := token][UserK(user) := u] == RevokedSessions(rows, user, at) + others;
  }

  method ResetClosure(db: DB, hash: Hash, password: string, at: Time)
    returns (ok: bool, user: Id, ghost target: Option<Key>)
    modifies db
    ensures Tried(old(db.rows), old(db.audit), Database.ResetPassword(hash, password), target, at, ok, db.rows,
                  db.audit, db.broken)
    ensures ok ==> target.Some? && user == old(db.rows)[target.value].c.owner
  {
    target, user := None, "";
    var token: RecoveryRecord?;
    ok, token := db.GetPasswordRecoveryToken(hash);
    if !ok || token == null {
      return false, user, None;
    }
    target := Some(token.key);
    ResetReads(db.rows, Database.ResetPassword(hash, password), token.key, at);
    if token.Expired(at) || token.used.Some? {
      return false, user, target;
    }
    var u: UserRecord?;
    ok, u := db.GetUserByID(token.owner);
    if !ok || u == null {
      return false, user, target;
    }
    u.password := password;
    user := u.id;
    token.Use(at);
    ok := SaveReset(db, token, u, at);
  }

  method SaveReset(db: DB, token: RecoveryRecord, u: UserRecord, at: Time) returns (ok: bool)
    requires LiveUser(db.rows, u.id) && token.key.RecK? && token.key in db.rows
    requires db.rows[token.key].CRow? && db.rows[token.key].c.(used := token.used) == token.View()
    modifies db
    ensures ok ==> db.broken == old(db.broken) &&
                   db.audit == old(db.audit) + [Database.ResetPassword(token.hash, u.password)]
    ensures ok ==> db.rows == old(db.rows) + RevokedSessions(old(db.rows), u.id, at)[token.key := CRow(token.View())]
                              [UserK(u.id) := URow(u.View(false))]
    ensures !ok ==> db.broken
  {
    ghost var rows := db.rows;
    ok := db.UpdatePasswordRecoveryToken(token);
    if !ok {
      return;
    }
    ok := db.UpdateUser(u);
    if !ok {
      return;
    }
    ResetRows(rows, token.key, CRow(token.View()), URow(u.View(false)), u.id, at);
    ok := db.RevokeUserSessions(u.id, at);
    if ok {
      ok := db.Record(Database.ResetPassword(token.hash, u.password));
    }
  }

  method ResetPassword(db: DB, revoker: RevocationStore, hash: Hash, password: string, reading: Time, at: Time,
                       reply: Reply)
    returns (ok: bool, ghost target: Option<Key>)
    requires 0 < reading <= MAX_INT64
    modifies db, revoker
    ensures Did(old(db.rows), old(db.audit), Database.ResetPassword(hash, password), target, at, ok, db.rows,
                db.audit, db.broken)
    ensures revoker.markers ==
            if ok then UserMarked(old(revoker.markers), revoker.jwtTTL, old(db.rows)[target.value].c.owner, reading,
                                  at, reply)
            else old(revoker.markers)
  {
    target := None;
    ok := db.Statement();
    if !ok {
      return;
    }
    var rows, audit := db.rows, db.audit;
    var user;
    ok, user, target := ResetClosure(db, hash, password, at);
    ok := db.Finish(ok, rows, audit);
    if ok {
      var written := revoker.RevokeAllForUser(user, reading, at, reply);
    }
  }

  lemma ChangeReads(rows: Rows, user: Id, password: string, at: Time)
    requires LiveUser(rows, user)
    ensures var op := Database.ChangePassword(user, password);
            var tx := Reading(rows, op, Some(UserK(user)));
            && Found(rows, op, Some(UserK(user))) && Ready(rows, tx, at)
            && Writes(rows, tx, at) ==
               RevokedSessions(rows, user, at)[UserK(user) := URow(rows[UserK(user)].u.(password := password))]
  {
    BulkSessions(rows, Database.ChangePassword(user, password), Some(UserK(user)), at);
  }

  method ChangePassword(db: DB, revoker: RevocationStore, user: Id, permitted: bool, verified: string -> bool,
                        password: string,
                        reading: Time, at: Time, reply: Reply) returns (ok: bool)
    requires 0 < reading <= MAX_INT64
    modifies db, revoker
    ensures ok ==> permitted && LiveUser(old(db.rows), user) && verified(old(db.rows)[UserK(user)].u.password)
    ensures !ok ==> db.broken || !permitted || !LiveUser(old(db.rows), user) ||
                    !verified(old(db.rows)[UserK(user)].u.password)
    ensures Outcome(old(db.rows), old(db.audit),
                    Reading(old(db.rows), Database.ChangePassword(user, password), Some(UserK(user))),
                    at, ok, db.rows, db.audit)
    ensures revoker.markers == if ok
                               then UserMarked(old(revoker.markers), revoker.jwtTTL, user, reading, at, reply)
                               else old(revoker.markers)
  {
    if !permitted {
      return false;
    }
    var u: UserRecord?;
    ok, u := db.GetUserByID(user);
    if !ok || u == null {
      return false;
    }
    if !verified(u.password) {
      return false;
    }
    ChangeReads(db.rows, user, password, at);
    u.password := password;
    ok := db.Statement();
    if !ok {
      return;
    }
    var rows, audit := db.rows, db.audit;
    ok := ChangeClosure(db, u, at);
    ok := db.Finish(ok, rows, audit);
    if ok {
      var written := revoker.RevokeAllForUser(user, reading, at, reply);
    }
  }

  method ChangeClosure(db: DB, u: UserRecord, at: Time) returns (ok: bool)
    requires LiveUser(db.rows, u.id)
    modifies db
    ensures ok ==> db.rows == old(db.rows) + RevokedSessions(old(db.rows), u.id, at)[UserK(u.id) := URow(u.View(false))]
    ensures ok ==> db.audit == old(db.audit) + [Database.ChangePassword(u.id, u.password)] &&
                   db.broken == old(db.broken)
    ensures !ok ==> db.broken
  {
    ghost var rows := db.rows;
    ok := db.UpdateUser(u);
    if !ok {
      return;
    }
    assert db.rows == rows + map[UserK(u.id) := URow(u.View(false))];
    RevokeAfter(rows, map[UserK(u.id) := URow(u.View(false))], u.id, at);
    ok := db.RevokeUserSessions(u.id, at);
    if ok {
      ok := db.Record(Database.ChangePassword(u.id, u.password));
    }
  }

  // ------------------------------------------------------------ deletion

  lemma DeleteReads(rows: Rows, user: Id, at: Time)
    requires LiveUser(rows, user)
    ensures var tx := Reading(rows, Database.DeleteUser(user), Some(UserK(user)));
            && Ready(rows, tx, at)
            && Writes(rows, tx, at) ==
               RevokedSessions(rows, user, at)[UserK(user) := URow(rows[UserK(user)].u.(deleted := true))]
  {
    BulkSessions(rows, Database.DeleteUser(user), Some(UserK(user)), at);
  }

  /** A user that is not there counts as deleted. */
  method DeleteClosure(db: DB, user: Id, at: Time) returns (ok: bool, ghost target: Option<Key>)
    modifies db
    ensures Tried(old(db.rows), old(db.audit), Database.DeleteUser(user), target, at, ok, db.rows, db.audit, db.broken)
  {
    target := None;
    var u: UserRecord?;
    ok, u := db.GetUserByID(user);
    if !ok {
      return;
    }
    if u == null {
      assert db.rows + map[] == db.rows;
      return true, None;
    }
    target := Some(UserK(user));
    DeleteReads(db.rows, user, at);
    ok := SaveDelete(db, user, at);
  }

  method SaveDelete(db: DB, user: Id, at: Time) returns (ok: bool)
    requires LiveUser(db.rows, user)
    modifies db
    ensures ok ==> db.broken == old(db.broken) && db.audit == old(db.audit) + [Database.DeleteUser(user)]
    ensures ok ==> db.rows == old(db.rows) + RevokedSessions(old(db.rows), user, at)
                              [UserK(user) := URow(old(db.rows)[UserK(user)].u.(deleted := true))]
    ensures !ok ==> db.broken
  {
    ghost var rows := db.rows;
    ok := db.DeleteUser(user);
    if !ok {
      return;
    }
    ghost var gone := URow(rows[UserK(user)].u.(deleted := true));
    assert db.rows == rows + map[UserK(user) := gone];
    RevokeAfter(rows, map[UserK(user) := gone], user, at);
    ok := db.RevokeUserSessions(user, at);
    if ok {
      ok := db.Record(Database.DeleteUser(user));
    }
  }

  method DeleteUser(db: DB, revoker: RevocationStore, user: Id, permitted: bool, reading: Time, at: Time, reply: Reply)
    returns (ok: bool, ghost committed: bool, ghost target: Option<Key>)
    requires 0 < reading <= MAX_INT64
    modifies db, revoker
    ensures permitted ==> Did(old(db.rows), old(db.audit), Database.DeleteUser(user), target, at, committed, db.rows,
                              db.audit, db.broken)
    ensures !permitted ==> !committed && db.rows == old(db.rows) && db.audit == old(db.audit)
    ensures ok <==> committed && (revoker.jwtTTL <= 0 || reply.Applied?)
    ensures revoker.markers == if committed
                               then UserMarked(old(revoker.markers), revoker.jwtTTL, user, reading, at, reply)
                               else old(revoker.markers)
  {
    target, committed := None, false;
    if !permitted {
      return false, false, None;
    }
    ok := db.Statement();
    if !ok {
      return;
    }
    var rows, audit := db.rows, db.audit;
    ok, target := DeleteClosure(db, user, at);
    ok := db.Finish(ok, rows, audit);
    committed := ok;
    if !ok {
      return;
    }
    ok := revoker.RevokeAllForUser(user, reading, at, reply);
  }
}
