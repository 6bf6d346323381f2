/**
 The database as the services use it: records loaded from rows and changed in place, repositories
 that read and write rows, and a transaction that keeps all of its writes or none.
 */
module Records {
  import opened Options
  import opened Database

  class SessionRecord {
    const key: Key
    const owner: Id
    const expires: Time
    var hash: Hash
    var revoked: Option<Time>

    ghost function View(): Session
      reads this
    {
      Session(owner, hash, expires, revoked)
    }

    constructor (key: Key, s: Session)
      ensures this.key == key && View() == s
    {
      this.key, owner, expires, hash, revoked := key, s.owner, s.expires, s.hash, s.revoked;
    }

    predicate IsExpired(at: Time) {
      expires < at
    }

    method Revoke(at: Time)
      modifies this
      ensures View() == old(View()).(revoked := Some(at))
    {
      revoked := Some(at);
    }

    /** Without a generated token and the request's context the session stays as it is. */
    method Rotate(next: Hash, able: bool) returns (ok: bool)
      modifies this
      ensures ok == able
      ensures View() == if ok then old(View()).(hash := next) else old(View())
    {
      if !able {
        return false;
      }
      hash := next;
      return true;
    }
  }

  class RegistrationRecord {
    const key: Key
    const email: string
    const name: string
    const hash: Hash
    const expires: Time
    var used: Option<Time>
    var revoked: Option<Time>

    ghost function View(): Registration
      reads this
    {
      Registration(email, name, hash, expires, used, revoked)
    }

    constructor (key: Key, g: Registration)
      ensures this.key == key && View() == g
    {
      this.key, email, name := key, g.email, g.name;
      hash, expires, used, revoked := g.hash, g.expires, g.used, g.revoked;
    }

    predicate IsValid(at: Time)
      reads this
    {
      used.None? && revoked.None? && expires > at
    }

    /** A token is consumed only while it is valid. */
    method Use(at: Time) returns (ok: bool)
      modifies this
      ensures ok <==> old(used.None? && revoked.None?) && at < expires
      ensures View() == if ok then old(View()).(used := Some(at)) else old(View())
    {
      if !IsValid(at) {
        return false;
      }
      used := Some(at);
      return true;
    }
  }

  class RecoveryRecord {
    const key: Key
    const owner: Id
    const hash: Hash
    const expires: Time
    var used: Option<Time>

    ghost function View(): Recovery
      reads this
    {
      Recovery(owner, hash, expires, used)
    }

    constructor (key: Key, c: Recovery)
      ensures this.key == key && View() == c
    {
      this.key, owner, hash, expires, used := key, c.owner, c.hash, c.expires, c.used;
    }

    predicate Expired(at: Time) {
      expires < at
    }

    method Use(at: Time)
      modifies this
      ensures View() == old(View()).(used := Some(at))
    {
      used := Some(at);
    }
  }

  class UserRecord {
    const id: Id
    const email: string
    var profile: string
    var password: string
    var picture: Option<Name>

    /** The columns an update writes; the deletion mark is not one of them. */
    ghost function View(deleted: bool): User
      reads this
    {
      User(email, profile, password, picture, deleted)
    }

    constructor (id: Id, u: User)
      ensures this.id == id && View(u.deleted) == u
    {
      this.id, email, profile, password, picture := id, u.email, u.profile, u.password, u.picture;
    }
  }

  // ------------------------------------------------------------ the database

  predicate UserWith(rows: Rows, user: Id, email: string) {
    LiveUser(rows, user) && rows[UserK(user)].u.email == email
  }

  ghost predicate NoUserWith(rows: Rows, email: string) {
    forall user :: !UserWith(rows, user, email)
  }

  /** UPDATE sessions SET revoked_at of the user's sessions that have none. */
  function RevokedSessions(rows: Rows, user: Id, at: Time): Rows {
    map k | k in rows && k.SessK? && rows[k].SRow? && rows[k].s.owner == user && rows[k].s.revoked.None? ::
      SRow(rows[k].s.(revoked := Some(at)))
  }

  /** UPDATE registration_tokens SET revoked_at of the outstanding tokens of the address. */
  function RevokedTokens(rows: Rows, email: string, at: Time): Rows {
    map k | k in rows && k.RegK? && rows[k].GRow? && rows[k].g.email == email && rows[k].g.used.None? &&
            rows[k].g.revoked.None? ::
      GRow(rows[k].g.(revoked := Some(at)))
  }

  class DB {
    var rows: Rows
    var audit: seq<Op>
    var broken: bool              // some statement has failed

    constructor ()
      ensures rows == map[] && audit == [] && !broken
    {
      rows, audit, broken := map[], [], false;
    }

    /** Any statement may fail. */
    method Statement() returns (ok: bool)
      modifies this`broken
      ensures if ok then broken == old(broken) else broken
    {
      ok := *;
      if !ok {
        broken := true;
      }
    }

    /** The end of a transaction: all of its writes when it succeeded and the commit did, else none. */
    method Finish(ok: bool, rows: Rows, audit: seq<Op>) returns (committed: bool)
      modifies this
      ensures committed ==> ok && this.rows == old(this.rows) && this.audit == old(this.audit) && broken == old(broken)
      ensures !committed ==> this.rows == rows && this.audit == audit
      ensures !committed ==> broken || (!ok && broken == old(broken))
    {
      if ok {
        committed := Statement();
        if committed {
          return;
        }
      }
      committed := false;
      this.rows, this.audit := rows, audit;
    }

    method Record(op: Op) returns (ok: bool)
      modifies this`audit, this`broken
      ensures ok ==> audit == old(audit) + [op] && broken == old(broken)
      ensures !ok ==> broken
    {
      ok := Statement();
      if ok {
        audit := audit + [op];
      }
    }

    // ---------------------------------------------------------- sessions

    method GetSessionByID(id: Id) returns (ok: bool, sess: SessionRecord?)
      modifies this`broken
      ensures if ok then broken == old(broken) else broken
      ensures ok ==> (sess == null <==> !(SessK(id) in rows && rows[SessK(id)].SRow?))
      ensures ok && sess != null ==> fresh(sess) && sess.key == SessK(id) && rows[sess.key] == SRow(sess.View())
    {
      sess := null;
      ok := Statement();
      if ok && SessK(id) in rows && rows[SessK(id)].SRow? {
        sess := new SessionRecord(SessK(id), rows[SessK(id)].s);
      }
    }

    method GetSessionByRefreshTokenHash(hash: Hash) returns (ok: bool, sess: SessionRecord?)
      modifies this`broken
      ensures if ok then broken == old(broken) else broken
      ensures ok && sess != null ==> fresh(sess) && sess.key.SessK? && sess.key in rows &&
                                     rows[sess.key] == SRow(sess.View())
      ensures ok && sess != null ==> sess.hash == hash
      ensures ok && sess == null ==> forall k :: k in rows && k.SessK? && rows[k].SRow? ==> rows[k].s.hash != hash
    {
      sess := null;
      ok := Statement();
      if ok && exists k :: k in rows && k.SessK? && rows[k].SRow? && rows[k].s.hash == hash {
        var k :| k in rows && k.SessK? && rows[k].SRow? && rows[k].s.hash == hash;
        sess := new SessionRecord(k, rows[k].s);
      }
    }

    /** The primary key refuses a taken id, and the foreign key a session of no user. */
    method StoreSession(id: Id, s: Session) returns (ok: bool)
      modifies this`rows, this`broken
      ensures ok ==> SessK(id) !in old(rows) && HasUser(old(rows), s.owner) && broken == old(broken)
      ensures ok ==> rows == old(rows)[SessK(id) := SRow(s)]
      ensures !ok ==> broken || ((SessK(id) in old(rows) || !HasUser(old(rows), s.owner)) && broken == old(broken))
    {
      ok := Statement();
      if !ok || SessK(id) in rows || !HasUser(rows, s.owner) {
        return false;
      }
      rows := rows[SessK(id) := SRow(s)];
    }

    /** Writes the token hash and the revocation mark, whatever they were; no row, no change. */
    method UpdateSession(sess: SessionRecord) returns (ok: bool)
      modifies this`rows, this`broken
      ensures ok ==> broken == old(broken)
      ensures ok ==> rows == if sess.key in old(rows) && old(rows)[sess.key].SRow?
                             then old(rows)[sess.key :=
                                  SRow(old(rows)[sess.key].s.(hash := sess.hash, revoked := sess.revoked))]
                             else old(rows)
      ensures !ok ==> broken
    {
      ok := Statement();
      if ok && sess.key in rows && rows[sess.key].SRow? {
        rows := rows[sess.key := SRow(rows[sess.key].s.(hash := sess.hash, revoked := sess.revoked))];
      }
    }

    method RevokeUserSessions(user: Id, at: Time) returns (ok: bool)
      modifies this`rows, this`broken
      ensures ok ==> rows == old(rows) + RevokedSessions(old(rows), user, at) && broken == old(broken)
      ensures ok ==> rows.Keys == old(rows).Keys
      ensures ok ==> forall k :: k in rows ==>
                                   rows[k] == if k.SessK? && old(rows)[k].SRow? && old(rows)[k].s.owner == user
                                                 && old(rows)[k].s.revoked.None?
                                              then SRow(old(rows)[k].s.(revoked := Some(at))) else old(rows)[k]
      ensures !ok ==> broken
    {
      ok := Statement();
      if ok {
        rows := rows + RevokedSessions(rows, user, at);
      }
    }

    // ---------------------------------------------------------- one-time tokens

    method GetRegistrationToken(hash: Hash) returns (ok: bool, token: RegistrationRecord?)
      modifies this`broken
      ensures if ok then broken == old(broken) else broken
      ensures ok && token != null ==> fresh(token) && token.key.RegK? && token.key in rows &&
                                      rows[token.key] == GRow(token.View())
      ensures ok && token != null ==> token.hash == hash
      ensures ok && token == null ==> forall k :: k in rows && k.RegK? && rows[k].GRow? ==> rows[k].g.hash != hash
    {
      token := null;
      ok := Statement();
      if ok && exists k :: k in rows && k.RegK? && rows[k].GRow? && rows[k].g.hash == hash {
        var k :| k in rows && k.RegK? && rows[k].GRow? && rows[k].g.hash == hash;
        token := new RegistrationRecord(k, rows[k].g);
      }
    }

    method StoreRegistrationToken(id: Id, g: Registration) returns (ok: bool)
      modifies this`rows, this`broken
      ensures ok ==> RegK(id) !in old(rows) && rows == old(rows)[RegK(id) := GRow(g)] && broken == old(broken)
      ensures !ok ==> broken || (RegK(id) in old(rows) && broken == old(broken))
    {
      ok := Statement();
      if !ok || RegK(id) in rows {
        return false;
      }
      rows := rows[RegK(id) := GRow(g)];
    }

    method UpdateRegistrationToken(token: RegistrationRecord) returns (ok: bool)
      modifies this`rows, this`broken
      ensures ok ==> broken == old(broken)
      ensures ok ==> rows == if token.key in old(rows) && old(rows)[token.key].GRow?
                             then old(rows)[token.key := GRow(old(rows)[token.key].g.(used := token.used))]
                             else old(rows)
      ensures !ok ==> broken
    {
      ok := Statement();
      if ok && token.key in rows && rows[token.key].GRow? {
        rows := rows[token.key := GRow(rows[token.key].g.(used := token.used))];
      }
    }

    method RevokeRegistrationTokens(email: string, at: Time) returns (ok: bool)
      modifies this`rows, this`broken
      ensures ok ==> rows == old(rows) + RevokedTokens(old(rows), email, at) && broken == old(broken)
      ensures ok ==> rows.Keys == old(rows).Keys
      ensures ok ==> forall k :: k in rows ==>
                                   rows[k] == if k.RegK? && old(rows)[k].GRow? && old(rows)[k].g.email == email
                                                 && old(rows)[k].g.used.None? && old(rows)[k].g.revoked.None?
                                              then GRow(old(rows)[k].g.(revoked := Some(at))) else old(rows)[k]
      ensures !ok ==> broken
    {
      ok := Statement();
      if ok {
        rows := rows + RevokedTokens(rows, email, at);
      }
    }

    method GetPasswordRecoveryToken(hash: Hash) returns (ok: bool, token: RecoveryRecord?)
      modifies this`broken
      ensures if ok then broken == old(broken) else broken
      ensures ok && token != null ==> fresh(token) && token.key.RecK? && token.key in rows &&
                                      rows[token.key] == CRow(token.View())
      ensures ok && token != null ==> token.hash == hash
      ensures ok && token == null ==> forall k :: k in rows && k.RecK? && rows[k].CRow? ==> rows[k].c.hash != hash
    {
      token := null;
      ok := Statement();
      if ok && exists k :: k in rows && k.RecK? && rows[k].CRow? && rows[k].c.hash == hash {
        var k :| k in rows && k.RecK? && rows[k].CRow? && rows[k].c.hash == hash;
        token := new RecoveryRecord(k, rows[k].c);
      }
    }

    method StorePasswordRecoveryToken(id: Id, c: Recovery) returns (ok: bool)
      modifies this`rows, this`broken
      ensures ok ==> RecK(id) !in old(rows) && rows == old(rows)[RecK(id) := CRow(c)] && broken == old(broken)
      ensures !ok ==> broken || (RecK(id) in old(rows) && broken == old(broken))
    {
      ok := Statement();
      if !ok || RecK(id) in rows {
        return false;
      }
      rows := rows[RecK(id) := CRow(c)];
    }

    method UpdatePasswordRecoveryToken(token: RecoveryRecord) returns (ok: bool)
      modifies this`rows, this`broken
      ensures ok ==> broken == old(broken)
      ensures ok ==> rows == if token.key in old(rows) && old(rows)[token.key].CRow?
                             then old(rows)[token.key := CRow(old(rows)[token.key].c.(used := token.used))]
                             else old(rows)
      ensures !ok ==> broken
    {
      ok := Statement();
      if ok && token.key in rows && rows[token.key].CRow? {
        rows := rows[token.key := CRow(rows[token.key].c.(used := token.used))];
      }
    }

    // ---------------------------------------------------------- users

    method GetUserByID(id: Id) returns (ok: bool, u: UserRecord?)
      modifies this`broken
      ensures if ok then broken == old(broken) else broken
      ensures ok ==> (u == null <==> !LiveUser(rows, id))
      ensures ok && u != null ==> fresh(u) && u.id == id && rows[UserK(id)] == URow(u.View(false))
    {
      u := null;
      ok := Statement();
      if ok && LiveUser(rows, id) {
        u := new UserRecord(id, rows[UserK(id)].u);
      }
    }

    method GetUserByEmail(email: string) returns (ok: bool, u: UserRecord?)
      modifies this`broken
      ensures if ok then broken == old(broken) else broken
      ensures ok && u != null ==> fresh(u) && LiveUser(rows, u.id) && u.email == email &&
                                  rows[UserK(u.id)] == URow(u.View(false))
      ensures ok && u == null ==> NoUserWith(rows, email)
      ensures ok && u == null ==> forall k :: k in rows && k.UserK? && rows[k].URow? && rows[k].u.email == email ==>
                                                rows[k].u.deleted
    {
      u := null;
      ok := Statement();
      if ok && exists k :: k in rows && k.UserK? && rows[k].URow? && rows[k].u.email == email && !rows[k].u.deleted {
        var k :| k in rows && k.UserK? && rows[k].URow? && rows[k].u.email == email && !rows[k].u.deleted;
        u := new UserRecord(k.id, rows[k].u);
      }
      forall user | ok && u == null ensures !UserWith(rows, user, email) {
        assert HasUser(rows, user) && rows[UserK(user)].u.email == email ==> rows[UserK(user)].u.deleted;
      }
    }

    /** The unique index refuses a second live user with the address. */
    method StoreUser(id: Id, u: User) returns (ok: bool)
      modifies this`rows, this`broken
      ensures ok ==> UserK(id) !in old(rows) && EmailFree(old(rows), u.email)
      ensures ok ==> rows == old(rows)[UserK(id) := URow(u)] && broken == old(broken)
      ensures !ok ==> broken || ((UserK(id) in old(rows) || !EmailFree(old(rows), u.email)) && broken == old(broken))
      ensures (exists k :: k in old(rows) && old(rows)[k].URow? && old(rows)[k].u.email == u.email
                           && !old(rows)[k].u.deleted) ==> !ok
      ensures !ok && !broken && UserK(id) !in old(rows) ==>
                exists k :: k in old(rows) && old(rows)[k].URow? && old(rows)[k].u.email == u.email
                            && !old(rows)[k].u.deleted
    {
      ok := Statement();
      if !ok || UserK(id) in rows || exists k :: k in rows && rows[k].URow? && rows[k].u.email == u.email &&
                                                 !rows[k].u.deleted {
        return false;
      }
      rows := rows[UserK(id) := URow(u)];
    }

    /** Writes every column of the record; the row's deletion mark stays. */
    method UpdateUser(u: UserRecord) returns (ok: bool)
      modifies this`rows, this`broken
      ensures ok ==> HasUser(old(rows), u.id) && broken == old(broken)
      ensures ok ==> rows == old(rows)[UserK(u.id) := URow(u.View(old(rows)[UserK(u.id)].u.deleted))]
      ensures !ok ==> broken || (!HasUser(old(rows), u.id) && broken == old(broken))
    {
      ok := Statement();
      if !ok || !HasUser(rows, u.id) {
        return false;
      }
      rows := rows[UserK(u.id) := URow(User(u.email, u.profile, u.password, u.picture, rows[UserK(u.id)].u.deleted))];
    }

    method DeleteUser(id: Id) returns (ok: bool)
      modifies this`rows, this`broken
      ensures ok ==> broken == old(broken)
      ensures ok ==> rows == if HasUser(old(rows), id)
                             then old(rows)[UserK(id) := URow(old(rows)[UserK(id)].u.(deleted := true))] else old(rows)
      ensures !ok ==> broken
    {
      ok := Statement();
      if ok && HasUser(rows, id) {
        rows := rows[UserK(id) := URow(rows[UserK(id)].u.(deleted := true))];
      }
    }
  }
}
