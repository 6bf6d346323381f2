/**
 Registration, password recovery, profiles and pictures as code over the database, proved against
 their operations in the transaction protocol.
 */
module Accounts {
  import opened Options
  import opened Database
  import opened Alone
  import opened Records
  import opened Services

  // ------------------------------------------------------------ registration

  /** User rows stand under user keys. */
  ghost predicate Typed(rows: Rows) {
    forall k :: k in rows && rows[k].URow? ==> k.UserK?
  }

  lemma RegisterReads(rows: Rows, op: Op, at: Time)
    requires op.Register?
    ensures var tx := Reading(rows, op, None);
            && (Ready(rows, tx, at) <==> RegK(op.id) !in rows)
            && (Ready(rows, tx, at) ==>
                  Writes(rows, tx, at) ==
                  RevokedTokens(rows, op.email, at)
                  [RegK(op.id) := GRow(Registration(op.email, op.invitee, op.hash, op.expires, None, None))])
  {
    var tx := Reading(rows, op, None);
    forall k | k in tx.scan.value ensures k in tx.held && tx.held[k] == rows[k] {}
    assert BulkRevoked(tx, at) == RevokedTokens(rows, op.email, at);
  }

  method RegisterClosure(db: DB, email: string, name: string, id: Id, hash: Hash, expires: Time, at: Time)
    returns (ok: bool)
    requires Typed(db.rows)
    modifies db
    ensures var op := Database.Register(email, name, id, hash, expires);
            && (ok ==> EmailFree(old(db.rows), email)
                       && Outcome(old(db.rows), old(db.audit), Reading(old(db.rows), op, None), at, ok, db.rows,
                                  db.audit))
            && (!ok ==> db.broken || !EmailFree(old(db.rows), email) ||
                        !Ready(old(db.rows), Reading(old(db.rows), op, None), at))
  {
    var op := Database.Register(email, name, id, hash, expires);
    RegisterReads(db.rows, op, at);
    var u: UserRecord?;
    ok, u := db.GetUserByEmail(email);
    if !ok {
      return;
    }
    if u != null {
      return false;
    }
    ok := SaveInvitation(db, op, at);
  }

  /** A new invitation supersedes the outstanding ones. */
  method SaveInvitation(db: DB, op: Op, at: Time) returns (ok: bool)
    requires op.Register?
    modifies db
    ensures var g := Registration(op.email, op.invitee, op.hash, op.expires, None, None);
            ok ==> && RegK(op.id) !in old(db.rows) && db.audit == old(db.audit) + [op] && db.broken == old(db.broken)
                   && db.rows == old(db.rows) + RevokedTokens(old(db.rows), op.email, at)[RegK(op.id) := GRow(g)]
    ensures !ok ==> db.broken || RegK(op.id) in old(db.rows)
  {
    ok := db.RevokeRegistrationTokens(op.email, at);
    if !ok {
      return;
    }
    ok := db.StoreRegistrationToken(op.id, Registration(op.email, op.invitee, op.hash, op.expires, None, None));
    if !ok {
      return;
    }
    ok := db.Record(op);
  }

  method Register(db: DB, email: string, name: string, id: Id, hash: Hash, expires: Time, permitted: bool, at: Time)
    returns (ok: bool)
    requires Typed(db.rows)
    modifies db
    ensures var op := Database.Register(email, name, id, hash, expires);
            && Outcome(old(db.rows), old(db.audit), Reading(old(db.rows), op, None), at, ok, db.rows, db.audit)
            && (ok ==> permitted && EmailFree(old(db.rows), email))
            && (!ok ==> db.broken || !permitted || !EmailFree(old(db.rows), email)
                        || !Ready(old(db.rows), Reading(old(db.rows), op, None), at))
  {
    if !permitted {
      return false;
    }
    ok := db.Statement();
    if !ok {
      return;
    }
    var rows, audit := db.rows, db.audit;
    ok := RegisterClosure(db, email, name, id, hash, expires, at);
    ok := db.Finish(ok, rows, audit);
  }

  lemma CompleteReads(rows: Rows, op: Op, k: Key, at: Time)
    requires op.CompleteRegistration? && k in rows && IsTarget(op, k, rows[k])
    ensures var tx, g := Reading(rows, op, Some(k)), rows[k].g;
            && (Ready(rows, tx, at) <==>
                g.used.None? && g.revoked.None? && g.expires > at && UserK(op.user) !in rows &&
                EmailFree(rows, g.email))
            && (Ready(rows, tx, at) ==>
                  Writes(rows, tx, at) ==
                  map[k := GRow(g.(used := Some(at))),
                      UserK(op.user) := URow(User(g.email, g.name, op.password, None, false))])
  {
  }

  /** Marking a token leaves the addresses in use as they were. */
  lemma EmailsKept(rows: Rows, k: Key, g: Registration, email: string)
    requires k in rows && rows[k].GRow?
    ensures EmailFree(rows[k := GRow(g)], email) <==> EmailFree(rows, email)
  {
    var after := rows[k := GRow(g)];
    forall j | j in rows && rows[j].URow? ensures j in after && after[j] == rows[j] {}
    forall j | j in after && after[j].URow? ensures j in rows && after[j] == rows[j] {}
  }

  /** Hashing the password and building the user can refuse; `acceptable` says they do not. */
  method CompleteClosure(db: DB, hash: Hash, user: Id, password: string, acceptable: bool, at: Time)
    returns (ok: bool, ghost target: Option<Key>)
    modifies db
    ensures var op := Database.CompleteRegistration(hash, user, password);
            var tx := Reading(old(db.rows), op, target);
            && (db.broken || Found(old(db.rows), op, target))
            && (ok ==> Outcome(old(db.rows), old(db.audit), tx, at, ok, db.rows, db.audit))
            && (!ok ==> db.broken || !acceptable || !Ready(old(db.rows), tx, at))
  {
    var op := Database.CompleteRegistration(hash, user, password);
    ghost var rows := db.rows;
    target := None;
    var token: RegistrationRecord?;
    ok, token := db.GetRegistrationToken(hash);
    if !ok || token == null {
      return false, None;
    }
    target := Some(token.key);
    CompleteReads(rows, op, token.key, at);
    if !token.IsValid(at) {
      return false, target;
    }
    if !acceptable {
      return false, target;
    }
    ok := token.Use(at);
    ok := SaveUser(db, token, user, password, op);
  }

  method SaveUser(db: DB, token: RegistrationRecord, user: Id, password: string, op: Op) returns (ok: bool)
    requires token.key.RegK? && token.key in db.rows && db.rows[token.key].GRow?
    requires db.rows[token.key].g.(used := token.used) == token.View()
    modifies db
    ensures var u := User(token.email, token.name, password, None, false);
            ok ==> && UserK(user) !in old(db.rows) && EmailFree(old(db.rows), token.email)
                   && db.rows == old(db.rows) + map[token.key := GRow(token.View()), UserK(user) := URow(u)]
                   && db.audit == old(db.audit) + [op] && db.broken == old(db.broken)
    ensures !ok ==> db.broken || UserK(user) in old(db.rows) || !EmailFree(old(db.rows), token.email)
  {
    EmailsKept(db.rows, token.key, token.View(), token.email);
    ok := db.UpdateRegistrationToken(token);
    if !ok {
      return;
    }
    ok := db.StoreUser(user, User(token.email, token.name, password, None, false));
    if !ok {
      return;
    }
    ok := db.Record(op);
  }

  method CompleteRegistration(db: DB, hash: Hash, user: Id, password: string, acceptable: bool, at: Time)
    returns (ok: bool, ghost target: Option<Key>)
    modifies db
    ensures var op := Database.CompleteRegistration(hash, user, password);
            var tx := Reading(old(db.rows), op, target);
            && (db.broken || Found(old(db.rows), op, target))
            && Outcome(old(db.rows), old(db.audit), tx, at, ok, db.rows, db.audit)
            && (!ok ==> db.broken || !acceptable || !Ready(old(db.rows), tx, at))
  {
    target := None;
    ok := db.Statement();
    if !ok {
      return;
    }
    var rows, audit := db.rows, db.audit;
    ok, target := CompleteClosure(db, hash, user, password, acceptable, at);
    ok := db.Finish(ok, rows, audit);
  }

  // ------------------------------------------------------------ recovery

  lemma RecoverReads(rows: Rows, op: Op, at: Time)
    requires op.RecoverPassword? && LiveUser(rows, op.user)
    ensures var tx := Reading(rows, op, Some(UserK(op.user)));
            && Found(rows, op, Some(UserK(op.user)))
            && (Ready(rows, tx, at) <==> RecK(op.id) !in rows)
            && (Ready(rows, tx, at) ==>
                  Writes(rows, tx, at) == map[RecK(op.id) := CRow(Recovery(op.user, op.hash, op.expires, None))])
  {
  }

  method RecoverPassword(db: DB, email: string, id: Id, hash: Hash, expires: Time, admitted: bool, at: Time)
    returns (ok: bool, ghost op: Op)
    modifies db
    ensures op.RecoverPassword? && op.id == id && op.hash == hash && op.expires == expires
    ensures ok ==> admitted && UserWith(old(db.rows), op.user, email)
    ensures !ok ==> db.broken || !admitted || NoUserWith(old(db.rows), email) ||
                    (UserWith(old(db.rows), op.user, email) && RecK(id) in old(db.rows))
    ensures Outcome(old(db.rows), old(db.audit), Reading(old(db.rows), op, Some(UserK(op.user))), at, ok, db.rows,
                    db.audit)
  {
    op := Database.RecoverPassword("", id, hash, expires);
    if !admitted {
      return false, op;
    }
    ok := db.Statement();
    if !ok {
      return;
    }
    var rows, audit := db.rows, db.audit;
    var usr: UserRecord?;
    ok, usr := db.GetUserByEmail(email);
    if ok && usr != null {
      var done := Database.RecoverPassword(usr.id, id, hash, expires);
      op := done;
      RecoverReads(rows, op, at);
      ok := db.StorePasswordRecoveryToken(id, Recovery(usr.id, hash, expires, None));
      if ok {
        ok := db.Record(done);
      }
    } else {
      ok := false;
    }
    ok := db.Finish(ok, rows, audit);
  }

  // ------------------------------------------------------------ profiles and pictures

  lemma ProfileReads(rows: Rows, op: Op, at: Time)
    requires (op.UpdateUser? || op.ChangePicture? || op.DeletePicture?) && LiveUser(rows, op.user)
    ensures var k := UserK(op.user);
            var tx, u := Reading(rows, op, Some(k)), rows[k].u;
            && Found(rows, op, Some(k)) && Ready(rows, tx, at) &&
               (Audited(rows, tx, at) <==> (op.DeletePicture? ==> u.picture.Some?))
            && Orphaned(tx) == (if !op.UpdateUser? && u.picture.Some? then {u.picture.value} else {})
            && Writes(rows, tx, at) ==
               if op.UpdateUser? then map[k := URow(u.(profile := op.profile))]
               else if op.ChangePicture? then map[k := URow(u.(picture := Some(op.name)))]
               else if u.picture.None? then map[] else map[k := URow(u.(picture := None))]
  {
  }

  method SaveProfile(db: DB, u: UserRecord, op: Op) returns (ok: bool)
    requires LiveUser(db.rows, u.id)
    modifies db
    ensures ok ==> && db.rows == old(db.rows) + map[UserK(u.id) := URow(u.View(false))]
                   && db.audit == old(db.audit) + [op] && db.broken == old(db.broken)
    ensures !ok ==> db.broken
  {
    ok := db.UpdateUser(u);
    if ok {
      ok := db.Record(op);
    }
  }

  method UpdateUser(db: DB, user: Id, profile: string, permitted: bool, valid: bool, at: Time) returns (ok: bool)
    modifies db
    ensures Outcome(old(db.rows), old(db.audit),
                    Reading(old(db.rows), Database.UpdateUser(user, profile), Some(UserK(user))),
                    at, ok, db.rows, db.audit)
    ensures ok ==> permitted && valid && LiveUser(old(db.rows), user)
    ensures !ok ==> db.broken || !permitted || !valid || !LiveUser(old(db.rows), user)
  {
    var op := Database.UpdateUser(user, profile);
    if !permitted {
      return false;
    }
    ok := db.Statement();
    if !ok {
      return;
    }
    var rows, audit := db.rows, db.audit;
    var u: UserRecord?;
    ok, u := db.GetUserByID(user);
    if ok && u != null && valid {
      ProfileReads(rows, op, at);
      u.profile := profile;
      ok := SaveProfile(db, u, op);
    } else {
      ok := false;
    }
    ok := db.Finish(ok, rows, audit);
  }

  /** Object storage, with the deletes that background goroutines have still to make. */
  class ImageStorage {
    var objects: set<Name>
    var deletes: set<Name>
    var broken: bool              // some upload has failed

    constructor ()
      ensures objects == {} && deletes == {} && !broken
    {
      objects, deletes, broken := {}, {}, false;
    }

    method Put(name: Name) returns (ok: bool)
      modifies this
      ensures deletes == old(deletes) && objects == if ok then old(objects) + {name} else old(objects)
      ensures !ok ==> broken
    {
      ok := *;
      if ok {
        objects := objects + {name};
      } else {
        broken := true;
      }
    }

    method AsyncDelete(name: Name)
      modifies this
      ensures broken == old(broken)
      ensures objects == old(objects) && deletes == old(deletes) + {name}
    {
      deletes := deletes + {name};
    }
  }

  /** The new object is stored before the row names it; afterwards either the old object or the
      new one is left to be deleted. */
  method ChangeProfilePicture(db: DB, images: ImageStorage, user: Id, name: Name, permitted: bool, at: Time)
    returns (ok: bool, ghost stored: bool)
    modifies db, images
    ensures var tx := Reading(old(db.rows), ChangePicture(user, name), Some(UserK(user)));
            && Outcome(old(db.rows), old(db.audit), tx, at, ok, db.rows, db.audit)
            && images.objects == (if stored then old(images.objects) + {name} else old(images.objects))
            && images.deletes == old(images.deletes) + (if ok then Orphaned(tx) else if stored then {name} else {})
    ensures ok ==> stored && permitted && LiveUser(old(db.rows), user)
    ensures !stored ==> !permitted || images.broken
    ensures stored && !ok ==> db.broken || !LiveUser(old(db.rows), user)
  {
    var op := ChangePicture(user, name);
    stored := false;
    if !permitted {
      return false, false;
    }
    var put := images.Put(name);
    if !put {
      return false, false;
    }
    stored := true;
    var previous: Option<Name>;
    ok, previous := SwapPicture(db, user, Some(name), op, at);
    if !ok {
      images.AsyncDelete(name);
      return;
    }
    if previous.Some? {
      images.AsyncDelete(previous.value);
    }
  }

  method SwapPicture(db: DB, user: Id, picture: Option<Name>, op: Op, at: Time)
    returns (ok: bool, previous: Option<Name>)
    requires op == if picture.Some? then ChangePicture(user, picture.value) else DeletePicture(user)
    modifies db
    ensures var tx := Reading(old(db.rows), op, Some(UserK(user)));
            && Outcome(old(db.rows), old(db.audit), tx, at, ok, db.rows, db.audit)
            && (ok ==> LiveUser(old(db.rows), user) && Orphaned(tx) == if previous.Some? then {previous.value} else {})
    ensures !ok ==> db.broken || !LiveUser(old(db.rows), user)
  {
    previous := None;
    ok := db.Statement();
    if !ok {
      return;
    }
    var rows, audit := db.rows, db.audit;
    var u: UserRecord?;
    ok, u := db.GetUserByID(user);
    if ok && u != null {
      ProfileReads(rows, op, at);
      previous := u.picture;
      if picture.Some? || u.picture.Some? {
        u.picture := picture;
        ok := SaveProfile(db, u, op);
      } else {
        assert rows + map[] == rows;
      }
    } else {
      ok := false;
    }
    ok := db.Finish(ok, rows, audit);
  }

  method DeleteProfilePicture(db: DB, images: ImageStorage, user: Id, permitted: bool, at: Time) returns (ok: bool)
    modifies db, images
    ensures var tx := Reading(old(db.rows), DeletePicture(user), Some(UserK(user)));
            && Outcome(old(db.rows), old(db.audit), tx, at, ok, db.rows, db.audit)
            && images.objects == old(images.objects)
            && images.deletes == old(images.deletes) + if ok then Orphaned(tx) else {}
    ensures ok ==> permitted && LiveUser(old(db.rows), user)
    ensures !ok ==> db.broken || !permitted || !LiveUser(old(db.rows), user)
  {
    if !permitted {
      return false;
    }
    var previous: Option<Name>;
    ok, previous := SwapPicture(db, user, None, DeletePicture(user), at);
    if ok && previous.Some? {
      images.AsyncDelete(previous.value);
    }
  }
}
