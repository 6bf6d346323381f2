/**
 User-wide revocation across both stores. The database machine and the marker machine run side by
 side on one clock, sharing the tokens that are minted. Once a bulk revocation has committed and a
 marker read from the clock after it has landed, the sessions of its snapshot are locked out for
 good: no refresh of them commits and no access token of them passes a working check.
 */
module Lockout {
  import opened Options
  import opened Revocation
  import opened Locking
  import opened Sessions
  import opened Endings
  import opened Wipes
  import D = Database
  import W = Watermark

  /** A committed bulk revocation: whose, which sessions it left revoked, and when. */
  datatype Record = Record(user: D.Id, sessions: set<D.Key>, at: D.Time)

  datatype State = State(db: D.State, marks: W.State, records: set<Record>)

  datatype Action =
    | InDatabase(a: D.Action)
    | ReadClock(w: nat, user: D.Id, reading: D.Time)   // RevokeAllForUser reads its clock
    | Land(w: nat)                                     // and its SET lands

  function Db(p: W.Params): D.Params {
    D.Params(p.ttl, p.eps)
  }

  ghost function Init(now: D.Time): State {
    State(D.Init(now), W.Init(now), {})
  }

  /** What a step of the database machine is to the marker machine. */
  ghost function Echoed(s: D.State, a: D.Action): Option<W.Action> {
    match a
    case Advance(dt) => Some(W.Advance(dt))
    case Begin(_, op, reading) => if op.Login? then Some(W.Sign(op.user, op.session, reading)) else None
    case Sign(t, reading) =>
      if t in s.txs && D.Subject(s.txs[t]).Some? && s.txs[t].target.Some?
      then Some(W.Sign(D.Subject(s.txs[t]).value, s.txs[t].target.value.id, reading)) else None
    case LandMarker(session) => Some(W.LandSession(session))
    case _ => None
  }

  /** Stated as an equation, so that the verifier does not expand the condition at every use. */
  ghost predicate Enabled(p: W.Params, s: State, a: Action) {
    MayStep(p, s, a) == true
  }

  ghost predicate MayStep(p: W.Params, s: State, a: Action) {
    match a
    case InDatabase(d) =>
      D.Enabled(Db(p), s.db, d) && (Echoed(s.db, d).Some? ==> W.Enabled(p, s.marks, Echoed(s.db, d).value))
    case ReadClock(w, user, reading) => W.Enabled(p, s.marks, W.ReadClock(w, user, reading))
    case Land(w) => W.Enabled(p, s.marks, W.Land(w))
  }

  /** The sessions of the user that stand revoked. */
  ghost function RevokedOf(rows: D.Rows, user: D.Id): set<D.Key> {
    set k | k in rows && k.SessK? && rows[k].SRow? && rows[k].s.owner == user && rows[k].s.revoked.Some?
  }

  ghost predicate Wiping(s: D.State, d: D.Action) {
    d.Commit? && d.t in s.txs && WipesSessions(s.txs[d.t])
  }

  ghost function Marked(p: W.Params, s: State, a: Action): W.State
    requires Enabled(p, s, a)
  {
    match a
    case InDatabase(d) => if Echoed(s.db, d).Some? then W.Apply(p, s.marks, Echoed(s.db, d).value) else s.marks
    case ReadClock(w, user, reading) => W.Apply(p, s.marks, W.ReadClock(w, user, reading))
    case Land(w) => W.Apply(p, s.marks, W.Land(w))
  }

  ghost function Stored(p: W.Params, s: State, a: Action): D.State
    requires Enabled(p, s, a)
  {
    if a.InDatabase? then D.Apply(Db(p), s.db, a.a) else s.db
  }

  ghost function Apply(p: W.Params, s: State, a: Action): State
    requires Enabled(p, s, a)
  {
    State(
      Stored(p, s, a), Marked(p, s, a),
      if a.InDatabase? && Wiping(s.db, a.a) then
        var user := D.Subject(s.db.txs[a.a.t]).value;
        s.records + {Record(user, RevokedOf(Stored(p, s, a).rows, user), s.db.now)}
      else s.records)
  }

  ghost predicate Run(p: W.Params, s: State, acts: seq<Action>)
    decreases |acts|
  {
    acts == [] || (Enabled(p, s, acts[0]) && Run(p, Apply(p, s, acts[0]), acts[1..]))
  }

  ghost function Exec(p: W.Params, s: State, acts: seq<Action>): State
    requires Run(p, s, acts)
    decreases |acts|
  {
    if acts == [] then s else Exec(p, Apply(p, s, acts[0]), acts[1..])
  }

  // ------------------------------------------------------------ one clock, one set of tokens

  ghost predicate InStep(s: State) {
    s.db.now == s.marks.now && s.db.tokens == s.marks.tokens
  }

  /** A step of the database machine moves its clock and mints tokens as its echo says. */
  lemma EchoEffect(p: D.Params, s: D.State, a: D.Action)
    requires LockInv(s) && D.Enabled(p, s, a)
    ensures var s', e := D.Apply(p, s, a), Echoed(s, a);
            && s'.now == (if e.Some? && e.value.Advance? then s.now + e.value.dt else s.now)
            && (if e.Some? && e.value.Sign? then
                  var (reading, user, session) := (e.value.reading, e.value.user, e.value.session);
                  s'.tokens == s.tokens + {Token(s.now, SignAccessToken(reading, p.ttl, user, session))}
                else
                  s'.tokens == s.tokens)
  {
  }

  lemma InStepStep(p: W.Params, s: State, a: Action)
    requires LockInv(s.db) && InStep(s) && Enabled(p, s, a)
    ensures Stored(p, s, a).now == Marked(p, s, a).now && Stored(p, s, a).tokens == Marked(p, s, a).tokens
  {
    if a.InDatabase? { EchoEffect(Db(p), s.db, a.a); }
  }

  // ------------------------------------------------------------ whose token it is

  /** The tokens of a stored session, and of one about to be stored, name its owner. */
  ghost predicate OwnToken(s: D.State, tok: Token) {
    tok in s.tokens ==>
      && (var k := D.SessK(tok.claims.session); IsSession(s.rows, k) ==> s.rows[k].s.owner == tok.claims.user)
      && (forall t :: LogsIn(s, t, tok.claims.session) ==> s.txs[t].op.user == tok.claims.user)
  }

  ghost predicate LogsIn(s: D.State, t: D.TxId, session: D.Id) {
    t in s.txs && s.txs[t].op.Login? && s.txs[t].op.session == session
  }

  /** A session about to be stored is stored by one transaction, and not yet. */
  ghost predicate Unstored(s: D.State, t: D.TxId, session: D.Id) {
    LogsIn(s, t, session) ==>
      && !IsSession(s.rows, D.SessK(session)) && session in s.sessionIds
      && forall u :: LogsIn(s, u, session) ==> u == t
  }

  lemma LogsInFrom(p: D.Params, s: D.State, a: D.Action, t: D.TxId, session: D.Id)
    requires D.Enabled(p, s, a) && LogsIn(D.Apply(p, s, a), t, session)
    ensures LogsIn(s, t, session) || (a.Begin? && a.t == t && session !in s.sessionIds)
    ensures a.Begin? && a.t == t ==> session in D.Apply(p, s, a).sessionIds
    ensures s.sessionIds <= D.Apply(p, s, a).sessionIds
    ensures a.Commit? ==> a.t != t
  {
  }

  lemma UnstoredStep(p: D.Params, s: D.State, a: D.Action, t: D.TxId, session: D.Id)
    requires LockInv(s) && D.Enabled(p, s, a) && KnownSession(s, D.SessK(session))
    requires forall u :: Unstored(s, u, session)
    ensures Unstored(D.Apply(p, s, a), t, session)
  {
    var s' := D.Apply(p, s, a);
    SessionStep(p, s, a, D.SessK(session));
    if LogsIn(s', t, session) {
      assert Unstored(s, t, session);
      LogsInFrom(p, s, a, t, session);
      if a.Commit? { assert Unstored(s, a.t, session); }
      forall u | LogsIn(s', u, session) ensures u == t {
        assert Unstored(s, u, session);
        LogsInFrom(p, s, a, u, session);
      }
    }
  }

  /** Where a token comes from. */
  lemma TokenFrom(p: D.Params, s: D.State, a: D.Action, tok: Token)
    requires LockInv(s) && D.Enabled(p, s, a) && tok in D.Apply(p, s, a).tokens && tok !in s.tokens
    ensures tok.signedAt == s.now
    ensures || (a.Begin? && a.op.Login? && tok.claims.session == a.op.session && tok.claims.user == a.op.user)
            || (a.Sign? && var k := D.SessK(tok.claims.session);
                        IsSession(s.rows, k) && s.rows[k].s.owner == tok.claims.user && s.rows[k].s.revoked.None?)
  {
    if a.Sign? { assert Current(s, a.t); }
  }

  lemma OwnTokenStep(p: D.Params, s: D.State, a: D.Action, tok: Token)
    requires LockInv(s) && D.Enabled(p, s, a) && OwnToken(s, tok) && KnownSession(s, D.SessK(tok.claims.session))
    requires tok in s.tokens ==> tok.claims.session in s.sessionIds
    requires forall u :: Unstored(s, u, tok.claims.session)
    ensures OwnToken(D.Apply(p, s, a), tok)
  {
    var s', session := D.Apply(p, s, a), tok.claims.session;
    if tok in s'.tokens {
      StoredOwner(p, s, a, tok);
      forall t | LogsIn(s', t, session) ensures s'.txs[t].op.user == tok.claims.user {
        StoringOwner(p, s, a, tok, t);
      }
    }
  }

  lemma StoredOwner(p: D.Params, s: D.State, a: D.Action, tok: Token)
    requires LockInv(s) && D.Enabled(p, s, a) && OwnToken(s, tok) && KnownSession(s, D.SessK(tok.claims.session))
    requires tok in D.Apply(p, s, a).tokens
    ensures var s', k := D.Apply(p, s, a), D.SessK(tok.claims.session);
            IsSession(s'.rows, k) ==> s'.rows[k].s.owner == tok.claims.user
  {
    SessionStep(p, s, a, D.SessK(tok.claims.session));
    if tok !in s.tokens { TokenFrom(p, s, a, tok); }
    if a.Commit? { assert LogsIn(s, a.t, tok.claims.session) ==> s.txs[a.t].op.user == tok.claims.user; }
  }

  lemma StoringOwner(p: D.Params, s: D.State, a: D.Action, tok: Token, t: D.TxId)
    requires LockInv(s) && D.Enabled(p, s, a) && OwnToken(s, tok) && Unstored(s, t, tok.claims.session)
    requires tok in s.tokens ==> tok.claims.session in s.sessionIds
    requires tok in D.Apply(p, s, a).tokens && LogsIn(D.Apply(p, s, a), t, tok.claims.session)
    ensures D.Apply(p, s, a).txs[t].op.user == tok.claims.user
  {
    LogsInFrom(p, s, a, t, tok.claims.session);
    if tok !in s.tokens { TokenFrom(p, s, a, tok); }
  }

  // ------------------------------------------------------------ what a record keeps

  ghost predicate Kept(s: D.State, r: Record, k: D.Key) {
    k in r.sessions ==>
      && k.SessK? && IsSession(s.rows, k) && s.rows[k].s.owner == r.user && s.rows[k].s.revoked.Some?
      && (forall tok :: tok in s.tokens && tok.claims.session == k.id ==> tok.signedAt <= r.at)
  }

  lemma KeptStep(p: D.Params, s: D.State, a: D.Action, r: Record, k: D.Key)
    requires LockInv(s) && D.Enabled(p, s, a) && Kept(s, r, k) && KnownSession(s, k)
    ensures Kept(D.Apply(p, s, a), r, k)
  {
    var s' := D.Apply(p, s, a);
    if k in r.sessions {
      SessionStep(p, s, a, k);
      forall tok | tok in s'.tokens && tok.claims.session == k.id ensures tok.signedAt <= r.at {
        if tok !in s.tokens { TokenFrom(p, s, a, tok); }
      }
    }
  }

  /** Everything revoked when a bulk revocation commits has seen its last token. */
  lemma NewRecordKept(p: D.Params, s: D.State, a: D.Action, user: D.Id, k: D.Key)
    requires D.Enabled(p, s, a) && a.Commit? && (forall tok :: tok in s.tokens ==> tok.signedAt <= s.now)
    ensures var s' := D.Apply(p, s, a); Kept(s', Record(user, RevokedOf(s'.rows, user), s.now), k)
  {
  }

  ghost predicate Inv(p: W.Params, s: State) {
    && EndInv(Db(p), s.db) && W.Inv(p, s.marks) && InStep(s)
    && (forall t, session :: Unstored(s.db, t, session))
    && (forall tok :: OwnToken(s.db, tok))
    && (forall r, k :: r in s.records ==> Kept(s.db, r, k))
  }

  lemma MarksStep(p: W.Params, s: State, a: Action)
    requires W.ValidParams(p) && W.Inv(p, s.marks) && Enabled(p, s, a)
    ensures W.Inv(p, Marked(p, s, a))
  {
    match a
    case InDatabase(d) => if Echoed(s.db, d).Some? { W.Step(p, s.marks, Echoed(s.db, d).value); }
    case ReadClock(w, user, reading) => W.Step(p, s.marks, W.ReadClock(w, user, reading));
    case Land(w) => W.Step(p, s.marks, W.Land(w));
  }

  lemma StoredStep(p: W.Params, s: State, a: Action)
    requires W.ValidParams(p) && Inv(p, s) && Enabled(p, s, a)
    ensures var db := Stored(p, s, a);
            && EndInv(Db(p), db)
            && (forall t, session :: Unstored(db, t, session))
            && (forall tok :: OwnToken(db, tok))
  {
    if a.InDatabase? {
      var db := Stored(p, s, a);
      EndStep(Db(p), s.db, a.a);
      forall t, session ensures Unstored(db, t, session) {
        assert KnownSession(s.db, D.SessK(session));
        UnstoredStep(Db(p), s.db, a.a, t, session);
      }
      forall tok ensures OwnToken(db, tok) {
        assert KnownSession(s.db, D.SessK(tok.claims.session)) && OwnToken(s.db, tok);
        assert tok in s.db.tokens ==> Minted(Db(p), s.db, tok);
        OwnTokenStep(Db(p), s.db, a.a, tok);
      }
    }
  }

  lemma RecordStep(p: W.Params, s: State, a: Action, r: Record, k: D.Key)
    requires Inv(p, s) && Enabled(p, s, a) && r in Apply(p, s, a).records
    ensures Kept(Stored(p, s, a), r, k)
  {
    assert r in s.records ==> Kept(s.db, r, k);
    if a.InDatabase? {
      assert KnownSession(s.db, k);
      if r in s.records {
        KeptStep(Db(p), s.db, a.a, r, k);
      } else {
        assert forall tok :: tok in s.db.tokens ==> Minted(Db(p), s.db, tok);
        NewRecordKept(Db(p), s.db, a.a, r.user, k);
      }
    }
  }

  lemma Step(p: W.Params, s: State, a: Action)
    requires W.ValidParams(p) && Inv(p, s) && Enabled(p, s, a)
    ensures Inv(p, Apply(p, s, a))
  {
    MarksStep(p, s, a);
    StoredStep(p, s, a);
    InStepStep(p, s, a);
    var s' := Apply(p, s, a);
    forall r, k | r in s'.records ensures Kept(s'.db, r, k) {
      RecordStep(p, s, a, r, k);
    }
  }

  lemma {:induction false} InvRun(p: W.Params, s: State, acts: seq<Action>)
    requires W.ValidParams(p) && Inv(p, s) && Run(p, s, acts)
    ensures Inv(p, Exec(p, s, acts))
    decreases |acts|
  {
    if acts != [] {
      Step(p, s, acts[0]);
      InvRun(p, Apply(p, s, acts[0]), acts[1..]);
    }
  }

  lemma {:induction false} RecordsStay(p: W.Params, s: State, acts: seq<Action>, r: Record)
    requires Run(p, s, acts) && r in s.records
    ensures r in Exec(p, s, acts).records
    decreases |acts|
  {
    if acts != [] {
      RecordsStay(p, Apply(p, s, acts[0]), acts[1..], r);
    }
  }

  // ------------------------------------------------------------ the theorem

  /** No access token of the session passes a working check, and no refresh of it can commit. */
  ghost predicate LockedOut(p: W.Params, s: State, k: D.Key) {
    && (forall tok, verifiedAt, reading, failClosed ::
          tok in s.marks.tokens && k.SessK? && tok.claims.session == k.id ==>
            !W.Passes(p, s.marks, tok, verifiedAt, reading, failClosed))
    && (forall d :: D.Enabled(Db(p), s.db, d) && d.Commit? && s.db.txs[d.t].op.Refresh? ==>
                      s.db.txs[d.t].target != Some(k))
  }

  lemma RecordLocksOut(p: W.Params, s: State, r: Record, l: W.Landing, k: D.Key)
    requires W.ValidParams(p) && p.lambda + 2 * p.eps <= 5 * SECOND + W.Slack(p) && 2 * p.eps + p.delta <= 5 * SECOND
    requires Inv(p, s) && r in s.records && k in r.sessions
    requires l in s.marks.landed && l.user == r.user && l.readAt >= r.at
    ensures LockedOut(p, s, k)
  {
    assert Kept(s.db, r, k);
    forall tok, verifiedAt, reading, failClosed | tok in s.marks.tokens && k.SessK? && tok.claims.session == k.id
      ensures !W.Passes(p, s.marks, tok, verifiedAt, reading, failClosed)
    {
      assert OwnToken(s.db, tok) && W.TokenOk(p, s.marks, tok) && W.LandingOk(p, s.marks, l);
      W.SkewCovers(p, s.marks, tok, l, verifiedAt, reading, failClosed);
    }
    forall d | D.Enabled(Db(p), s.db, d) && d.Commit? &&
               s.db.txs[d.t].op.Refresh? ensures s.db.txs[d.t].target != Some(k) {
      assert Current(s.db, d.t);
    }
  }

  /** The sessions of a snapshot are sessions of its user. */
  ghost predicate ScanOwned(s: D.State, t: D.TxId, k: D.Key) {
    t in s.txs && WipesSessions(s.txs[t]) && s.txs[t].scan.Some? && k in s.txs[t].scan.value ==>
      k.SessK? && IsSession(s.rows, k) && D.Subject(s.txs[t]) == Some(s.rows[k].s.owner)
  }

  lemma StillOpen(p: D.Params, s: D.State, a: D.Action, t: D.TxId)
    requires D.Enabled(p, s, a) && t in D.Apply(p, s, a).txs
    ensures !Ends(a, t)
  {
  }

  lemma ScanOwnedStep(p: D.Params, s: D.State, a: D.Action, t: D.TxId, k: D.Key)
    requires LockInv(s) && D.Enabled(p, s, a) && ScanOwned(s, t, k)
    ensures ScanOwned(D.Apply(p, s, a), t, k)
  {
    if a.Scan? && a.t == t {
      ScanIs(p, s, t, k);
    } else {
      ScanKept(p, s, a, t, k);
    }
  }

  lemma OwnerStays(p: D.Params, s: D.State, a: D.Action, k: D.Key)
    requires LockInv(s) && D.Enabled(p, s, a)
    ensures var s' := D.Apply(p, s, a);
            IsSession(s.rows, k) ==> IsSession(s'.rows, k) && s'.rows[k].s.owner == s.rows[k].s.owner
  {
    SessionStep(p, s, a, k);
  }

  lemma ScanKept(p: D.Params, s: D.State, a: D.Action, t: D.TxId, k: D.Key)
    requires LockInv(s) && D.Enabled(p, s, a) && ScanOwned(s, t, k) && !(a.Scan? && a.t == t)
    ensures ScanOwned(D.Apply(p, s, a), t, k)
  {
    var s' := D.Apply(p, s, a);
    OwnerStays(p, s, a, k);
    if t in s'.txs && t in s.txs && s.txs[t].scan.Some? {
      StillOpen(p, s, a, t);
      ContinuesStep(p, s, a, t);
      SameSubject(s.txs[t], s'.txs[t]);
    }
  }

  lemma {:induction false} ScanOwnedRun(p: W.Params, s: State, acts: seq<Action>, t: D.TxId, k: D.Key)
    requires LockInv(s.db) && Run(p, s, acts) && ScanOwned(s.db, t, k)
    ensures ScanOwned(Exec(p, s, acts).db, t, k)
    decreases |acts|
  {
    if acts != [] {
      if acts[0].InDatabase? {
        LockStep(Db(p), s.db, acts[0].a);
        ScanOwnedStep(Db(p), s.db, acts[0].a, t, k);
      }
      ScanOwnedRun(p, Apply(p, s, acts[0]), acts[1..], t, k);
    }
  }

  /** What a bulk revocation commits covers its snapshot. */
  lemma SnapshotRecorded(p: W.Params, s: State, t: D.TxId, at: D.Time, k: D.Key)
    requires LockInv(s.db) && Enabled(p, s, InDatabase(D.Commit(t, at))) && Wiping(s.db, D.Commit(t, at))
    requires ScanOwned(s.db, t, k) && k in s.db.txs[t].scan.value
    ensures var user := D.Subject(s.db.txs[t]).value;
            k in RevokedOf(Stored(p, s, InDatabase(D.Commit(t, at))).rows, user)
  {
    WipeWrites(Db(p), s.db, D.Commit(t, at), k);
    SessionStep(Db(p), s.db, D.Commit(t, at), k);
  }

  /**
   After RevokeUserSessions, ResetPassword, ChangePassword or DeleteUser has committed, and a marker of
   its user whose clock was read no earlier has landed, every session of its snapshot is locked out in
   every later state, whatever refreshes, logins, logouts, checks and marker writes run beside it.
   */
  lemma WipedIsLockedOut(
    p: W.Params, start: D.Time, before: seq<Action>, t: D.TxId, at: D.Time, after: seq<Action>, l: W.Landing, k: D.Key)
    requires W.ValidParams(p) && p.lambda + 2 * p.eps <= 5 * SECOND + W.Slack(p) && 2 * p.eps + p.delta <= 5 * SECOND
    requires Run(p, Init(start), before)
    requires var s := Exec(p, Init(start), before);
             && Enabled(p, s, InDatabase(D.Commit(t, at))) && Wiping(s.db, D.Commit(t, at)) &&
                k in s.db.txs[t].scan.value
             && Run(p, Apply(p, s, InDatabase(D.Commit(t, at))), after)
    requires var s := Exec(p, Init(start), before);
             var s' := Exec(p, Apply(p, s, InDatabase(D.Commit(t, at))), after);
             l in s'.marks.landed && Some(l.user) == D.Subject(s.db.txs[t]) && l.readAt >= s.db.now
    ensures var s := Exec(p, Init(start), before);
            LockedOut(p, Exec(p, Apply(p, s, InDatabase(D.Commit(t, at))), after), k)
  {
    var s, a := Exec(p, Init(start), before), InDatabase(D.Commit(t, at));
    InvRun(p, Init(start), before);
    ScanOwnedRun(p, Init(start), before, t, k);
    SnapshotRecorded(p, s, t, at, k);
    var s1 := Apply(p, s, a);
    var r := Record(l.user, RevokedOf(s1.db.rows, l.user), s.db.now);
    Step(p, s, a);
    InvRun(p, s1, after);
    RecordsStay(p, s1, after, r);
    RecordLocksOut(p, Exec(p, s1, after), r, l, k);
  }
}
