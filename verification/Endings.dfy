/**
 A revoked session is dead for good: once a Logout or RevokeSession that set `revoked_at` has
 committed and its marker has landed, no refresh of the session commits and no access token
 carrying its id passes a working check.
 */
module Endings {
  import opened Options
  import opened Revocation
  import opened Database
  import opened Locking
  import opened Sessions

  ghost predicate Minted(p: Params, s: State, tok: Token) {
    && tok.signedAt <= s.now
    && tok.claims.expiresAt <= tok.signedAt + p.eps + p.ttl
    && tok.claims.session in s.sessionIds
  }

  /** The marker outlives every token of the session, and none was signed after it landed. */
  ghost predicate Ended(p: Params, s: State, id: Id) {
    id in s.ended ==>
      && Database.Revoked(s.rows, id)
      && s.ended[id] <= s.now
      && SessionKey(id) in s.markers && s.markers[SessionKey(id)].value != ""
      && s.markers[SessionKey(id)].expires >= s.ended[id] + p.ttl + SKEW
      && (forall tok :: tok in s.tokens && tok.claims.session == id ==> tok.signedAt <= s.ended[id])
  }

  ghost predicate KnownSession(s: State, k: Key) {
    IsSession(s.rows, k) && k.SessK? ==> k.id in s.sessionIds
  }

  ghost predicate EndInv(p: Params, s: State) {
    && LockInv(s)
    && (forall tok :: tok in s.tokens ==> Minted(p, s, tok))
    && (forall k :: KnownSession(s, k))
    && (forall t :: t in s.txs && s.txs[t].op.Login? ==> s.txs[t].op.session in s.sessionIds)
    && (forall id :: Ended(p, s, id))
  }

  lemma TokenStep(p: Params, s: State, a: Action, tok: Token)
    requires p.ttl > 0 && LockInv(s) && Enabled(p, s, a)
    requires tok in s.tokens ==> Minted(p, s, tok)
    requires forall k :: KnownSession(s, k)
    requires tok in Apply(p, s, a).tokens
    ensures Minted(p, Apply(p, s, a), tok)
  {
    if a.Sign? {
      assert Current(s, a.t);
      assert KnownSession(s, s.txs[a.t].target.value);
    }
  }

  lemma KnownSessionStep(p: Params, s: State, a: Action, k: Key)
    requires LockInv(s) && Enabled(p, s, a) && KnownSession(s, k)
    requires a.Commit? && s.txs[a.t].op.Login? ==> s.txs[a.t].op.session in s.sessionIds
    ensures KnownSession(Apply(p, s, a), k)
  {
    SessionStep(p, s, a, k);
  }

  /** No token is minted for a session whose marker has landed. */
  lemma NoLateToken(p: Params, s: State, a: Action, id: Id, tok: Token)
    requires LockInv(s) && Enabled(p, s, a) && Ended(p, s, id) && id in s.ended && KnownSession(s, SessK(id))
    requires tok in Apply(p, s, a).tokens && tok.claims.session == id
    ensures tok in s.tokens
  {
    if a.Sign? {
      assert Current(s, a.t);
    }
  }

  lemma EndedStep(p: Params, s: State, a: Action, id: Id)
    requires p.ttl > 0 && EndInv(p, s) && Enabled(p, s, a)
    ensures Ended(p, Apply(p, s, a), id)
  {
    var s' := Apply(p, s, a);
    assert Ended(p, s, id) && KnownSession(s, SessK(id));
    SessionStep(p, s, a, SessK(id));
    if a.LandMarker? {
      assert SessionKey(id)[|SESSION_PREFIX|..] == id && SessionKey(a.session)[|SESSION_PREFIX|..] == a.session;
    }
    if id in s.ended {
      forall tok | tok in s'.tokens && tok.claims.session == id ensures tok in s.tokens {
        NoLateToken(p, s, a, id, tok);
      }
    }
  }

  lemma EndStep(p: Params, s: State, a: Action)
    requires p.ttl > 0 && EndInv(p, s) && Enabled(p, s, a)
    ensures EndInv(p, Apply(p, s, a))
  {
    var s' := Apply(p, s, a);
    LockStep(p, s, a);
    forall tok | tok in s'.tokens ensures Minted(p, s', tok) {
      TokenStep(p, s, a, tok);
    }
    forall k ensures KnownSession(s', k) {
      assert KnownSession(s, k);
      KnownSessionStep(p, s, a, k);
    }
    forall id ensures Ended(p, s', id) {
      EndedStep(p, s, a, id);
    }
  }

  lemma {:induction false} EndRun(p: Params, s: State, acts: seq<Action>)
    requires p.ttl > 0 && EndInv(p, s) && Run(p, s, acts)
    ensures EndInv(p, Exec(p, s, acts))
    decreases |acts|
  {
    if acts != [] {
      EndStep(p, s, acts[0]);
      EndRun(p, Apply(p, s, acts[0]), acts[1..]);
    }
  }

  lemma {:induction false} EndingSticks(p: Params, s: State, acts: seq<Action>, id: Id)
    requires Run(p, s, acts) && id in s.ended
    ensures id in Exec(p, s, acts).ended
    decreases |acts|
  {
    if acts != [] {
      EndingSticks(p, Apply(p, s, acts[0]), acts[1..], id);
    }
  }

  /** The middleware, whose answered lookup happens now, within delta of verifying the token, accepts it. */
  ghost predicate GetsThrough(
    p: Params, s: State, c: Claims, delta: int, verifiedAt: Time, reading: Time, failClosed: bool)
  {
    && verifiedAt <= s.now <= verifiedAt + delta
    && Near(p.eps, reading, verifiedAt)
    && Authenticate(c, reading, Judge(s.markers, c, s.now), failClosed)
  }

  ghost predicate Dead(p: Params, s: State, id: Id, delta: int) {
    && (forall tok, verifiedAt, reading, failClosed ::
          tok in s.tokens && tok.claims.session == id ==>
            !GetsThrough(p, s, tok.claims, delta, verifiedAt, reading, failClosed))
    && (forall a :: Enabled(p, s, a) && a.Commit? && s.txs[a.t].op.Refresh? ==> s.txs[a.t].target != Some(SessK(id)))
  }

  lemma EndedIsDead(p: Params, s: State, id: Id, delta: int)
    requires p.ttl > 0 && p.eps >= 0 && delta >= 0 && 2 * p.eps + delta <= 5 * SECOND
    requires EndInv(p, s) && id in s.ended
    ensures Dead(p, s, id, delta)
  {
    assert Ended(p, s, id);
    forall tok, verifiedAt, reading, failClosed | tok in s.tokens && tok.claims.session == id
      ensures !GetsThrough(p, s, tok.claims, delta, verifiedAt, reading, failClosed)
    {
      assert Minted(p, s, tok);
    }
    forall a | Enabled(p, s, a) && a.Commit? && s.txs[a.t].op.Refresh? ensures s.txs[a.t].target != Some(SessK(id)) {
      assert Current(s, a.t);
    }
  }

  /**
   From the moment the marker of a revoked session has landed, in every state of every further
   run, no working check passes a token of the session and no refresh of it can commit.
   */
  lemma RevokedSessionIsDead(p: Params, start: Time, before: seq<Action>, after: seq<Action>, id: Id, delta: int)
    requires p.ttl > 0 && p.eps >= 0 && delta >= 0 && 2 * p.eps + delta <= 5 * SECOND
    requires Run(p, Init(start), before) && id in Exec(p, Init(start), before).ended
    requires Run(p, Exec(p, Init(start), before), after)
    ensures Dead(p, Exec(p, Exec(p, Init(start), before), after), id, delta)
  {
    EndRun(p, Init(start), before);
    var s := Exec(p, Init(start), before);
    EndRun(p, s, after);
    EndingSticks(p, s, after, id);
    EndedIsDead(p, Exec(p, s, after), id, delta);
  }

  // ------------------------------------------------------------ from the request on

  /** The committing Logout or RevokeSession of a session that has not expired. */
  ghost predicate EndsLive(p: Params, s: State, t: TxId, at: Time, id: Id) {
    && Enabled(p, s, Commit(t, at)) && s.txs[t].op == EndSession(id)
    && IsSession(s.rows, SessK(id)) && at <= s.rows[SessK(id)].s.expires
  }

  lemma EndingRevokes(p: Params, s: State, t: TxId, at: Time, id: Id)
    requires LockInv(s) && EndsLive(p, s, t, at, id)
    ensures Database.Revoked(Apply(p, s, Commit(t, at)).rows, id)
  {
    assert Current(s, t);
  }

  /** Such a commit leaves the session revoked in every later state, so that its marker, whenever it
      lands, ends the session. */
  lemma EndedForGood(p: Params, start: Time, before: seq<Action>, t: TxId, at: Time, id: Id, later: seq<Action>)
    requires Run(p, Init(start), before) && EndsLive(p, Exec(p, Init(start), before), t, at, id)
    requires Run(p, Apply(p, Exec(p, Init(start), before), Commit(t, at)), later)
    ensures var s := Exec(p, Apply(p, Exec(p, Init(start), before), Commit(t, at)), later);
            && Database.Revoked(s.rows, id)
            && (Enabled(p, s, LandMarker(id)) ==> id in Apply(p, s, LandMarker(id)).ended)
  {
    LockRun(p, Init(start), before);
    var s := Exec(p, Init(start), before);
    EndingRevokes(p, s, t, at, id);
    LockStep(p, s, Commit(t, at));
    RevokedStays(p, Apply(p, s, Commit(t, at)), later, id);
  }

  lemma RevokedStays(p: Params, s: State, acts: seq<Action>, id: Id)
    requires LockInv(s) && Run(p, s, acts) && Database.Revoked(s.rows, id)
    ensures var s' := Exec(p, s, acts);
            && Database.Revoked(s'.rows, id)
            && (Enabled(p, s', LandMarker(id)) ==> id in Apply(p, s', LandMarker(id)).ended)
  {
    RevocationSticks(p, s, acts, SessK(id));
  }

  /**
   From the request to the end of time: a session whose Logout or RevokeSession commits no later than its
   expiry is dead once its marker has landed, whatever runs before, between and after.
   */
  lemma EndedOnRequest(
    p: Params, start: Time, before: seq<Action>, t: TxId, at: Time, id: Id, later: seq<Action>, after: seq<Action>,
    delta: int)
    requires p.ttl > 0 && p.eps >= 0 && delta >= 0 && 2 * p.eps + delta <= 5 * SECOND
    requires Run(p, Init(start), before) && EndsLive(p, Exec(p, Init(start), before), t, at, id)
    requires Run(p, Apply(p, Exec(p, Init(start), before), Commit(t, at)), later)
    requires var s := Exec(p, Apply(p, Exec(p, Init(start), before), Commit(t, at)), later);
             Enabled(p, s, LandMarker(id)) && Run(p, Apply(p, s, LandMarker(id)), after)
    ensures var s := Exec(p, Apply(p, Exec(p, Init(start), before), Commit(t, at)), later);
            Dead(p, Exec(p, Apply(p, s, LandMarker(id)), after), id, delta)
  {
    EndedForGood(p, start, before, t, at, id, later);
    var s0 := Exec(p, Init(start), before);
    var s1 := Apply(p, s0, Commit(t, at));
    var s2 := Exec(p, s1, later);
    var s3 := Apply(p, s2, LandMarker(id));
    EndRun(p, Init(start), before);
    EndStep(p, s0, Commit(t, at));
    EndRun(p, s1, later);
    EndStep(p, s2, LandMarker(id));
    EndRun(p, s3, after);
    EndingSticks(p, s3, after, id);
    EndedIsDead(p, Exec(p, s3, after), id, delta);
  }
}
