/**
 Access-token revocation: the pure decision functions, the signed claims they judge, the
 middleware's verdict, and the Redis store that holds the expiring markers.

 Times are nanoseconds since the Unix epoch.
 */
module Revocation {
  import opened Options
  import opened Decimal

  const SECOND := 1_000_000_000
  const SKEW := 5 * SECOND

  /** How long a marker lives; no marker is needed when no token can be valid. */
  function RevocationTTL(jwtTTL: int): (ttl: int)
    ensures ttl == 0 <==> jwtTTL <= 0
    ensures ttl >= jwtTTL
  {
    if jwtTTL <= 0 then 0 else jwtTTL + SKEW
  }

  predicate RevokedByWatermark(issuedAt: int, watermark: int) {
    issuedAt <= watermark + SKEW
  }

  datatype Verdict = Kept | Revoked | Broken

  /** A session marker wins; otherwise the user watermark is parsed and compared. A corrupt or
      non-positive watermark is an error, never a silent "not revoked". */
  function Decide(userMarker: string, sessionMarker: string, issuedAt: int): Verdict {
    if sessionMarker != "" then Revoked
    else if userMarker == "" then Kept
    else match ParseInt(userMarker)
         case None => Broken
         case Some(w) =>
           if w <= 0 then Broken else if RevokedByWatermark(issuedAt, w) then Revoked else Kept
  }

  // ------------------------------------------------------------ tokens

  datatype Claims = Claims(user: string, session: string, issuedAt: int, expiresAt: int)

  /** A minted token and the true time of its minting. */
  datatype Token = Token(signedAt: int, claims: Claims)

  /** An instance clock reads true time t to within eps. */
  predicate Near(eps: int, reading: int, t: int) {
    t - eps <= reading <= t + eps
  }

  /** JWT numeric dates keep whole seconds. */
  function FloorSecond(t: int): (r: int)
    ensures r <= t < r + SECOND
  {
    t - t % SECOND
  }

  function SignAccessToken(now: int, ttl: int, user: string, session: string): (c: Claims)
    ensures c.issuedAt <= now < c.issuedAt + SECOND
    ensures c.expiresAt <= now + ttl < c.expiresAt + SECOND
  {
    Claims(user, session, FloorSecond(now), FloorSecond(now + ttl))
  }

  /** The expiry check made when a signed token is parsed. */
  predicate Unexpired(c: Claims, now: int) {
    now < c.expiresAt
  }

  /** The middleware accepts a verified token unless it is revoked, or the check broke and the
      deployment fails closed. */
  predicate Authenticate(c: Claims, now: int, check: Verdict, failClosed: bool) {
    && Unexpired(c, now)
    && check != Revoked
    && (check == Broken ==> !failClosed)
  }

  // ------------------------------------------------------------ the store

  const USER_PREFIX := "revoked:user:"
  const SESSION_PREFIX := "revoked:sess:"

  datatype Marker = Marker(value: string, expires: int)
  type Markers = map<string, Marker>

  function UserKey(user: string): string {
    USER_PREFIX + user
  }

  function SessionKey(session: string): string {
    SESSION_PREFIX + session
  }

  lemma KeysDiffer(user: string, session: string)
    ensures UserKey(user) != SessionKey(session)
  {
    assert UserKey(user)[8] == 'u' && SessionKey(session)[8] == 's';
  }

  lemma UserKeyInjective(u: string, v: string)
    ensures UserKey(u) == UserKey(v) <==> u == v
  {
    assert UserKey(u)[|USER_PREFIX|..] == u && UserKey(v)[|USER_PREFIX|..] == v;
  }

  /** The value a GET at store time `at` sees; absent and expired both read as the empty string. */
  function Live(ms: Markers, key: string, at: int): string {
    if key in ms && at < ms[key].expires then ms[key].value else ""
  }

  /** IsRevoked: one MGET of both markers, then the decision. */
  function Judge(ms: Markers, c: Claims, at: int): Verdict {
    Decide(Live(ms, UserKey(c.user), at), Live(ms, SessionKey(c.session), at), c.issuedAt)
  }

  /** How a SET fares: applied and acknowledged, applied with its reply lost, or not applied. */
  datatype Reply = Applied | ReplyLost | NotApplied

  /** The markers after a write of a session's, or a user's. */
  function SessionMarked(ms: Markers, jwtTTL: int, session: string, at: int, reply: Reply): Markers {
    if jwtTTL <= 0 || reply.NotApplied? then ms else ms[SessionKey(session) := Marker("1", at + jwtTTL + SKEW)]
  }

  function UserMarked(ms: Markers, jwtTTL: int, user: string, reading: int, at: int, reply: Reply): Markers {
    if jwtTTL <= 0 || reply.NotApplied? then ms else ms[UserKey(user) := Marker(FormatInt(reading), at + jwtTTL + SKEW)]
  }

  /** The Redis-backed store; `markers` is the part of Redis it writes. */
  class RevocationStore {
    const jwtTTL: int
    var markers: Markers

    constructor (jwtTTL: int)
      ensures this.jwtTTL == jwtTTL && markers == map[]
    {
      this.jwtTTL := jwtTTL;
      markers := map[];
    }

    /** The store has the key and it has not expired. */
    predicate Holds(key: string, at: int)
      reads this
    {
      key in markers && at < markers[key].expires
    }

    /** SET of the user's watermark. `reading` is the instance clock, `at` the store's time of landing. */
    method RevokeAllForUser(user: string, reading: int, at: int, reply: Reply) returns (ok: bool)
      requires 0 < reading <= MAX_INT64
      modifies this
      ensures ok <==> jwtTTL <= 0 || reply.Applied?
      ensures markers == UserMarked(old(markers), jwtTTL, user, reading, at, reply)
      ensures forall c: Claims :: ok && jwtTTL > 0 && c.user == user && c.issuedAt <= reading + SKEW ==>
                                    Judge(markers, c, at) == Revoked
      ensures forall c: Claims, t :: c.user != user ==> Judge(markers, c, t) == Judge(old(markers), c, t)
    {
      var ttl := RevocationTTL(jwtTTL);
      if ttl == 0 {
        return true;
      }
      if !reply.NotApplied? {
        markers := markers[UserKey(user) := Marker(FormatInt(reading), at + ttl)];
      }
      ParseFormatInt(reading);
      forall c: Claims ensures UserKey(user) != SessionKey(c.session) &&
                               (UserKey(c.user) == UserKey(user) <==> c.user == user) {
        KeysDiffer(user, c.session);
        UserKeyInjective(c.user, user);
      }
      return reply.Applied?;
    }

    /** SET of the session's presence marker. */
    method RevokeSession(session: string, at: int, reply: Reply) returns (ok: bool)
      modifies this
      ensures ok <==> jwtTTL <= 0 || reply.Applied?
      ensures markers == SessionMarked(old(markers), jwtTTL, session, at, reply)
      ensures forall c: Claims, t :: ok && jwtTTL > 0 && c.session == session && t < at + jwtTTL + SKEW ==>
                                       Judge(markers, c, t) == Revoked
    {
      var ttl := RevocationTTL(jwtTTL);
      if ttl == 0 {
        return true;
      }
      if !reply.NotApplied? {
        markers := markers[SessionKey(session) := Marker("1", at + ttl)];
      }
      return reply.Applied?;
    }

    /** A failed MGET is an error, never a verdict. */
    method IsRevoked(c: Claims, at: int, answered: bool) returns (v: Verdict)
      ensures v == if answered then Judge(markers, c, at) else Broken
      ensures answered && Holds(SessionKey(c.session), at) && markers[SessionKey(c.session)].value != "" ==>
                v == Revoked
      ensures answered && !Holds(SessionKey(c.session), at) && !Holds(UserKey(c.user), at) ==> v == Kept
      ensures answered && !Holds(SessionKey(c.session), at) && Holds(UserKey(c.user), at)
              && markers[UserKey(c.user)].value != "" ==>
                match ParseInt(markers[UserKey(c.user)].value)
                case None => v == Broken
                case Some(w) =>
                  v == if w <= 0 then Broken else if c.issuedAt <= w + 5_000_000_000 then Revoked else Kept
    {
      if !answered {
        return Broken;
      }
      var userMarker := Live(markers, UserKey(c.user), at);
      var sessionMarker := Live(markers, SessionKey(c.session), at);
      v := Decide(userMarker, sessionMarker, c.issuedAt);
    }
  }

  /** The HTTP middleware in front of every authenticated route. */
  class Middleware {
    const checker: RevocationStore
    const failClosed: bool

    constructor (checker: RevocationStore, failClosed: bool)
      ensures this.checker == checker && this.failClosed == failClosed
    {
      this.checker, this.failClosed := checker, failClosed;
    }

    /** `signed` holds the claims of a token whose signature verifies; a missing or forged one has none.
        `reading` is the instance clock at the expiry check, `at` the store's at the lookup. */
    method Check(signed: Option<Claims>, reading: int, at: int, answered: bool) returns (accepted: bool)
      ensures signed.None? ==> !accepted
      ensures signed.Some? ==>
                var verdict := if answered then Judge(checker.markers, signed.value, at) else Broken;
                accepted == Authenticate(signed.value, reading, verdict, failClosed)
      ensures signed.Some? && answered && Judge(checker.markers, signed.value, at) == Revoked ==> !accepted
      ensures signed.Some? && answered && Judge(checker.markers, signed.value, at) == Kept ==>
                (accepted <==> reading < signed.value.expiresAt)
      ensures signed.Some? && (answered ==> Judge(checker.markers, signed.value, at) == Broken) ==>
                (accepted <==> reading < signed.value.expiresAt && !failClosed)
    {
      if signed.None? {
        return false;
      }
      if !Unexpired(signed.value, reading) {
        return false;
      }
      var verdict := checker.IsRevoked(signed.value, at, answered);
      if verdict == Broken {
        if failClosed {
          return false;
        }
      } else if verdict == Revoked {
        return false;
      }
      return true;
    }
  }
}
