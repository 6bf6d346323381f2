/**
 User-wide revocation over time. A true clock, instance clocks off by at most `eps`, marker
 writes that read a clock and land in Redis up to `lambda` later, checks that look a marker up
 within `delta` of verifying the token. The theorem is exact: revocation is permanent if and
 only if the five-second skew covers `lambda + 2 eps` (less the slack that flooring leaves to
 tokens shorter than a second under exact clocks) and `2 eps + delta`.
 */
module Watermark {
  import opened Options
  import opened Decimal
  import opened Revocation

  datatype Params = Params(ttl: int, eps: int, lambda: int, delta: int)

  ghost predicate ValidParams(p: Params) {
    p.ttl > 0 && p.eps >= 0 && p.lambda >= 0 && p.delta >= 0
  }

  /** A clock reading in flight to Redis. */
  datatype Write = Write(user: string, readAt: int, reading: int)

  /** A RevokeAllForUser call that has landed. */
  datatype Landing = Landing(user: string, readAt: int, landedAt: int)

  datatype State = State(
    now: int, markers: Markers, writes: map<nat, Write>, landed: set<Landing>, tokens: set<Token>)

  ghost function Init(now: int): State {
    State(now, map[], map[], {}, {})
  }

  datatype Action =
    | Advance(dt: nat)
    | Sign(user: string, session: string, reading: int)
    | ReadClock(w: nat, user: string, reading: int)
    | Land(w: nat)
    | LandSession(session: string)

  ghost predicate Enabled(p: Params, s: State, a: Action) {
    match a
    case Advance(_) => true
    case Sign(_, _, reading) => Near(p.eps, reading, s.now)
    case ReadClock(w, _, reading) => w !in s.writes && Near(p.eps, reading, s.now) && 0 < reading <= MAX_INT64
    case Land(w) => w in s.writes && s.now <= s.writes[w].readAt + p.lambda
    case LandSession(_) => true
  }

  ghost function Apply(p: Params, s: State, a: Action): State
    requires Enabled(p, s, a)
  {
    match a
    case Advance(dt) => s.(now := s.now + dt)
    case Sign(user, session, reading) =>
      s.(tokens := s.tokens + {Token(s.now, SignAccessToken(reading, p.ttl, user, session))})
    case ReadClock(w, user, reading) => s.(writes := s.writes[w := Write(user, s.now, reading)])
    case Land(w) =>
      var wr := s.writes[w];
      s.(markers := s.markers[UserKey(wr.user) := Marker(FormatInt(wr.reading), s.now + RevocationTTL(p.ttl))],
         writes := s.writes - {w},
         landed := s.landed + {Landing(wr.user, wr.readAt, s.now)})
    case LandSession(session) =>
      s.(markers := s.markers[SessionKey(session) := Marker("1", s.now + RevocationTTL(p.ttl))])
  }

  ghost predicate Run(p: Params, s: State, acts: seq<Action>)
    decreases |acts|
  {
    acts == [] || (Enabled(p, s, acts[0]) && Run(p, Apply(p, s, acts[0]), acts[1..]))
  }

  ghost function Exec(p: Params, s: State, acts: seq<Action>): State
    requires Run(p, s, acts)
    decreases |acts|
  {
    if acts == [] then s else Exec(p, Apply(p, s, acts[0]), acts[1..])
  }

  /** The middleware now accepts the token by a lookup that was answered: verified at `verifiedAt`, once
      it had been signed, by a clock reading `reading`, its markers looked up at the present moment. */
  ghost predicate Passes(p: Params, s: State, tok: Token, verifiedAt: int, reading: int, failClosed: bool) {
    && tok.signedAt <= verifiedAt <= s.now <= verifiedAt + p.delta
    && Near(p.eps, reading, verifiedAt)
    && Authenticate(tok.claims, reading, Judge(s.markers, tok.claims, s.now), failClosed)
  }

  /** Covered by a landed revocation: issued to its user at or before the call's clock read. */
  ghost predicate Covered(s: State, tok: Token, l: Landing) {
    tok in s.tokens && l in s.landed && tok.claims.user == l.user && tok.signedAt <= l.readAt
  }

  ghost predicate Permanent(p: Params) {
    forall start, acts, tok, l, verifiedAt, reading, failClosed ::
      Run(p, Init(start), acts) && Covered(Exec(p, Init(start), acts), tok, l) ==>
        !Passes(p, Exec(p, Init(start), acts), tok, verifiedAt, reading, failClosed)
  }

  // ------------------------------------------------------------ sufficiency

  ghost predicate TokenOk(p: Params, s: State, tok: Token) {
    && tok.signedAt - p.eps - SECOND < tok.claims.issuedAt <= tok.signedAt + p.eps
    && tok.signedAt - p.eps + p.ttl - SECOND < tok.claims.expiresAt <= tok.signedAt + p.eps + p.ttl
    && tok.signedAt <= s.now
    && (p.eps == 0 ==> tok.claims == SignAccessToken(tok.signedAt, p.ttl, tok.claims.user, tok.claims.session))
  }

  /** What flooring to seconds gives away when clocks are exact: a token that lives less than a
      second is only ever accepted if it was signed in the last `ttl` of a second. */
  function Slack(p: Params): int {
    if p.eps == 0 && p.ttl < SECOND then SECOND - p.ttl else 0
  }

  ghost predicate WriteOk(p: Params, s: State, w: Write) {
    w.readAt <= s.now && Near(p.eps, w.reading, w.readAt) && 0 < w.reading <= MAX_INT64
  }

  /** The user's marker, whichever write left it there, is recent enough and lives long enough. */
  ghost predicate LandingOk(p: Params, s: State, l: Landing) {
    && l.readAt <= l.landedAt <= s.now
    && UserKey(l.user) in s.markers
    && var m := s.markers[UserKey(l.user)];
    && m.expires >= l.landedAt + p.ttl + SKEW
    && ParseInt(m.value).Some?
    && ParseInt(m.value).value > 0
    && ParseInt(m.value).value >= l.landedAt - p.lambda - p.eps
  }

  ghost predicate Inv(p: Params, s: State) {
    && (forall tok :: tok in s.tokens ==> TokenOk(p, s, tok))
    && (forall w :: w in s.writes ==> WriteOk(p, s, s.writes[w]))
    && (forall l :: l in s.landed ==> LandingOk(p, s, l))
  }

  lemma LandingStep(p: Params, s: State, a: Action, l: Landing)
    requires ValidParams(p) && Enabled(p, s, a)
    requires a.Land? ==> WriteOk(p, s, s.writes[a.w])
    requires l in s.landed ==> LandingOk(p, s, l)
    requires l in Apply(p, s, a).landed
    ensures LandingOk(p, Apply(p, s, a), l)
  {
    match a {
      case Land(w) =>
        ParseFormatInt(s.writes[w].reading);
        UserKeyInjective(l.user, s.writes[w].user);
      case LandSession(session) => KeysDiffer(l.user, session);
      case _ =>
    }
  }

  lemma Step(p: Params, s: State, a: Action)
    requires ValidParams(p) && Inv(p, s) && Enabled(p, s, a)
    ensures Inv(p, Apply(p, s, a))
  {
    var s' := Apply(p, s, a);
    forall l | l in s'.landed ensures LandingOk(p, s', l) {
      LandingStep(p, s, a, l);
    }
  }

  lemma {:induction false} InvRun(p: Params, s: State, acts: seq<Action>)
    requires ValidParams(p) && Inv(p, s) && Run(p, s, acts)
    ensures Inv(p, Exec(p, s, acts))
    decreases |acts|
  {
    if acts != [] {
      Step(p, s, acts[0]);
      InvRun(p, Apply(p, s, acts[0]), acts[1..]);
    }
  }

  /** When the skew covers both sums, no covered token passes a working check, ever: not after
      the marker is overwritten by a write that read its clock earlier, not after it expires. */
  lemma SkewSuffices(p: Params)
    requires ValidParams(p) && p.lambda + 2 * p.eps <= 5 * SECOND + Slack(p) && 2 * p.eps + p.delta <= 5 * SECOND
    ensures Permanent(p)
  {
    forall start, acts, tok, l, verifiedAt, reading, failClosed
      | Run(p, Init(start), acts) && Covered(Exec(p, Init(start), acts), tok, l)
      ensures !Passes(p, Exec(p, Init(start), acts), tok, verifiedAt, reading, failClosed)
    {
      InvRun(p, Init(start), acts);
      var s := Exec(p, Init(start), acts);
      assert TokenOk(p, s, tok) && LandingOk(p, s, l);
      SkewCovers(p, s, tok, l, verifiedAt, reading, failClosed);
    }
  }

  lemma SkewCovers(p: Params, s: State, tok: Token, l: Landing, verifiedAt: int, reading: int, failClosed: bool)
    requires ValidParams(p) && p.lambda + 2 * p.eps <= 5 * SECOND + Slack(p) && 2 * p.eps + p.delta <= 5 * SECOND
    requires Covered(s, tok, l) && TokenOk(p, s, tok) && LandingOk(p, s, l)
    ensures !Passes(p, s, tok, verifiedAt, reading, failClosed)
  {
  }

  // ------------------------------------------------------------ necessity

  lemma {:induction false} RunStep(p: Params, s: State, acts: seq<Action>, a: Action)
    requires Run(p, s, acts) && Enabled(p, Exec(p, s, acts), a)
    ensures Run(p, s, acts + [a]) && Exec(p, s, acts + [a]) == Apply(p, Exec(p, s, acts), a)
    decreases |acts|
  {
    if acts == [] {
      assert [a][1..] == [] && Run(p, Apply(p, s, a), []);
      assert [] + [a] == [a];
    } else {
      assert (acts + [a])[1..] == acts[1..] + [a];
      RunStep(p, Apply(p, s, acts[0]), acts[1..], a);
    }
  }

  ghost predicate Reaches(p: Params, start: int, acts: seq<Action>, s: State) {
    Run(p, Init(start), acts) && Exec(p, Init(start), acts) == s
  }

  lemma Extend(p: Params, start: int, acts: seq<Action>, s: State, a: Action) returns (acts': seq<Action>, s': State)
    requires Reaches(p, start, acts, s) && Enabled(p, s, a)
    ensures s' == Apply(p, s, a) && Reaches(p, start, acts', s')
  {
    RunStep(p, Init(start), acts, a);
    acts', s' := acts + [a], Apply(p, s, a);
  }

  /** A slow write that read its clock before the token was signed overwrites the revocation. The
      token is signed at `at` by a clock ahead by e, and checked at once by a clock behind by b. */
  lemma SlowWriteSurvives(p: Params)
    returns (start: int, acts: seq<Action>, tok: Token, l: Landing, at: int, reading: int)
    requires ValidParams(p) && p.lambda + 2 * p.eps > 5 * SECOND + Slack(p)
    ensures Run(p, Init(start), acts) && Covered(Exec(p, Init(start), acts), tok, l)
    ensures forall failClosed :: Passes(p, Exec(p, Init(start), acts), tok, at, reading, failClosed)
  {
    var e, late := Min(p.eps, 3 * SECOND), Min(p.lambda, 7 * SECOND);
    at := 20 * SECOND - e + Slack(p);
    reading := if p.eps == 0 then at else at - 1;
    start := at - late;
    var slow := start - e;
    var s;
    acts, s := SlowRun(p, start, late, slow, at + e);
    tok, l := Token(at, SignAccessToken(at + e, p.ttl, "u", "s")), Landing("u", at, at);
    assert FloorSecond(at + e) == 20 * SECOND;
    KeptDespite(p, s, tok.claims, slow);
  }

  /** A write reads its clock as `slow`; later a token is signed and revoked, and then the write lands. */
  lemma SlowRun(p: Params, start: int, late: nat, slow: int, signing: int) returns (acts: seq<Action>, s: State)
    requires ValidParams(p) && 0 <= late <= p.lambda && start > 0 && start + late <= MAX_INT64
    requires Near(p.eps, slow, start) && 0 < slow <= MAX_INT64 && Near(p.eps, signing, start + late)
    ensures Reaches(p, start, acts, s) && s.now == start + late
    ensures s.markers == map[UserKey("u") := Marker(FormatInt(slow), start + late + p.ttl + SKEW)]
    ensures Token(start + late, SignAccessToken(signing, p.ttl, "u", "s")) in s.tokens
    ensures Landing("u", start + late, start + late) in s.landed
  {
    var at := start + late;
    var a0: seq<Action> := [];
    var a1, s1 := Extend(p, start, a0, Init(start), ReadClock(0, "u", slow));
    var a2, s2 := Extend(p, start, a1, s1, Advance(late));
    var a3, s3 := Extend(p, start, a2, s2, Sign("u", "s", signing));
    var a4, s4 := Extend(p, start, a3, s3, ReadClock(1, "u", at));
    var a5, s5 := Extend(p, start, a4, s4, Land(1));
    acts, s := Extend(p, start, a5, s5, Land(0));
  }

  lemma KeptDespite(p: Params, s: State, c: Claims, w: int)
    requires ValidParams(p) && 0 < w <= MAX_INT64 && c.issuedAt > w + SKEW
    requires s.markers.Keys == {UserKey(c.user)} && s.markers[UserKey(c.user)].value == FormatInt(w)
    ensures Judge(s.markers, c, s.now) == Kept
  {
    ParseFormatInt(w);
    KeysDiffer(c.user, c.session);
  }

  /** A token verified just before its expiry, looked up after the marker has expired. */
  lemma SlowLookupSurvives(p: Params)
    returns (start: int, acts: seq<Action>, tok: Token, l: Landing, at: int, reading: int)
    requires ValidParams(p) && 2 * p.eps + p.delta > 5 * SECOND
    ensures Run(p, Init(start), acts) && Covered(Exec(p, Init(start), acts), tok, l)
    ensures forall failClosed :: Passes(p, Exec(p, Init(start), acts), tok, at, reading, failClosed)
  {
    var e, late := Min(p.eps, 3 * SECOND), Min(p.delta, 6 * SECOND);
    var expiry := FloorSecond(p.ttl) + 20 * SECOND;
    start := expiry - e - p.ttl;
    at, reading := expiry + e - 1, expiry - 1;
    var a0: seq<Action> := [];
    var a1, s1 := Extend(p, start, a0, Init(start), Sign("u", "s", start + e));
    var a2, s2 := Extend(p, start, a1, s1, ReadClock(0, "u", start));
    var a3, s3 := Extend(p, start, a2, s2, Land(0));
    var a4, s4 := Extend(p, start, a3, s3, Advance(at + late - start));
    acts, tok, l := a4, Token(start, SignAccessToken(start + e, p.ttl, "u", "s")), Landing("u", start, start);
    KeysDiffer("u", "s");
    assert FloorSecond(expiry) == expiry;
  }

  /**
   The exact strength of the five-second skew, for every lifetime: revocation is permanent if and
   only if it covers the landing delay plus twice the clock error, up to the slack of flooring, and
   twice the clock error plus the lookup delay.
   */
  lemma PermanentExactly(p: Params)
    requires ValidParams(p)
    ensures Permanent(p) <==>
            p.lambda + 2 * p.eps <= 5_000_000_000 + Slack(p) && 2 * p.eps + p.delta <= 5_000_000_000
  {
    if p.lambda + 2 * p.eps > 5 * SECOND + Slack(p) {
      var start, acts, tok, l, at, reading := SlowWriteSurvives(p);
      assert Passes(p, Exec(p, Init(start), acts), tok, at, reading, true);
    } else if 2 * p.eps + p.delta > 5 * SECOND {
      var start, acts, tok, l, at, reading := SlowLookupSurvives(p);
      assert Passes(p, Exec(p, Init(start), acts), tok, at, reading, true);
    } else {
      SkewSuffices(p);
    }
  }

  // ------------------------------------------------------------ the other side

  /** A user marker comes from a landing, and its watermark is not ahead of it by more than eps. */
  ghost predicate FromLanding(p: Params, s: State, user: string) {
    UserKey(user) in s.markers ==>
      exists l :: l in s.landed && l.user == user
                  && ParseInt(s.markers[UserKey(user)].value).Some?
                  && 0 < ParseInt(s.markers[UserKey(user)].value).value <= l.landedAt + p.eps
  }

  lemma FromLandingStep(p: Params, s: State, a: Action, user: string)
    requires ValidParams(p) && Inv(p, s) && Enabled(p, s, a) && FromLanding(p, s, user)
    ensures FromLanding(p, Apply(p, s, a), user)
  {
    var s' := Apply(p, s, a);
    match a {
      case Land(w) =>
        var wr := s.writes[w];
        UserKeyInjective(wr.user, user);
        if wr.user == user {
          ParseFormatInt(wr.reading);
          assert WriteOk(p, s, wr);
          assert Landing(user, wr.readAt, s.now) in s'.landed;
        }
      case LandSession(session) => KeysDiffer(user, session);
      case _ =>
    }
  }

  lemma {:induction false} FromLandingRun(p: Params, s: State, acts: seq<Action>, user: string)
    requires ValidParams(p) && Inv(p, s) && Run(p, s, acts) && FromLanding(p, s, user)
    ensures FromLanding(p, Exec(p, s, acts), user)
    decreases |acts|
  {
    if acts != [] {
      Step(p, s, acts[0]);
      FromLandingStep(p, s, acts[0], user);
      FromLandingRun(p, Apply(p, s, acts[0]), acts[1..], user);
    }
  }

  /** Over-revocation is bounded: a token signed at least 6 s + 2 eps after every landed
      revocation of its user is never rejected by the watermark. */
  lemma LaterTokensKept(p: Params, start: int, acts: seq<Action>, tok: Token)
    requires ValidParams(p) && Run(p, Init(start), acts)
    requires var s := Exec(p, Init(start), acts);
             && tok in s.tokens
             && (forall l :: l in s.landed && l.user == tok.claims.user ==>
                               l.landedAt + 6 * SECOND + 2 * p.eps <= tok.signedAt)
             && Live(s.markers, SessionKey(tok.claims.session), s.now) == ""
    ensures var s := Exec(p, Init(start), acts); Judge(s.markers, tok.claims, s.now) == Kept
  {
    InvRun(p, Init(start), acts);
    FromLandingRun(p, Init(start), acts, tok.claims.user);
    assert TokenOk(p, Exec(p, Init(start), acts), tok);
  }

  /** Such a token is let in: by an answered lookup in every deployment, and by a failed one exactly when
      the deployment fails open, as long as the clock reads less than its lifetime, less one second,
      after the instant it was signed. */
  lemma LaterTokensAccepted(p: Params, start: int, acts: seq<Action>, tok: Token, reading: int, failClosed: bool)
    requires ValidParams(p) && Run(p, Init(start), acts)
    requires var s := Exec(p, Init(start), acts);
             && tok in s.tokens
             && (forall l :: l in s.landed && l.user == tok.claims.user ==>
                               l.landedAt + 6 * SECOND + 2 * p.eps <= tok.signedAt)
             && Live(s.markers, SessionKey(tok.claims.session), s.now) == ""
    requires reading <= tok.signedAt + p.ttl - p.eps - SECOND
    ensures var s := Exec(p, Init(start), acts);
            Authenticate(tok.claims, reading, Judge(s.markers, tok.claims, s.now), failClosed)
    ensures Authenticate(tok.claims, reading, Broken, failClosed) <==> !failClosed
  {
    InvRun(p, Init(start), acts);
    assert TokenOk(p, Exec(p, Init(start), acts), tok);
    LaterTokensKept(p, start, acts, tok);
  }

  /** Even when every check fails open, a token signed at or before time r is accepted only
      earlier than r + ttl + 2 eps. */
  lemma FailOpenExposure(p: Params, start: int, acts: seq<Action>, tok: Token, r: int, at: int, reading: int,
                         v: Verdict, failClosed: bool)
    requires ValidParams(p) && Run(p, Init(start), acts)
    requires tok in Exec(p, Init(start), acts).tokens && tok.signedAt <= r
    requires Near(p.eps, reading, at) && Authenticate(tok.claims, reading, v, failClosed)
    ensures at < r + p.ttl + 2 * p.eps
  {
    InvRun(p, Init(start), acts);
    assert TokenOk(p, Exec(p, Init(start), acts), tok);
  }
}
