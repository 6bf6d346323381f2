/**
 The delivery protocol of the Redis Streams consumer: the pending entries list with
 its delivery counter, the `SET NX` claims, the dead-letter stream and the handler
 runs in flight, as a labelled transition system.

 Every call to Redis is one atomic step whose outcome is chosen by the environment, so
 a run is any interleaving of any number of concurrent handler runs with any pattern of
 failures.
 */
module Delivery {

  type MsgId = nat   // entry id in the stream
  type RunId = nat   // one execution of `handle`

  /** `env` holds the envelope id of every message whose payload decodes, `torn` the id that was read
      from an envelope whose payload then failed to decode. */
  datatype Config = Config(useDLQ: bool, maxRetries: int, env: map<MsgId, string>, torn: map<MsgId, string>)

  predicate HasId(c: Config, m: MsgId) {
    m in c.env || m in c.torn
  }

  function IdOf(c: Config, m: MsgId): string
    requires HasId(c, m)
  {
    if m in c.env then c.env[m] else c.torn[m]
  }

  /** The deferred recover knows an id whose claim it releases. */
  predicate Releasable(c: Config, m: MsgId) {
    HasId(c, m) && IdOf(c, m) != ""
  }

  /** Producers give each message its own non-empty envelope id. */
  ghost predicate ValidConfig(c: Config) {
    && (forall m :: m in c.env ==> c.env[m] != "")
    && (forall m, n :: m in c.env && n in c.env && c.env[m] == c.env[n] ==> m == n)
    && (forall m, n :: m in c.torn && n in c.env ==> m != n && c.torn[m] != c.env[n])
  }

  /** Outcome of a Redis call: applied and acknowledged, applied with the reply lost, or not applied. */
  datatype Fault = Applied | ReplyLost | NotApplied

  datatype Why = Duplicate | Handled | DeadLettered

  datatype Pc =
    | Decoding | Claiming | Handling | Releasing | Counting | DeadLettering | Acking(why: Why)

  /** One running `handle`; `recovering` once its deferred recover has taken over. */
  datatype Flight = Flight(msg: MsgId, pc: Pc, recovering: bool)

  datatype State = State(
    delivered: set<MsgId>,
    pending: map<MsgId, nat>,        // the PEL with its delivery counter
    claims: set<string>,             // live dedup keys, by envelope id
    dlq: multiset<MsgId>,
    handled: multiset<MsgId>,        // handler runs that returned nil
    runs: multiset<MsgId>,           // handler runs started
    flights: map<RunId, Flight>)

  const INIT := State({}, map[], {}, multiset{}, multiset{}, multiset{}, map[])

  datatype Action =
    | Read(m: MsgId, d: RunId)              // XREADGROUP, handler spawned
    | ReadUnhandled(m: MsgId)               // XREADGROUP, then shutdown wins the select
    | Reclaim(m: MsgId, d: RunId)           // XAUTOCLAIM, handler spawned
    | ReclaimUnhandled(m: MsgId)            // XAUTOCLAIM, then shutdown wins the select
    | Decode(d: RunId)
    | Claim(d: RunId, f: Fault)             // SET NX
    | Return(d: RunId, succeeds: bool)      // the handler returns
    | Release(d: RunId, f: Fault)           // DEL of the claim
    | Count(d: RunId, readable: bool)       // XPENDING
    | DeadLetter(d: RunId, f: Fault)        // XADD to the dead-letter stream
    | Ack(d: RunId, f: Fault)               // XACK
    | Panic(d: RunId)
    | Crash(d: RunId)                       // the process dies
    | Expire(e: string)                     // a claim's TTL passes

  ghost predicate At(s: State, d: RunId, pc: Pc) {
    d in s.flights && s.flights[d].pc == pc
  }

  /** Stated as an equation, so that the verifier does not expand the condition at every use. */
  ghost predicate Enabled(c: Config, s: State, a: Action) {
    MayStep(c, s, a) == true
  }

  ghost predicate MayStep(c: Config, s: State, a: Action) {
    match a
    case Read(m, d) => m !in s.delivered && d !in s.flights
    case ReadUnhandled(m) => m !in s.delivered
    case Reclaim(m, d) => m in s.pending && d !in s.flights
    case ReclaimUnhandled(m) => m in s.pending
    case Decode(d) => At(s, d, Decoding)
    case Claim(d, f) => At(s, d, Claiming) && s.flights[d].msg in c.env
    case Return(d, _) => At(s, d, Handling)
    case Release(d, f) => At(s, d, Releasing) && HasId(c, s.flights[d].msg)
    case Count(d, _) => At(s, d, Counting)
    case DeadLetter(d, f) => At(s, d, DeadLettering)
    case Ack(d, f) => d in s.flights && s.flights[d].pc.Acking?
    case Panic(d) => d in s.flights && !s.flights[d].recovering
    case Crash(d) => d in s.flights
    case Expire(e) => e in s.claims
  }

  ghost function Goto(s: State, d: RunId, pc: Pc): map<RunId, Flight>
    requires d in s.flights
  {
    s.flights[d := s.flights[d].(pc := pc)]
  }

  ghost function Apply(c: Config, s: State, a: Action): State
    requires Enabled(c, s, a)
  {
    match a
    case Read(m, d) =>
      s.(delivered := s.delivered + {m}, pending := s.pending[m := 1],
         flights := s.flights[d := Flight(m, Decoding, false)])
    case ReadUnhandled(m) =>
      s.(delivered := s.delivered + {m}, pending := s.pending[m := 1])
    case Reclaim(m, d) =>
      s.(pending := s.pending[m := s.pending[m] + 1], flights := s.flights[d := Flight(m, Decoding, false)])
    case ReclaimUnhandled(m) =>
      s.(pending := s.pending[m := s.pending[m] + 1])
    case Decode(d) =>
      s.(flights := Goto(s, d, if s.flights[d].msg in c.env then Claiming else DeadLettering))
    case Claim(d, f) =>
      var m := s.flights[d].msg;
      if f.Applied? && c.env[m] in s.claims then s.(flights := Goto(s, d, Acking(Duplicate)))
      else s.(claims := if f.NotApplied? then s.claims else s.claims + {c.env[m]},
              runs := s.runs[m := s.runs[m] + 1], flights := Goto(s, d, Handling))
    case Return(d, succeeds) =>
      var m := s.flights[d].msg;
      if succeeds then s.(handled := s.handled[m := s.handled[m] + 1], flights := Goto(s, d, Acking(Handled)))
      else s.(flights := Goto(s, d, Releasing))
    case Release(d, f) =>
      s.(claims := if f.NotApplied? then s.claims else s.claims - {IdOf(c, s.flights[d].msg)},
         flights := Goto(s, d, if s.flights[d].recovering then DeadLettering else Counting))
    case Count(d, readable) =>
      var m := s.flights[d].msg;
      var deliveries := if readable && m in s.pending then s.pending[m] else 1;
      s.(flights := if deliveries >= c.maxRetries then Goto(s, d, DeadLettering) else s.flights - {d})
    case DeadLetter(d, f) =>
      var m := s.flights[d].msg;
      s.(dlq := if c.useDLQ && !f.NotApplied? then s.dlq[m := s.dlq[m] + 1] else s.dlq,
         flights := if !c.useDLQ || f.Applied? then Goto(s, d, Acking(DeadLettered)) else s.flights - {d})
    case Ack(d, f) =>
      s.(pending := if f.NotApplied? then s.pending else s.pending - {s.flights[d].msg}, flights := s.flights - {d})
    case Panic(d) =>
      var fl := s.flights[d];
      var known := Releasable(c, fl.msg) && fl.pc != Decoding;
      s.(flights := s.flights[d := Flight(fl.msg, if known then Releasing else DeadLettering, true)])
    case Crash(d) => s.(flights := s.flights - {d})
    case Expire(e) => s.(claims := s.claims - {e})
  }

  /** What a theorem assumes about the environment, step by step. */
  datatype Regime = Anything | Lossless(h: Hazards) | Once(k: Doubts) | Failing(m: MsgId)

  /** The three ways a run may step outside what the consumer relies on. */
  datatype Hazards = Hazards(
    overlap: bool,       // a message is reclaimed while a delivery of it is still running
    lostRelease: bool,   // the DEL of a claim may not take effect
    crash: bool)         // the process may die while a claim is held

  const CALM := Hazards(false, false, false)

  /** The ways a claim may fail to exclude a second success. */
  datatype Doubts = Doubts(
    claimError: bool,    // SET NX may answer with an error
    expiry: bool,        // a claim may expire
    panics: set<Pc>)     // where a run of a message that decodes may panic

  /** Where a panic does no harm: before there is an id to release, and while the run owns its claim. */
  const SAFE_POINTS := {Decoding, Handling, Releasing}

  ghost predicate Harmless(k: Doubts) {
    !k.claimError && !k.expiry && k.panics <= SAFE_POINTS
  }

  ghost predicate InFlight(s: State, m: MsgId) {
    exists d :: d in s.flights && s.flights[d].msg == m
  }

  /** The run may own the claim of its message. */
  ghost predicate Owning(f: Flight) {
    f.pc == Handling || f.pc == Releasing
  }

  ghost predicate Concerns(s: State, a: Action, m: MsgId) {
    match a
    case Read(_, _) | ReadUnhandled(_) | Reclaim(_, _) | ReclaimUnhandled(_) | Expire(_) => false
    case _ => a.d in s.flights && s.flights[a.d].msg == m
  }

  ghost predicate Allowed(g: Regime, c: Config, s: State, a: Action) {
    match g
    case Anything => true
    case Lossless(h) =>
      (match a
       case Reclaim(m, d) => h.overlap || !InFlight(s, m)
       case Release(d, f) => h.lostRelease || !f.NotApplied?
       case Crash(d) => h.crash || (d in s.flights && (!Owning(s.flights[d]) || s.flights[d].msg !in c.env))
       case _ => true)
    case Once(k) =>
      (match a
       case Claim(d, f) => k.claimError || f.Applied?
       case Expire(_) => k.expiry
       case Panic(d) => d in s.flights && (s.flights[d].msg !in c.env || s.flights[d].pc in k.panics)
       case _ => true)
    // the handler of m always errors; its deliveries do not overlap and its calls land
    case Failing(m) =>
      (match a
       case Reclaim(n, d) => n == m ==> !InFlight(s, m)
       case Return(d, succeeds) => Concerns(s, a, m) ==> !succeeds
       case Release(d, f) => Concerns(s, a, m) ==> f.Applied?
       case DeadLetter(d, f) => Concerns(s, a, m) ==> f.Applied?
       case Ack(d, f) => Concerns(s, a, m) ==> f.Applied?
       case Count(d, readable) => Concerns(s, a, m) ==> readable
       case Panic(d) => !Concerns(s, a, m)
       case Crash(d) => !Concerns(s, a, m)
       case _ => true)
  }

  ghost predicate Run(g: Regime, c: Config, s: State, acts: seq<Action>)
    decreases |acts|
  {
    acts == [] ||
    (Enabled(c, s, acts[0]) && Allowed(g, c, s, acts[0]) && Run(g, c, Apply(c, s, acts[0]), acts[1..]))
  }

  ghost function Exec(g: Regime, c: Config, s: State, acts: seq<Action>): State
    requires Run(g, c, s, acts)
    decreases |acts|
  {
    if acts == [] then s else Exec(g, c, Apply(c, s, acts[0]), acts[1..])
  }

  /** Running a then b is running the two in turn. */
  lemma {:induction false} RunAppend(g: Regime, c: Config, s: State, a: seq<Action>, b: seq<Action>)
    requires Run(g, c, s, a) && Run(g, c, Exec(g, c, s, a), b)
    ensures Run(g, c, s, a + b) && Exec(g, c, s, a + b) == Exec(g, c, Exec(g, c, s, a), b)
    decreases |a|
  {
    if a == [] {
      assert a + b == b;
    } else {
      assert (a + b)[0] == a[0] && (a + b)[1..] == a[1..] + b;
      RunAppend(g, c, Apply(c, s, a[0]), a[1..], b);
    }
  }

  /** Extends a run by one step. */
  lemma RunStep(g: Regime, c: Config, s: State, acts: seq<Action>, a: Action)
    requires Run(g, c, s, acts)
    requires Enabled(c, Exec(g, c, s, acts), a) && Allowed(g, c, Exec(g, c, s, acts), a)
    ensures Run(g, c, s, acts + [a]) && Exec(g, c, s, acts + [a]) == Apply(c, Exec(g, c, s, acts), a)
  {
    var s' := Exec(g, c, s, acts);
    assert [a][1..] == [] && Run(g, c, Apply(c, s', a), []);
    assert Run(g, c, s', [a]) && Exec(g, c, s', [a]) == Apply(c, s', a);
    RunAppend(g, c, s, acts, [a]);
  }

  // ---------------------------------------------------------------- no loss

  ghost predicate Accounted(s: State, m: MsgId) {
    m in s.pending || m in s.handled || m in s.dlq
  }

  ghost predicate Solo(s: State) {
    forall d, e :: d in s.flights && e in s.flights && s.flights[d].msg == s.flights[e].msg ==> d == e
  }

  /** A live claim belongs to a handled message or to a run that will release it. */
  ghost predicate ClaimsExplained(c: Config, s: State) {
    forall m :: m in c.env && c.env[m] in s.claims && m !in s.handled ==>
                  exists d :: d in s.flights && s.flights[d].msg == m && Owning(s.flights[d])
  }

  ghost predicate Justified(s: State, f: Flight) {
    match f.pc
    case Acking(DeadLettered) => f.msg in s.dlq
    case Acking(_) => f.msg in s.handled
    case _ => true
  }

  ghost predicate Known(s: State, f: Flight) {
    f.msg in s.delivered && Justified(s, f)
  }

  ghost predicate LosslessInv(c: Config, s: State) {
    && Solo(s)
    && (forall d :: d in s.flights ==> Known(s, s.flights[d]))
    && (forall m :: m in s.pending ==> m in s.delivered)
    && (forall m :: m in s.delivered ==> Accounted(s, m))
    && ClaimsExplained(c, s)
  }

  lemma SoloStep(c: Config, s: State, a: Action, d: RunId, e: RunId)
    requires Solo(s) && (forall d :: d in s.flights ==> Known(s, s.flights[d]))
    requires Enabled(c, s, a) && Allowed(Lossless(CALM), c, s, a)
    requires var s' := Apply(c, s, a); d in s'.flights && e in s'.flights && s'.flights[d].msg == s'.flights[e].msg
    ensures d == e
  {
  }

  lemma StillOwning(c: Config, s: State, a: Action, m: MsgId, d: RunId)
    requires ValidConfig(c) && Enabled(c, s, a) && Allowed(Lossless(CALM), c, s, a)
    requires d in s.flights && s.flights[d].msg == m && Owning(s.flights[d])
    requires m in c.env && c.env[m] in Apply(c, s, a).claims && m !in Apply(c, s, a).handled
    ensures var s' := Apply(c, s, a); d in s'.flights && s'.flights[d].msg == m && Owning(s'.flights[d])
  {
  }

  lemma ClaimsStep(c: Config, s: State, a: Action, m: MsgId)
    requires ValidConfig(c) && Solo(s) && ClaimsExplained(c, s)
    requires Enabled(c, s, a) && Allowed(Lossless(CALM), c, s, a)
    requires var s' := Apply(c, s, a); m in c.env && c.env[m] in s'.claims && m !in s'.handled
    ensures var s' := Apply(c, s, a);
            exists d :: d in s'.flights && s'.flights[d].msg == m && Owning(s'.flights[d])
  {
    var s' := Apply(c, s, a);
    if c.env[m] in s.claims {
      var d :| d in s.flights && s.flights[d].msg == m && Owning(s.flights[d]);
      StillOwning(c, s, a, m, d);
    } else {
      match a {
        case Claim(d, _) => assert d in s'.flights && s'.flights[d].msg == m && s'.flights[d].pc == Handling;
        case _ =>
      }
    }
  }

  /** A claim found taken is the claim of a handled message, so acknowledging loses nothing. */
  lemma TakenMeansHandled(c: Config, s: State, d: RunId)
    requires Solo(s) && ClaimsExplained(c, s)
    requires At(s, d, Claiming) && s.flights[d].msg in c.env && c.env[s.flights[d].msg] in s.claims
    ensures s.flights[d].msg in s.handled
  {
  }

  lemma KnownStep(c: Config, s: State, a: Action, d: RunId)
    requires c.useDLQ && Enabled(c, s, a)
    requires a.Reclaim? ==> a.m in s.delivered
    requires a.Claim? && c.env[s.flights[a.d].msg] in s.claims ==> s.flights[a.d].msg in s.handled
    requires d in s.flights ==> Known(s, s.flights[d])
    requires d in Apply(c, s, a).flights
    ensures Known(Apply(c, s, a), Apply(c, s, a).flights[d])
  {
  }

  lemma AccountedStep(c: Config, s: State, a: Action, m: MsgId)
    requires c.useDLQ && Enabled(c, s, a)
    requires a.Ack? ==> Known(s, s.flights[a.d])
    requires m in s.delivered ==> Accounted(s, m)
    requires m in Apply(c, s, a).delivered
    ensures Accounted(Apply(c, s, a), m)
  {
  }

  lemma LosslessStep(c: Config, s: State, a: Action)
    requires ValidConfig(c) && c.useDLQ && LosslessInv(c, s)
    requires Enabled(c, s, a) && Allowed(Lossless(CALM), c, s, a)
    ensures LosslessInv(c, Apply(c, s, a))
  {
    var s' := Apply(c, s, a);
    forall d, e | d in s'.flights && e in s'.flights && s'.flights[d].msg == s'.flights[e].msg ensures d == e {
      SoloStep(c, s, a, d, e);
    }
    forall d | d in s'.flights ensures Known(s', s'.flights[d]) {
      if a.Claim? && c.env[s.flights[a.d].msg] in s.claims { TakenMeansHandled(c, s, a.d); }
      KnownStep(c, s, a, d);
    }
    forall m | m in s'.delivered ensures Accounted(s', m) {
      AccountedStep(c, s, a, m);
    }
    forall m | m in c.env && c.env[m] in s'.claims && m !in s'.handled
      ensures exists d :: d in s'.flights && s'.flights[d].msg == m && Owning(s'.flights[d])
    {
      ClaimsStep(c, s, a, m);
    }
    assert forall m :: m in s'.pending ==> m in s'.delivered;
  }

  lemma {:induction false} LosslessRun(c: Config, s: State, acts: seq<Action>)
    requires ValidConfig(c) && c.useDLQ && LosslessInv(c, s)
    requires Run(Lossless(CALM), c, s, acts)
    ensures LosslessInv(c, Exec(Lossless(CALM), c, s, acts))
    decreases |acts|
  {
    if acts != [] {
      LosslessStep(c, s, acts[0]);
      LosslessRun(c, Apply(c, s, acts[0]), acts[1..]);
    }
  }

  /**
   No message is lost: whatever decode errors, handler errors, panics, expiries, unhandled
   deliveries and failed or half-failed SET NX, XADD and XACK calls occur, each delivered
   message is still pending, was handled, or is in the dead-letter stream.
   */
  lemma NoLoss(c: Config, acts: seq<Action>, m: MsgId)
    requires ValidConfig(c) && c.useDLQ
    requires Run(Lossless(CALM), c, INIT, acts)
    requires m in Exec(Lossless(CALM), c, INIT, acts).delivered
    ensures Accounted(Exec(Lossless(CALM), c, INIT, acts), m)
  {
    LosslessRun(c, INIT, acts);
  }

  // ---------------------------------------------------------------- at most one success

  ghost predicate SameOwner(c: Config, s: State, d: RunId, e: RunId)
    requires d in s.flights && e in s.flights
  {
    Owning(s.flights[d]) && Owning(s.flights[e])
    && s.flights[d].msg == s.flights[e].msg && s.flights[d].msg in c.env
    ==> d == e
  }

  /** An owner's message holds its claim and has not succeeded yet. */
  ghost predicate Guarded(c: Config, s: State, f: Flight) {
    && (f.pc == Handling ==> f.msg in c.env)
    && (Owning(f) && f.msg in c.env ==> c.env[f.msg] in s.claims && f.msg !in s.handled)
  }

  ghost predicate SucceededOnce(c: Config, s: State, m: MsgId) {
    && s.handled[m] <= 1
    && (m in s.handled ==> m in c.env && c.env[m] in s.claims)
  }

  ghost predicate OnceInv(c: Config, s: State) {
    && (forall d, e :: d in s.flights && e in s.flights ==> SameOwner(c, s, d, e))
    && (forall d :: d in s.flights ==> Guarded(c, s, s.flights[d]))
    && (forall m :: SucceededOnce(c, s, m))
  }

  lemma SameOwnerStep(c: Config, k: Doubts, s: State, a: Action, d: RunId, e: RunId)
    requires Enabled(c, s, a) && Allowed(Once(k), c, s, a) && Harmless(k)
    requires d in s.flights ==> Guarded(c, s, s.flights[d])
    requires e in s.flights ==> Guarded(c, s, s.flights[e])
    requires d in s.flights && e in s.flights ==> SameOwner(c, s, d, e)
    requires d in Apply(c, s, a).flights && e in Apply(c, s, a).flights
    ensures SameOwner(c, Apply(c, s, a), d, e)
  {
  }

  lemma GuardedStep(c: Config, k: Doubts, s: State, a: Action, d: RunId)
    requires ValidConfig(c) && Enabled(c, s, a) && Allowed(Once(k), c, s, a) && Harmless(k)
    requires d in s.flights ==> Guarded(c, s, s.flights[d])
    requires (a.Release? || a.Return?) && d in s.flights ==> SameOwner(c, s, a.d, d)
    requires a.Claim? ==> SucceededOnce(c, s, s.flights[a.d].msg)
    requires d in Apply(c, s, a).flights
    ensures Guarded(c, Apply(c, s, a), Apply(c, s, a).flights[d])
  {
  }

  lemma SucceededStep(c: Config, k: Doubts, s: State, a: Action, m: MsgId)
    requires ValidConfig(c) && Enabled(c, s, a) && Allowed(Once(k), c, s, a) && Harmless(k)
    requires SucceededOnce(c, s, m)
    requires a.Release? || a.Return? ==> Guarded(c, s, s.flights[a.d])
    ensures SucceededOnce(c, Apply(c, s, a), m)
  {
  }

  lemma OnceStep(c: Config, k: Doubts, s: State, a: Action)
    requires ValidConfig(c) && OnceInv(c, s)
    requires Enabled(c, s, a) && Allowed(Once(k), c, s, a) && Harmless(k)
    ensures OnceInv(c, Apply(c, s, a))
  {
    var s' := Apply(c, s, a);
    forall d, e | d in s'.flights && e in s'.flights ensures SameOwner(c, s', d, e) {
      SameOwnerStep(c, k, s, a, d, e);
    }
    forall d | d in s'.flights ensures Guarded(c, s', s'.flights[d]) {
      GuardedStep(c, k, s, a, d);
    }
    forall m ensures SucceededOnce(c, s', m) {
      SucceededStep(c, k, s, a, m);
    }
  }

  lemma {:induction false} OnceRun(c: Config, k: Doubts, s: State, acts: seq<Action>)
    requires ValidConfig(c) && Harmless(k) && OnceInv(c, s)
    requires Run(Once(k), c, s, acts)
    ensures OnceInv(c, Exec(Once(k), c, s, acts))
    decreases |acts|
  {
    if acts != [] {
      OnceStep(c, k, s, acts[0]);
      OnceRun(c, k, Apply(c, s, acts[0]), acts[1..]);
    }
  }

  /**
   However deliveries of a message overlap, crash, fail to release or panic while they own their
   claim, its handler returns success at most once, provided SET NX answers and claims do not expire.
   */
  lemma AtMostOnce(c: Config, k: Doubts, acts: seq<Action>, m: MsgId)
    requires ValidConfig(c) && Harmless(k)
    requires Run(Once(k), c, INIT, acts)
    ensures Exec(Once(k), c, INIT, acts).handled[m] <= 1
  {
    OnceRun(c, k, INIT, acts);
    assert SucceededOnce(c, Exec(Once(k), c, INIT, acts), m);
  }
}
