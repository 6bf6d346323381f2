/**
 The consumer's `handle` as the imperative code it is, against a mutable Redis. Its contract
 ties every call to the transition system of module Delivery: executing it is a run of one
 delivery, step by step, whatever the environment answers and wherever the code panics.
 */
module Consumer {
  import opened Delivery

  datatype Stray = Nowhere | At(pc: Pc)

  /** What the environment answers to the calls of one `handle`, and where the code panics, if anywhere:
      `At(Handling)` is a panic of the handler itself. */
  datatype Oracle = Oracle(
    claim: Fault, succeeds: bool, release: Fault, readable: bool, dlq: Fault, ack: Fault, stray: Stray)

  // ------------------------------------------------------------ what one delivery comes to

  /** The handler is called: the payload decodes and the claim is not known to be taken. */
  predicate Reached(c: Config, m: MsgId, o: Oracle, claims: set<string>) {
    m in c.env && !(o.claim.Applied? && c.env[m] in claims)
  }

  predicate Succeeded(c: Config, m: MsgId, o: Oracle, claims: set<string>) {
    Reached(c, m, o, claims) && o.succeeds
  }

  predicate Failed(c: Config, m: MsgId, o: Oracle, claims: set<string>) {
    Reached(c, m, o, claims) && !o.succeeds
  }

  /** This delivery was the last one allowed, as far as the counter could be read. */
  predicate Exhausted(c: Config, m: MsgId, o: Oracle, pending: map<MsgId, nat>) {
    (if o.readable && m in pending then pending[m] else 1) >= c.maxRetries
  }

  /** The message goes to the dead-letter stream: undecodable, or out of retries. */
  predicate Discards(c: Config, m: MsgId, o: Oracle, claims: set<string>, pending: map<MsgId, nat>) {
    m !in c.env || (Failed(c, m, o, claims) && Exhausted(c, m, o, pending))
  }

  /** The dead-letter write was acknowledged, or there is no dead-letter stream. */
  predicate Settled(c: Config, o: Oracle) {
    !c.useDLQ || o.dlq.Applied?
  }

  /** The consumer is done with the message and acknowledges it. */
  predicate Over(c: Config, m: MsgId, o: Oracle, claims: set<string>, pending: map<MsgId, nat>) {
    if m in c.env && !Reached(c, m, o, claims) then true
    else Succeeded(c, m, o, claims) || (Discards(c, m, o, claims, pending) && Settled(c, o))
  }

  function Left(m: MsgId, o: Oracle, over: bool, pending: map<MsgId, nat>): map<MsgId, nat> {
    if over && !o.ack.NotApplied? then pending - {m} else pending
  }

  function Buried(c: Config, m: MsgId, o: Oracle, discards: bool, dlq: multiset<MsgId>): multiset<MsgId> {
    if discards && c.useDLQ && !o.dlq.NotApplied? then dlq[m := dlq[m] + 1] else dlq
  }

  function Claimed(c: Config, m: MsgId, o: Oracle, claims: set<string>): set<string>
    requires m in c.env
  {
    if o.claim.NotApplied? then claims else claims + {c.env[m]}
  }

  function Freed(c: Config, m: MsgId, o: Oracle, claims: set<string>): set<string>
    requires HasId(c, m)
  {
    if o.release.NotApplied? then claims else claims - {IdOf(c, m)}
  }

  /** A success keeps its claim, a failure frees it, and a duplicate leaves the claims alone. */
  function ClaimsAfter(c: Config, m: MsgId, o: Oracle, claims: set<string>): set<string> {
    if !Reached(c, m, o, claims) then claims
    else if o.succeeds then Claimed(c, m, o, claims) else Freed(c, m, o, Claimed(c, m, o, claims))
  }

  // ------------------------------------------------------------ a panic on the way

  /** The code comes past the point at which it panics. */
  predicate Panics(c: Config, m: MsgId, o: Oracle, claims: set<string>, pending: map<MsgId, nat>) {
    o.stray.At? &&
    match o.stray.pc
    case Decoding => true
    case Claiming => m in c.env
    case Handling => Reached(c, m, o, claims)
    case Releasing | Counting => Failed(c, m, o, claims)
    case DeadLettering => Discards(c, m, o, claims, pending)
    case Acking(why) =>
      match why
      case Duplicate => m in c.env && !Reached(c, m, o, claims)
      case Handled => Succeeded(c, m, o, claims)
      case DeadLettered => Discards(c, m, o, claims, pending) && Settled(c, o)
  }

  /** The claims when the code reaches a point. */
  function ClaimsAt(c: Config, m: MsgId, o: Oracle, claims: set<string>, pc: Pc): set<string> {
    if !Reached(c, m, o, claims) || pc == Decoding || pc == Claiming then claims
    else if pc == Handling || pc == Releasing || pc == Acking(Handled) then Claimed(c, m, o, claims)
    else Freed(c, m, o, Claimed(c, m, o, claims))
  }

  predicate CalledBy(c: Config, m: MsgId, o: Oracle, claims: set<string>, pc: Pc) {
    Reached(c, m, o, claims) && pc != Decoding && pc != Claiming
  }

  /** What the claim step does to a run that has decoded its message. */
  lemma ClaimEffect(c: Config, s: State, m: MsgId, d: RunId, f: Fault)
    requires m in c.env && d in s.flights && s.flights[d] == Flight(m, Claiming, false)
    ensures Enabled(c, s, Claim(d, f))
    ensures var taken := f.Applied? && c.env[m] in s.claims;
            Apply(c, s, Claim(d, f)) ==
            s.(claims := if f.NotApplied? || taken then s.claims else s.claims + {c.env[m]},
               runs := if taken then s.runs else s.runs[m := s.runs[m] + 1],
               flights := s.flights[d := Flight(m, if taken then Acking(Duplicate) else Handling, false)])
  {
  }

  /** A delivery that ran to its end. */
  ghost predicate Done(c: Config, m: MsgId, o: Oracle, s: State, s': State) {
    && s'.runs == (if Reached(c, m, o, s.claims) then s.runs[m := s.runs[m] + 1] else s.runs)
    && s'.handled == (if Succeeded(c, m, o, s.claims) then s.handled[m := s.handled[m] + 1] else s.handled)
    && s'.claims == ClaimsAfter(c, m, o, s.claims)
    && s'.dlq == Buried(c, m, o, Discards(c, m, o, s.claims, s.pending), s.dlq)
    && s'.pending == Left(m, o, Over(c, m, o, s.claims, s.pending), s.pending)
  }

  /** Every outcome of a delivery that does not panic, case by case. */
  lemma DoneMeans(c: Config, m: MsgId, o: Oracle, s: State, s': State)
    requires Done(c, m, o, s, s')
    // undecodable: to the dead-letter stream, and acknowledged once it is there
    ensures m !in c.env ==>
              && s'.runs == s.runs && s'.handled == s.handled && s'.claims == s.claims
              && s'.dlq[m] == s.dlq[m] + (if c.useDLQ && !o.dlq.NotApplied? then 1 else 0)
              && (m in s'.pending <==> m in s.pending && ((c.useDLQ && !o.dlq.Applied?) || o.ack.NotApplied?))
    // already claimed: acknowledged, and nothing else
    ensures m in c.env && o.claim.Applied? && c.env[m] in s.claims ==>
              && s'.runs == s.runs && s'.handled == s.handled && s'.claims == s.claims && s'.dlq == s.dlq
              && (m in s'.pending <==> m in s.pending && o.ack.NotApplied?)
    // handled: the claim stays, and the message is acknowledged
    ensures m in c.env && !(o.claim.Applied? && c.env[m] in s.claims) && o.succeeds ==>
              && s'.runs[m] == s.runs[m] + 1 && s'.handled[m] == s.handled[m] + 1 && s'.dlq == s.dlq
              && (c.env[m] in s'.claims <==> c.env[m] in s.claims || !o.claim.NotApplied?)
              && (m in s'.pending <==> m in s.pending && o.ack.NotApplied?)
    // failed: the claim is released, and the message stays until its last attempt sends it to the dead letters
    ensures m in c.env && !(o.claim.Applied? && c.env[m] in s.claims) && !o.succeeds ==>
              var last := (if o.readable && m in s.pending then s.pending[m] else 1) >= c.maxRetries;
              && s'.runs[m] == s.runs[m] + 1 && s'.handled == s.handled
              && (!o.release.NotApplied? ==> c.env[m] !in s'.claims)
              && s'.dlq[m] == s.dlq[m] + (if last && c.useDLQ && !o.dlq.NotApplied? then 1 else 0)
              && (m in s'.pending <==>
                    m in s.pending && (!last || (c.useDLQ && !o.dlq.Applied?) || o.ack.NotApplied?))
    ensures forall n :: n != m && n in s.pending ==> n in s'.pending && s'.pending[n] == s.pending[n]
  {
  }

  /** A delivery that panicked where `o` says: what had happened until then. */
  ghost predicate Stopped(c: Config, m: MsgId, o: Oracle, s: State, s': State) {
    && o.stray.At?
    && s'.runs == (if CalledBy(c, m, o, s.claims, o.stray.pc) then s.runs[m := s.runs[m] + 1] else s.runs)
    && s'.handled == (if o.stray.pc == Acking(Handled) then s.handled[m := s.handled[m] + 1] else s.handled)
    && s'.claims == ClaimsAt(c, m, o, s.claims, o.stray.pc)
    && s'.dlq == Buried(c, m, o, o.stray.pc == Acking(DeadLettered), s.dlq)
    && s'.pending == s.pending
  }

  /** Where the deferred handler of a delivery that panicked starts. */
  function RecoverAt(c: Config, m: MsgId, o: Oracle): Pc
    requires o.stray.At?
  {
    if Releasable(c, m) && o.stray.pc != Decoding then Releasing else DeadLettering
  }

  /** A delivery that panicked and was recovered. */
  ghost predicate Rescued(c: Config, m: MsgId, o: Oracle, rescue: Oracle, s: State, s': State) {
    && o.stray.At?
    && s'.runs == (if CalledBy(c, m, o, s.claims, o.stray.pc) then s.runs[m := s.runs[m] + 1] else s.runs)
    && s'.handled == (if o.stray.pc == Acking(Handled) then s.handled[m := s.handled[m] + 1] else s.handled)
    && s'.claims == (if RecoverAt(c, m, o).Releasing?
                     then Freed(c, m, rescue, ClaimsAt(c, m, o, s.claims, o.stray.pc))
                     else ClaimsAt(c, m, o, s.claims, o.stray.pc))
    && s'.dlq == Buried(c, m, rescue, true, Buried(c, m, o, o.stray.pc == Acking(DeadLettered), s.dlq))
    && s'.pending == Left(m, rescue, Settled(c, rescue), s.pending)
  }

  /** What the body of `handle` leaves, from state s0 in which run d has just started. */
  ghost predicate Ended(c: Config, m: MsgId, d: RunId, o: Oracle, s0: State, s: State, panicked: bool) {
    && panicked == Panics(c, m, o, s0.claims, s0.pending)
    && (!panicked ==> Done(c, m, o, s0, s) && s.flights == s0.flights - {d})
    && (panicked ==> Stopped(c, m, o, s0, s) && s.flights == s0.flights[d := Flight(m, o.stray.pc, false)])
  }

  /** Stated as an equation, so that the verifier does not expand the condition at every use. */
  ghost predicate Result(c: Config, m: MsgId, d: RunId, o: Oracle, s0: State, s: State, panicked: bool) {
    Ended(c, m, d, o, s0, s, panicked) == true
  }

  ghost function Called(c: Config, m: MsgId, d: RunId, o: Oracle, s0: State, pc: Pc): State
    requires m in c.env
  {
    s0.(claims := Claimed(c, m, o, s0.claims), runs := s0.runs[m := s0.runs[m] + 1],
        flights := s0.flights[d := Flight(m, pc, false)])
  }

  /** What the failure path does from state s, in which the run is about to release its claim. */
  ghost predicate Retried(c: Config, m: MsgId, d: RunId, o: Oracle, s: State, s': State, panicked: bool)
    requires m in c.env
  {
    FailurePath(c, m, d, o, s, s', panicked) == true
  }

  ghost predicate FailurePath(c: Config, m: MsgId, d: RunId, o: Oracle, s: State, s': State, panicked: bool)
    requires m in c.env
  {
    var spent := Exhausted(c, m, o, s.pending);
    && s'.handled == s.handled && s'.runs == s.runs
    && panicked == (o.stray == Stray.At(Releasing) || o.stray == Stray.At(Counting)
                    || (o.stray == Stray.At(DeadLettering) && spent)
                    || (o.stray == Stray.At(Acking(DeadLettered)) && spent && Settled(c, o)))
    && s'.claims == (if o.stray == Stray.At(Releasing) then s.claims else Freed(c, m, o, s.claims))
    && (panicked ==> s'.flights == s.flights[d := Flight(m, o.stray.pc, false)] && s'.pending == s.pending
                     && s'.dlq == Buried(c, m, o, o.stray.pc == Acking(DeadLettered), s.dlq))
    && (!panicked ==> s'.flights == s.flights - {d} && s'.dlq == Buried(c, m, o, spent, s.dlq)
                      && s'.pending == Left(m, o, spent && Settled(c, o), s.pending))
  }

  lemma StrayStart(c: Config, m: MsgId, d: RunId, o: Oracle, s0: State)
    requires o.stray == Stray.At(Decoding) || (m in c.env && o.stray == Stray.At(Claiming))
    ensures Result(c, m, d, o, s0, s0.(flights := s0.flights[d := Flight(m, o.stray.pc, false)]), true)
    ensures d in s0.flights && s0.flights[d] == Flight(m, o.stray.pc, false) ==> Result(c, m, d, o, s0, s0, true)
  {
    if d in s0.flights && s0.flights[d] == Flight(m, o.stray.pc, false) {
      assert s0.flights[d := Flight(m, o.stray.pc, false)] == s0.flights;
    }
  }

  lemma FromDiscard(c: Config, m: MsgId, d: RunId, o: Oracle, s0: State, s: State, panicked: bool)
    requires m !in c.env && o.stray != Stray.At(Decoding) && d in s0.flights
    requires s.handled == s0.handled && s.runs == s0.runs && s.claims == s0.claims
    requires panicked == (o.stray == Stray.At(DeadLettering) ||
                          (o.stray == Stray.At(Acking(DeadLettered)) && Settled(c, o)))
    requires panicked ==> s.flights == s0.flights[d := Flight(m, o.stray.pc, false)] && s.pending == s0.pending
                          && s.dlq == Buried(c, m, o, o.stray.pc != DeadLettering, s0.dlq)
    requires !panicked ==> s.flights == s0.flights - {d} && s.dlq == Buried(c, m, o, true, s0.dlq)
                           && s.pending == Left(m, o, Settled(c, o), s0.pending)
    ensures Result(c, m, d, o, s0, s, panicked)
  {
  }

  lemma FromDuplicate(c: Config, m: MsgId, d: RunId, o: Oracle, s0: State, s: State, panicked: bool)
    requires m in c.env && !Reached(c, m, o, s0.claims) && o.stray != Stray.At(Decoding) &&
             o.stray != Stray.At(Claiming)
    requires s.handled == s0.handled && s.runs == s0.runs && s.claims == s0.claims && s.dlq == s0.dlq
    requires panicked == (o.stray == Stray.At(Acking(Duplicate)))
    requires panicked ==> s.flights == s0.flights[d := Flight(m, o.stray.pc, false)] && s.pending == s0.pending
    requires !panicked ==> s.flights == s0.flights - {d} && s.pending == Left(m, o, true, s0.pending)
    ensures Result(c, m, d, o, s0, s, panicked)
  {
  }

  lemma StrayHandler(c: Config, m: MsgId, d: RunId, o: Oracle, s0: State)
    requires Reached(c, m, o, s0.claims) && o.stray == Stray.At(Handling)
    ensures Result(c, m, d, o, s0, Called(c, m, d, o, s0, Handling), true)
  {
  }

  lemma FromSuccess(c: Config, m: MsgId, d: RunId, o: Oracle, s0: State, s: State, panicked: bool)
    requires Reached(c, m, o, s0.claims) && o.succeeds &&
             (o.stray.At? ==> o.stray.pc !in {Decoding, Claiming, Handling})
    requires s.handled == s0.handled[m := s0.handled[m] + 1] && s.runs == s0.runs[m := s0.runs[m] + 1]
    requires s.claims == Claimed(c, m, o, s0.claims) && s.dlq == s0.dlq
    requires panicked == (o.stray == Stray.At(Acking(Handled)))
    requires panicked ==> s.flights == s0.flights[d := Flight(m, o.stray.pc, false)] && s.pending == s0.pending
    requires !panicked ==> s.flights == s0.flights - {d} && s.pending == Left(m, o, true, s0.pending)
    ensures Result(c, m, d, o, s0, s, panicked)
  {
  }

  lemma FromRetry(c: Config, m: MsgId, d: RunId, o: Oracle, s0: State, s: State, panicked: bool)
    requires Reached(c, m, o, s0.claims) && !o.succeeds &&
             (o.stray.At? ==> o.stray.pc !in {Decoding, Claiming, Handling})
    requires Retried(c, m, d, o, Called(c, m, d, o, s0, Releasing), s, panicked)
    ensures Result(c, m, d, o, s0, s, panicked)
  {
    var r := Called(c, m, d, o, s0, Releasing);
    assert r.flights - {d} == s0.flights - {d};
    if o.stray.At? {
      assert r.flights[d := Flight(m, o.stray.pc, false)] == s0.flights[d := Flight(m, o.stray.pc, false)];
    }
  }

  /** The environment of one delivery keeps to the regime. */
  ghost predicate Keeps(g: Regime, c: Config, m: MsgId, o: Oracle) {
    match g
    case Anything => true
    case Lossless(h) => h.lostRelease || !o.release.NotApplied?
    case Once(k) =>
      (k.claimError || o.claim.Applied?) && (o.stray.Nowhere? || m !in c.env || o.stray.pc in k.panics)
    case Failing(_) => false
  }

  class StreamConsumer {
    const c: Config
    ghost const g: Regime

    // shared Redis state
    var pending: map<MsgId, nat>
    var claims: set<string>
    var dlq: multiset<MsgId>

    // what has happened, for the specification
    ghost const delivered: set<MsgId>
    ghost var handled: multiset<MsgId>
    ghost var runs: multiset<MsgId>
    ghost var flights: map<RunId, Flight>
    ghost const origin: State
    ghost var trace: seq<Action>

    ghost function View(): State
      reads this
    {
      State(delivered, pending, claims, dlq, handled, runs, flights)
    }

    /** The present state was reached from `origin` by a run of the protocol under the regime. */
    ghost predicate Valid()
      reads this
    {
      Run(g, c, origin, trace) && Exec(g, c, origin, trace) == View()
    }

    /** Wraps a Redis that a run under the regime has left in state s. */
    constructor (c: Config, ghost g: Regime, ghost origin: State, ghost trace: seq<Action>, s: State)
      requires Run(g, c, origin, trace) && Exec(g, c, origin, trace) == s
      ensures Valid() && this.c == c && this.g == g && this.origin == origin && this.trace == trace && View() == s
    {
      this.c, this.g := c, g;
      pending, claims := s.pending, s.claims;
      dlq := s.dlq;
      delivered, handled, runs, flights := s.delivered, s.handled, s.runs, s.flights;
      this.origin, this.trace := origin, trace;
    }

    ghost method Took(a: Action, s: State)
      requires Run(g, c, origin, trace) && Exec(g, c, origin, trace) == s
      requires Enabled(c, s, a) && Allowed(g, c, s, a) && View() == Apply(c, s, a)
      modifies this`trace
      ensures Valid() && trace == old(trace) + [a]
    {
      RunStep(g, c, origin, trace, a);
      trace := trace + [a];
    }

    /** XACK with a context that survives cancellation; the error is only logged. */
    method Ack(m: MsgId, ghost d: RunId, why: Why, o: Oracle) returns (panicked: bool)
      requires Valid() && Keeps(g, c, m, o) && d in flights && flights[d].msg == m && flights[d].pc == Acking(why)
      modifies this`pending, this`flights, this`trace
      ensures Valid() && panicked == (o.stray == Stray.At(Acking(why)))
      ensures panicked ==> flights == old(flights) && pending == old(pending)
      ensures !panicked ==> flights == old(flights) - {d} && pending == Left(m, o, true, old(pending))
    {
      if o.stray == Stray.At(Acking(why)) {
        return true;
      }
      ghost var s := View();
      if !o.ack.NotApplied? {
        pending := pending - {m};
      }
      flights := flights - {d};
      Took(Delivery.Ack(d, o.ack), s);
      return false;
    }

    /** Writes to the dead-letter stream; only a nil error lets the caller acknowledge. */
    method ToDLQ(m: MsgId, ghost d: RunId, f: Fault) returns (failed: bool)
      requires Valid() && !g.Failing? && Delivery.At(View(), d, DeadLettering) && flights[d].msg == m
      modifies this`dlq, this`flights, this`trace
      ensures Valid() && trace == old(trace) + [DeadLetter(d, f)]
      ensures failed == (c.useDLQ && !f.Applied?)
      ensures dlq == if c.useDLQ && !f.NotApplied? then old(dlq)[m := old(dlq)[m] + 1] else old(dlq)
      ensures flights == if failed then old(flights) - {d}
                         else old(flights)[d := old(flights)[d].(pc := Acking(DeadLettered))]
    {
      ghost var s := View();
      if !c.useDLQ {
        failed := false;
      } else {
        if !f.NotApplied? {
          dlq := dlq[m := dlq[m] + 1];
        }
        failed := !f.Applied?;
      }
      flights := if failed then flights - {d} else flights[d := flights[d].(pc := Acking(DeadLettered))];
      Took(DeadLetter(d, f), s);
    }

    /** XPENDING for one entry; an error or a missing entry reads as a first delivery. */
    method DeliveryCount(m: MsgId, readable: bool) returns (n: nat)
      ensures n == if readable && m in pending then pending[m] else 1
    {
      if !readable || m !in pending {
        return 1;
      }
      n := pending[m];
    }

    /** Dead-letters and, when that succeeded, acknowledges. */
    method Discard(m: MsgId, ghost d: RunId, o: Oracle) returns (panicked: bool)
      requires Valid() && Keeps(g, c, m, o) && Delivery.At(View(), d, DeadLettering) && flights[d].msg == m
      modifies this
      ensures Valid() && handled == old(handled) && runs == old(runs) && claims == old(claims)
      ensures panicked == (o.stray == Stray.At(DeadLettering) ||
                           (o.stray == Stray.At(Acking(DeadLettered)) && Settled(c, o)))
      ensures panicked ==> flights == old(flights)[d := old(flights)[d].(pc := o.stray.pc)] && pending == old(pending)
      ensures panicked ==> dlq == Buried(c, m, o, o.stray.pc != DeadLettering, old(dlq))
      ensures !panicked ==> flights == old(flights) - {d}
      ensures !panicked ==> dlq == Buried(c, m, o, true, old(dlq)) && pending == Left(m, o, Settled(c, o), old(pending))
    {
      if o.stray == Stray.At(DeadLettering) {
        return true;
      }
      var failed := ToDLQ(m, d, o.dlq);
      if failed {
        return false;
      }
      panicked := Ack(m, d, DeadLettered, o);
    }

    /** SET NX on the envelope id; reports whether the claim was already taken. */
    method SetNX(m: MsgId, ghost d: RunId, o: Oracle) returns (taken: bool)
      requires Valid() && Keeps(g, c, m, o) && m in c.env && d in flights && flights[d] == Flight(m, Claiming, false)
      modifies this`claims, this`runs, this`flights, this`trace
      ensures Valid()
      ensures taken == !Reached(c, m, o, old(claims))
      ensures claims == if taken then old(claims) else Claimed(c, m, o, old(claims))
      ensures runs == if taken then old(runs) else old(runs)[m := old(runs)[m] + 1]
      ensures flights == old(flights)[d := Flight(m, if taken then Acking(Duplicate) else Handling, false)]
    {
      ghost var s := View();
      taken := o.claim.Applied? && c.env[m] in claims;
      if !o.claim.NotApplied? && !taken {
        claims := claims + {c.env[m]};
      }
      if !taken {
        runs := runs[m := runs[m] + 1];
      }
      flights := flights[d := Flight(m, if taken then Acking(Duplicate) else Handling, false)];
      ClaimEffect(c, s, m, d, o.claim);
      Took(Claim(d, o.claim), s);
    }

    /** DEL of the claim, on the failure path and in the deferred recover. */
    method Del(m: MsgId, ghost d: RunId, o: Oracle)
      requires Valid() && Keeps(g, c, m, o) && HasId(c, m)
      requires d in flights && flights[d].msg == m && flights[d].pc == Releasing
      modifies this`claims, this`flights, this`trace
      ensures Valid() && claims == Freed(c, m, o, old(claims))
      ensures var r := old(flights)[d].recovering;
              flights == old(flights)[d := Flight(m, if r then DeadLettering else Counting, r)]
    {
      ghost var s := View();
      if !o.release.NotApplied? {
        claims := claims - {IdOf(c, m)};
      }
      flights := flights[d := flights[d].(pc := if flights[d].recovering then DeadLettering else Counting)];
      Took(Release(d, o.release), s);
    }

    ghost method Decoded(m: MsgId, d: RunId)
      requires Valid() && !g.Failing? && d in flights && flights[d] == Flight(m, Decoding, false)
      modifies this`flights, this`trace
      ensures Valid() && flights == old(flights)[d := Flight(m, if m in c.env then Claiming else DeadLettering, false)]
    {
      var s := View();
      flights := flights[d := Flight(m, if m in c.env then Claiming else DeadLettering, false)];
      Took(Decode(d), s);
    }

    ghost method Returned(m: MsgId, d: RunId, succeeds: bool)
      requires Valid() && !g.Failing? && d in flights && flights[d] == Flight(m, Handling, false)
      modifies this`handled, this`flights, this`trace
      ensures Valid() && handled == if succeeds then old(handled)[m := old(handled)[m] + 1] else old(handled)
      ensures flights == old(flights)[d := Flight(m, if succeeds then Acking(Handled) else Releasing, false)]
    {
      var s := View();
      handled := if succeeds then handled[m := handled[m] + 1] else handled;
      flights := flights[d := Flight(m, if succeeds then Acking(Handled) else Releasing, false)];
      Took(Return(d, succeeds), s);
    }

    ghost method Counted(m: MsgId, d: RunId, readable: bool, n: nat)
      requires Valid() && !g.Failing? && d in flights && flights[d] == Flight(m, Counting, false)
      requires n == if readable && m in pending then pending[m] else 1
      modifies this`flights, this`trace
      ensures Valid()
      ensures flights == if n >= c.maxRetries then old(flights)[d := Flight(m, DeadLettering, false)]
                         else old(flights) - {d}
    {
      var s := View();
      flights := if n >= c.maxRetries then flights[d := Flight(m, DeadLettering, false)] else flights - {d};
      Took(Count(d, readable), s);
    }

    ghost method Panicked(m: MsgId, d: RunId, o: Oracle)
      requires Valid() && Keeps(g, c, m, o) && o.stray.At? && d in flights && flights[d] == Flight(m, o.stray.pc, false)
      modifies this`flights, this`trace
      ensures Valid()
      ensures flights == old(flights)[d := Flight(m, RecoverAt(c, m, o), true)]
    {
      var s := View();
      flights := flights[d := Flight(m, RecoverAt(c, m, o), true)];
      Took(Panic(d), s);
    }

    /** The part of `handle` below the deferred recover; reports whether it panicked. */
    method Process(m: MsgId, ghost d: RunId, o: Oracle) returns (panicked: bool)
      requires Valid() && Keeps(g, c, m, o) && d in flights && flights[d] == Flight(m, Decoding, false)
      modifies this
      ensures Valid() && Result(c, m, d, o, old(View()), View(), panicked)
    {
      ghost var s0 := View();
      if o.stray == Stray.At(Decoding) {
        StrayStart(c, m, d, o, s0);
        return true;
      }
      Decoded(m, d);
      if m !in c.env {
        panicked := Discard(m, d, o);
        FromDiscard(c, m, d, o, s0, View(), panicked);
      } else {
        panicked := Deduplicate(m, d, o, s0);
      }
    }

    /** Claims the envelope id, and acknowledges a duplicate or calls the handler. */
    method Deduplicate(m: MsgId, ghost d: RunId, o: Oracle, ghost s0: State) returns (panicked: bool)
      requires Valid() && Keeps(g, c, m, o) && m in c.env && d in s0.flights && o.stray != Stray.At(Decoding)
      requires View() == s0.(flights := s0.flights[d := Flight(m, Claiming, false)])
      modifies this
      ensures Valid() && Result(c, m, d, o, s0, View(), panicked)
    {
      if o.stray == Stray.At(Claiming) {
        StrayStart(c, m, d, o, s0);
        return true;
      }
      var taken := SetNX(m, d, o);
      assert flights == s0.flights[d := Flight(m, if taken then Acking(Duplicate) else Handling, false)];
      if taken {
        panicked := Ack(m, d, Duplicate, o);
        FromDuplicate(c, m, d, o, s0, View(), panicked);
      } else {
        panicked := Invoke(m, d, o, s0);
      }
    }

    /** Calls the handler, of a run that has claimed its message in state s0, and acknowledges or
        retries by its result. */
    method Invoke(m: MsgId, ghost d: RunId, o: Oracle, ghost s0: State) returns (panicked: bool)
      requires Valid() && Keeps(g, c, m, o) && d in s0.flights && Reached(c, m, o, s0.claims)
      requires o.stray != Stray.At(Decoding) && o.stray != Stray.At(Claiming)
      requires View() == Called(c, m, d, o, s0, Handling)
      modifies this
      ensures Valid() && Result(c, m, d, o, s0, View(), panicked)
    {
      if o.stray == Stray.At(Handling) {
        StrayHandler(c, m, d, o, s0);
        return true;
      }
      Returned(m, d, o.succeeds);
      assert flights == s0.flights[d := Flight(m, if o.succeeds then Acking(Handled) else Releasing, false)];
      if o.succeeds {
        panicked := Ack(m, d, Handled, o);
        FromSuccess(c, m, d, o, s0, View(), panicked);
      } else {
        panicked := Retry(m, d, o);
        FromRetry(c, m, d, o, s0, View(), panicked);
      }
    }

    /** The handler failed: release the claim, then dead-letter or leave the message pending. */
    method Retry(m: MsgId, ghost d: RunId, o: Oracle) returns (panicked: bool)
      requires Valid() && Keeps(g, c, m, o) && m in c.env && d in flights && flights[d] == Flight(m, Releasing, false)
      modifies this
      ensures Valid() && Retried(c, m, d, o, old(View()), View(), panicked)
    {
      if o.stray == Stray.At(Releasing) {
        return true;
      }
      Del(m, d, o);
      panicked := Spend(m, d, o);
    }

    /** Reads the delivery counter, and dead-letters the message once it is spent. */
    method Spend(m: MsgId, ghost d: RunId, o: Oracle) returns (panicked: bool)
      requires Valid() && Keeps(g, c, m, o) && d in flights && flights[d] == Flight(m, Counting, false)
      modifies this
      ensures Valid() && handled == old(handled) && runs == old(runs) && claims == old(claims)
      ensures panicked == (o.stray == Stray.At(Counting)
                           || (o.stray == Stray.At(DeadLettering) && Exhausted(c, m, o, old(pending)))
                           || (o.stray == Stray.At(Acking(DeadLettered)) && Exhausted(c, m, o, old(pending)) &&
                               Settled(c, o)))
      ensures panicked ==> flights == old(flights)[d := Flight(m, o.stray.pc, false)] && pending == old(pending)
      ensures panicked ==> dlq == Buried(c, m, o, o.stray.pc == Acking(DeadLettered), old(dlq))
      ensures !panicked ==> flights == old(flights) - {d} &&
                            dlq == Buried(c, m, o, Exhausted(c, m, o, old(pending)), old(dlq))
      ensures !panicked ==> pending == Left(m, o, Exhausted(c, m, o, old(pending)) && Settled(c, o), old(pending))
    {
      if o.stray == Stray.At(Counting) {
        return true;
      }
      var deliveries := DeliveryCount(m, o.readable);
      Counted(m, d, o.readable, deliveries);
      if deliveries >= c.maxRetries {
        panicked := Discard(m, d, o);
        return;
      }
      return false;
    }

    /** The deferred recover after a panic wherever `o` puts it; `rescue` answers its own calls. */
    method Recover(m: MsgId, ghost d: RunId, o: Oracle, rescue: Oracle)
      requires Valid() && Keeps(g, c, m, o) && Keeps(g, c, m, rescue) && rescue.stray.Nowhere? && o.stray.At?
      requires d in flights && flights[d] == Flight(m, o.stray.pc, false)
      modifies this
      ensures Valid() && flights == old(flights) - {d} && handled == old(handled) && runs == old(runs)
      ensures claims == if RecoverAt(c, m, o).Releasing? then Freed(c, m, rescue, old(claims)) else old(claims)
      ensures dlq == Buried(c, m, rescue, true, old(dlq)) &&
              pending == Left(m, rescue, Settled(c, rescue), old(pending))
    {
      Panicked(m, d, o);
      if RecoverAt(c, m, o).Releasing? {
        Del(m, d, rescue);
      }
      var panicked := Discard(m, d, rescue);
    }

    /**
     One delivery. The state it leaves is reached by a run of the protocol and its own run is over.
     Without a panic, the handler runs unless the payload does not decode or the claim is known to be
     taken, a failed run frees its claim, and the message leaves the pending list exactly when it
     was handled, dropped as a duplicate, or dead-lettered, and the acknowledgement was applied.
     After a panic, wherever it strikes, the claim of the id read so far is freed and the message
     dead-lettered.
     */
    method Handle(m: MsgId, ghost d: RunId, o: Oracle, rescue: Oracle)
      requires Valid() && Keeps(g, c, m, o) && Keeps(g, c, m, rescue) && rescue.stray.Nowhere?
      requires d in flights && flights[d] == Flight(m, Decoding, false)
      modifies this
      ensures Valid() && flights == old(flights) - {d}
      ensures if Panics(c, m, o, old(claims), old(pending)) then Rescued(c, m, o, rescue, old(View()), View())
              else Done(c, m, o, old(View()), View())
    {
      var panicked := Process(m, d, o);
      assert Ended(c, m, d, o, old(View()), View(), panicked);
      if panicked {
        Recover(m, d, o, rescue);
      }
    }
  }

  /** What is proved of every run holds of the code: however many deliveries it has handled, a consumer
      whose releases take effect has lost no message. */
  lemma HandlesWithoutLoss(k: StreamConsumer, m: MsgId)
    requires k.Valid() && k.g == Lossless(CALM) && k.origin == INIT && ValidConfig(k.c) && k.c.useDLQ
    requires m in k.delivered
    ensures Accounted(k.View(), m)
  {
    NoLoss(k.c, k.trace, m);
  }

  /** ... and one whose claims answer and do not expire, and whose code panics only before it has an id
      or while it owns its claim, has handled no message twice. */
  lemma HandlesAtMostOnce(k: StreamConsumer, m: MsgId)
    requires k.Valid() && k.g.Once? && Harmless(k.g.k) && k.origin == INIT && ValidConfig(k.c)
    ensures k.handled[m] <= 1
  {
    AtMostOnce(k.c, k.g.k, k.trace, m);
  }
}
