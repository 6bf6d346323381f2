/**
 Bounded retries: a message whose handler always fails is tried at most `maxRetries`
 times and then leaves the pending list with exactly one dead-letter entry.
 */
module Retries {
  import opened Delivery

  /** Where message m stands: how often it was tried and whether it is still pending. */
  ghost predicate Unread(s: State, m: MsgId) {
    m !in s.delivered && m !in s.pending && s.dlq[m] == 0 && s.runs[m] == 0
  }

  /** Still pending, never dead-lettered, with the runs bounded by the delivery counter. */
  ghost predicate Waiting(c: Config, s: State, m: MsgId) {
    m in s.delivered && m in s.pending && s.dlq[m] == 0 && s.runs[m] <= s.pending[m] && s.runs[m] < c.maxRetries
  }

  ghost predicate Gone(c: Config, s: State, m: MsgId) {
    m in s.delivered && m !in s.pending && s.dlq[m] == 1 && s.runs[m] <= c.maxRetries
  }

  ghost predicate FlightOk(c: Config, s: State, m: MsgId, f: Flight) {
    && !f.recovering && m in s.delivered && m in s.pending
    && match f.pc
       case Decoding | Claiming => s.dlq[m] == 0 && s.runs[m] < s.pending[m] && s.runs[m] < c.maxRetries
       case Handling | Releasing | Counting =>
         s.dlq[m] == 0 && s.runs[m] <= s.pending[m] && s.runs[m] <= c.maxRetries
       case DeadLettering => s.dlq[m] == 0 && s.runs[m] <= c.maxRetries
       case Acking(why) => why == DeadLettered && s.dlq[m] == 1 && s.runs[m] <= c.maxRetries
  }

  ghost predicate ClaimFree(c: Config, s: State, m: MsgId)
    requires m in c.env
  {
    c.env[m] in s.claims ==> exists d :: d in s.flights && s.flights[d].msg == m && Owning(s.flights[d])
  }

  ghost predicate SoloFor(s: State, m: MsgId) {
    forall d, e :: d in s.flights && e in s.flights && s.flights[d].msg == m && s.flights[e].msg == m ==> d == e
  }

  ghost predicate RetryInv(c: Config, s: State, m: MsgId)
    requires m in c.env
  {
    && SoloFor(s, m)
    && ClaimFree(c, s, m)
    && (forall d :: d in s.flights && s.flights[d].msg == m ==> FlightOk(c, s, m, s.flights[d]))
    && (InFlight(s, m) || Unread(s, m) || Waiting(c, s, m) || Gone(c, s, m))
  }

  lemma SoloForStep(c: Config, s: State, a: Action, m: MsgId, d: RunId, e: RunId)
    requires SoloFor(s, m) && (m !in s.delivered ==> !InFlight(s, m))
    requires Enabled(c, s, a) && Allowed(Failing(m), c, s, a)
    requires var s' := Apply(c, s, a);
             d in s'.flights && e in s'.flights && s'.flights[d].msg == m && s'.flights[e].msg == m
    ensures d == e
  {
  }

  /** With the claim free and the run alone, a delivery of m never takes the duplicate branch. */
  lemma FlightOkStep(c: Config, s: State, a: Action, m: MsgId, d: RunId)
    requires ValidConfig(c) && c.useDLQ && c.maxRetries >= 1 && m in c.env
    requires Enabled(c, s, a) && Allowed(Failing(m), c, s, a)
    requires d in s.flights && s.flights[d].msg == m && FlightOk(c, s, m, s.flights[d])
    requires a.Claim? && a.d == d ==> c.env[m] !in s.claims
    requires Concerns(s, a, m) ==> a.d == d
    requires d in Apply(c, s, a).flights
    ensures Apply(c, s, a).flights[d].msg == m && FlightOk(c, Apply(c, s, a), m, Apply(c, s, a).flights[d])
  {
  }

  lemma NewFlightOk(c: Config, s: State, a: Action, m: MsgId)
    requires c.maxRetries >= 1 && Enabled(c, s, a)
    requires a.Read? || a.Reclaim?
    requires a.m == m && (Unread(s, m) || Waiting(c, s, m))
    ensures FlightOk(c, Apply(c, s, a), m, Apply(c, s, a).flights[a.d])
  {
  }

  lemma Absent(s: State, m: MsgId, d: RunId)
    requires !InFlight(s, m)
    ensures d in s.flights ==> s.flights[d].msg != m
  {
  }

  /** Ending a run leaves the message waiting for a retry, or gone with one dead-letter entry. */
  lemma IdleStep(c: Config, s: State, a: Action, m: MsgId)
    requires c.useDLQ && c.maxRetries >= 1 && Enabled(c, s, a) && Allowed(Failing(m), c, s, a)
    requires Concerns(s, a, m) ==> FlightOk(c, s, m, s.flights[a.d])
    requires Concerns(s, a, m) || Unread(s, m) || Waiting(c, s, m) || Gone(c, s, m)
    requires !InFlight(Apply(c, s, a), m)
    ensures var s' := Apply(c, s, a); Unread(s', m) || Waiting(c, s', m) || Gone(c, s', m)
  {
    if Concerns(s, a, m) { Absent(Apply(c, s, a), m, a.d); }
  }

  lemma ClaimFreeStep(c: Config, s: State, a: Action, m: MsgId)
    requires ValidConfig(c) && m in c.env && ClaimFree(c, s, m)
    requires Enabled(c, s, a) && Allowed(Failing(m), c, s, a)
    ensures ClaimFree(c, Apply(c, s, a), m)
  {
    var s' := Apply(c, s, a);
    if c.env[m] in s'.claims {
      if c.env[m] in s.claims {
        var d :| d in s.flights && s.flights[d].msg == m && Owning(s.flights[d]);
        assert d in s'.flights && s'.flights[d].msg == m && Owning(s'.flights[d]);
      } else {
        assert a.d in s'.flights && s'.flights[a.d].msg == m && s'.flights[a.d].pc == Handling;
      }
    }
  }

  lemma LastRunEnds(c: Config, s: State, a: Action, m: MsgId)
    requires Enabled(c, s, a) && InFlight(s, m) && !InFlight(Apply(c, s, a), m)
    ensures Concerns(s, a, m)
  {
    var d :| d in s.flights && s.flights[d].msg == m;
    assert !(d in Apply(c, s, a).flights && Apply(c, s, a).flights[d].msg == m);
  }

  lemma AllFlightsOk(c: Config, s: State, a: Action, m: MsgId)
    requires ValidConfig(c) && c.useDLQ && c.maxRetries >= 1 && m in c.env && RetryInv(c, s, m)
    requires Enabled(c, s, a) && Allowed(Failing(m), c, s, a)
    ensures var s' := Apply(c, s, a);
            forall d :: d in s'.flights && s'.flights[d].msg == m ==> FlightOk(c, s', m, s'.flights[d])
  {
    var s' := Apply(c, s, a);
    forall d | d in s'.flights && s'.flights[d].msg == m ensures FlightOk(c, s', m, s'.flights[d]) {
      if d in s.flights { FlightOkStep(c, s, a, m, d); } else { NewFlightOk(c, s, a, m); }
    }
  }

  lemma RetryStep(c: Config, s: State, a: Action, m: MsgId)
    requires ValidConfig(c) && c.useDLQ && c.maxRetries >= 1 && m in c.env && RetryInv(c, s, m)
    requires Enabled(c, s, a) && Allowed(Failing(m), c, s, a)
    ensures RetryInv(c, Apply(c, s, a), m)
  {
    var s' := Apply(c, s, a);
    forall d, e | d in s'.flights && e in s'.flights && s'.flights[d].msg == m && s'.flights[e].msg == m
      ensures d == e
    {
      SoloForStep(c, s, a, m, d, e);
    }
    ClaimFreeStep(c, s, a, m);
    AllFlightsOk(c, s, a, m);
    if !InFlight(s', m) {
      if InFlight(s, m) { LastRunEnds(c, s, a, m); }
      IdleStep(c, s, a, m);
    }
  }

  lemma {:induction false} RetryRun(c: Config, s: State, acts: seq<Action>, m: MsgId)
    requires ValidConfig(c) && c.useDLQ && c.maxRetries >= 1 && m in c.env && RetryInv(c, s, m)
    requires Run(Failing(m), c, s, acts)
    ensures RetryInv(c, Exec(Failing(m), c, s, acts), m)
    decreases |acts|
  {
    if acts != [] {
      RetryStep(c, s, acts[0], m);
      RetryRun(c, Apply(c, s, acts[0]), acts[1..], m);
    }
  }

  /**
   In every run the handler of m starts at most `maxRetries` times, and whenever no run of m
   is in flight m is unread, waits with attempts left, or has left with one dead-letter entry.
   */
  lemma BoundedRetries(c: Config, acts: seq<Action>, m: MsgId)
    requires ValidConfig(c) && c.useDLQ && c.maxRetries >= 1 && m in c.env
    requires Run(Failing(m), c, INIT, acts)
    ensures var s := Exec(Failing(m), c, INIT, acts);
            && s.runs[m] <= c.maxRetries
            && (!InFlight(s, m) ==> Unread(s, m) || Waiting(c, s, m) || Gone(c, s, m))
  {
    RetryRun(c, INIT, acts, m);
    var s := Exec(Failing(m), c, INIT, acts);
    if InFlight(s, m) {
      var d :| d in s.flights && s.flights[d].msg == m;
      assert FlightOk(c, s, m, s.flights[d]);
    }
  }

  /** One more delivery of m that decodes and claims, then fails and releases. */
  ghost function Attempt(m: MsgId, d: RunId): seq<Action> {
    [Reclaim(m, d)] + [Decode(d)] + [Claim(d, Applied)] + [Return(d, false)] + [Release(d, Applied)] + [Count(d, true)]
  }

  lemma AttemptStarts(c: Config, s: State, m: MsgId, d: RunId)
    requires m in c.env && m in s.pending && !InFlight(s, m) && c.env[m] !in s.claims && d !in s.flights
    ensures var acts := [Reclaim(m, d)] + [Decode(d)] + [Claim(d, Applied)];
            && Run(Failing(m), c, s, acts)
            && Exec(Failing(m), c, s, acts) == s.(
                  pending := s.pending[m := s.pending[m] + 1], claims := s.claims + {c.env[m]},
                  runs := s.runs[m := s.runs[m] + 1], flights := s.flights[d := Flight(m, Handling, false)])
  {
    var g := Failing(m);
    RunStep(g, c, s, [], Reclaim(m, d));
    assert [] + [Reclaim(m, d)] == [Reclaim(m, d)];
    RunStep(g, c, s, [Reclaim(m, d)], Decode(d));
    RunStep(g, c, s, [Reclaim(m, d)] + [Decode(d)], Claim(d, Applied));
  }

  lemma AttemptFails(c: Config, s: State, acts: seq<Action>, m: MsgId, d: RunId)
    requires m in c.env && Run(Failing(m), c, s, acts)
    requires var t := Exec(Failing(m), c, s, acts);
             d in t.flights && t.flights[d] == Flight(m, Handling, false) && m in t.pending
    ensures var all := acts + [Return(d, false)] + [Release(d, Applied)] + [Count(d, true)];
            && Run(Failing(m), c, s, all)
            && var t := Exec(Failing(m), c, s, acts);
            Exec(Failing(m), c, s, all) == t.(
                 claims := t.claims - {c.env[m]},
            flights := if t.pending[m] >= c.maxRetries then t.flights[d := Flight(m, DeadLettering, false)]
            else t.flights - {d})
  {
    var g := Failing(m);
    RunStep(g, c, s, acts, Return(d, false));
    RunStep(g, c, s, acts + [Return(d, false)], Release(d, Applied));
    RunStep(g, c, s, acts + [Return(d, false)] + [Release(d, Applied)], Count(d, true));
  }

  /** The counter rises by one, and the run goes on to the dead-letter stream exactly when the
      counter has reached the limit. */
  lemma AttemptEffect(c: Config, s: State, m: MsgId, d: RunId)
    requires m in c.env && m in s.pending && !InFlight(s, m) && c.env[m] !in s.claims && d !in s.flights
    ensures Run(Failing(m), c, s, Attempt(m, d))
    ensures Exec(Failing(m), c, s, Attempt(m, d)) == s.(
              pending := s.pending[m := s.pending[m] + 1], runs := s.runs[m := s.runs[m] + 1],
              flights := if s.pending[m] + 1 < c.maxRetries then s.flights
                         else s.flights[d := Flight(m, DeadLettering, false)])
  {
    AttemptStarts(c, s, m, d);
    AttemptFails(c, s, [Reclaim(m, d)] + [Decode(d)] + [Claim(d, Applied)], m, d);
    assert s.flights[d := Flight(m, Handling, false)] - {d} == s.flights;
    assert s.claims + {c.env[m]} - {c.env[m]} == s.claims;
  }

  lemma DeadLetterEffect(c: Config, s: State, m: MsgId, d: RunId)
    requires c.useDLQ && At(s, d, DeadLettering) && s.flights[d].msg == m
    ensures var acts := [DeadLetter(d, Applied)] + [Ack(d, Applied)];
            && Run(Failing(m), c, s, acts)
            && Exec(Failing(m), c, s, acts) ==
               s.(dlq := s.dlq[m := s.dlq[m] + 1], pending := s.pending - {m}, flights := s.flights - {d})
  {
    RunStep(Failing(m), c, s, [], DeadLetter(d, Applied));
    assert [] + [DeadLetter(d, Applied)] == [DeadLetter(d, Applied)];
    RunStep(Failing(m), c, s, [DeadLetter(d, Applied)], Ack(d, Applied));
  }

  /**
   Retrying ends: from any idle state in which m waits, repeated attempts drive it out of the
   pending list. The measure is the number of deliveries left before the limit.
   */
  lemma {:induction false} RetriesEnd(c: Config, s: State, m: MsgId, d: RunId) returns (acts: seq<Action>)
    requires c.useDLQ && m in c.env && Waiting(c, s, m) && !InFlight(s, m)
    requires c.env[m] !in s.claims && d !in s.flights
    ensures Run(Failing(m), c, s, acts)
    ensures var s' := Exec(Failing(m), c, s, acts);
            && !InFlight(s', m) && m !in s'.pending && s'.dlq[m] == 1
            && s'.runs[m] == s.runs[m] + (if s.pending[m] >= c.maxRetries then 1 else c.maxRetries - s.pending[m])
    decreases c.maxRetries - s.pending[m]
  {
    AttemptEffect(c, s, m, d);
    var s1 := Exec(Failing(m), c, s, Attempt(m, d));
    var rest: seq<Action>;
    if s.pending[m] + 1 >= c.maxRetries {
      DeadLetterEffect(c, s1, m, d);
      rest := [DeadLetter(d, Applied)] + [Ack(d, Applied)];
    } else {
      rest := RetriesEnd(c, s1, m, d);
    }
    RunAppend(Failing(m), c, s, Attempt(m, d), rest);
    acts := Attempt(m, d) + rest;
  }
}
