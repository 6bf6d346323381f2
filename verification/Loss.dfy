/**
 Each hypothesis of the no-loss theorem is needed: under any one hazard there is a run in
 which a delivered message is neither pending, nor handled, nor dead-lettered.
 */
module Loss {
  import opened Delivery

  ghost predicate NeverLoses(c: Config, h: Hazards) {
    forall acts, m :: Run(Lossless(h), c, INIT, acts) && m in Exec(Lossless(h), c, INIT, acts).delivered ==>
                        Accounted(Exec(Lossless(h), c, INIT, acts), m)
  }

  ghost predicate Reaches(c: Config, g: Regime, acts: seq<Action>, s: State) {
    Run(g, c, INIT, acts) && Exec(g, c, INIT, acts) == s
  }

  lemma Extend(c: Config, g: Regime, acts: seq<Action>, s: State, a: Action) returns (acts': seq<Action>, s': State)
    requires Reaches(c, g, acts, s) && Enabled(c, s, a) && Allowed(g, c, s, a)
    ensures s' == Apply(c, s, a) && Reaches(c, g, acts', s')
  {
    RunStep(g, c, INIT, acts, a);
    acts', s' := acts + [a], Apply(c, s, a);
  }

  /** The first delivery of m has claimed and its handler runs. */
  ghost function Claimed(c: Config, m: MsgId): State
    requires m in c.env
  {
    State({m}, map[m := 1], {c.env[m]}, multiset{}, multiset{}, multiset{m}, map[0 := Flight(m, Handling, false)])
  }

  lemma ReachClaimed(c: Config, g: Regime, m: MsgId) returns (acts: seq<Action>)
    requires m in c.env && (g.Lossless? || g.Once?)
    ensures Reaches(c, g, acts, Claimed(c, m))
  {
    var a0: seq<Action> := [];
    var a1, s1 := Extend(c, g, a0, INIT, Read(m, 0));
    var a2, s2 := Extend(c, g, a1, s1, Decode(0));
    var a3, s3 := Extend(c, g, a2, s2, Claim(0, Applied));
    acts := a3;
    assert s3 == Claimed(c, m);
  }

  /** A redelivery that finds the claim taken acknowledges the message. */
  lemma Duplicated(c: Config, h: Hazards, acts: seq<Action>, s: State, m: MsgId) returns (acts': seq<Action>, s': State)
    requires Reaches(c, Lossless(h), acts, s) && m in c.env && m in s.pending && c.env[m] in s.claims
    requires 1 !in s.flights && (h.overlap || !InFlight(s, m))
    ensures Reaches(c, Lossless(h), acts', s') && s' == s.(pending := s.pending - {m})
  {
    var a1, s1 := Redecoded(c, h, acts, s, m);
    var a2, s2 := Extend(c, Lossless(h), a1, s1, Claim(1, Applied));
    var a3, s3 := Extend(c, Lossless(h), a2, s2, Ack(1, Applied));
    acts', s' := a3, s3;
    assert s3.flights == s.flights && s3.pending == s.pending - {m};
  }

  lemma Redecoded(c: Config, h: Hazards, acts: seq<Action>, s: State, m: MsgId) returns (acts': seq<Action>, s': State)
    requires Reaches(c, Lossless(h), acts, s) && m in c.env && m in s.pending
    requires 1 !in s.flights && (h.overlap || !InFlight(s, m))
    ensures Reaches(c, Lossless(h), acts', s')
    ensures s' == s.(pending := s.pending[m := s.pending[m] + 1], flights := s.flights[1 := Flight(m, Claiming, false)])
  {
    var a1, s1 := Extend(c, Lossless(h), acts, s, Reclaim(m, 1));
    acts', s' := Extend(c, Lossless(h), a1, s1, Decode(1));
  }

  /** The first delivery fails and leaves without acknowledging: it has retries left, or its
      dead-letter write fails. */
  lemma FailsUnacked(c: Config, h: Hazards, acts: seq<Action>, s: State, m: MsgId, f: Fault)
    returns (acts': seq<Action>, s': State)
    requires Reaches(c, Lossless(h), acts, s) && (c.useDLQ || c.maxRetries >= 2) && m in c.env
    requires 0 in s.flights && s.flights[0] == Flight(m, Handling, false)
    requires f.Applied? || (f.NotApplied? && h.lostRelease)
    requires m in s.pending ==> s.pending[m] == 1
    ensures Reaches(c, Lossless(h), acts', s')
    ensures s' == s.(claims := if f.Applied? then s.claims - {c.env[m]} else s.claims, flights := s.flights - {0})
  {
    var a1, s1 := Released(c, h, acts, s, m, f);
    acts', s' := Extend(c, Lossless(h), a1, s1, Count(0, true));
    if c.maxRetries <= 1 {
      acts', s' := Extend(c, Lossless(h), acts', s', DeadLetter(0, NotApplied));
    }
    assert s'.flights == s.flights - {0};
  }

  lemma Released(c: Config, h: Hazards, acts: seq<Action>, s: State, m: MsgId, f: Fault)
    returns (acts': seq<Action>, s': State)
    requires Reaches(c, Lossless(h), acts, s) && m in c.env
    requires 0 in s.flights && s.flights[0] == Flight(m, Handling, false)
    requires f.Applied? || (f.NotApplied? && h.lostRelease)
    ensures Reaches(c, Lossless(h), acts', s')
    ensures s' == s.(claims := if f.Applied? then s.claims - {c.env[m]} else s.claims,
                     flights := s.flights[0 := Flight(m, Counting, false)])
  {
    var a1, s1 := Extend(c, Lossless(h), acts, s, Return(0, false));
    acts', s' := Extend(c, Lossless(h), a1, s1, Release(0, f));
  }

  lemma OverlapLoses(c: Config, h: Hazards, m: MsgId) returns (acts: seq<Action>)
    requires (c.useDLQ || c.maxRetries >= 2) && m in c.env && h.overlap
    ensures Run(Lossless(h), c, INIT, acts) && m in Exec(Lossless(h), c, INIT, acts).delivered
    ensures !Accounted(Exec(Lossless(h), c, INIT, acts), m)
  {
    var a1 := ReachClaimed(c, Lossless(h), m);
    var a2, s2 := Duplicated(c, h, a1, Claimed(c, m), m);
    var a3, s3 := FailsUnacked(c, h, a2, s2, m, Applied);
    acts := a3;
  }

  lemma LostReleaseLoses(c: Config, h: Hazards, m: MsgId) returns (acts: seq<Action>)
    requires (c.useDLQ || c.maxRetries >= 2) && m in c.env && h.lostRelease
    ensures Run(Lossless(h), c, INIT, acts) && m in Exec(Lossless(h), c, INIT, acts).delivered
    ensures !Accounted(Exec(Lossless(h), c, INIT, acts), m)
  {
    var a1 := ReachClaimed(c, Lossless(h), m);
    var a2, s2 := FailsUnacked(c, h, a1, Claimed(c, m), m, NotApplied);
    var a3, s3 := Duplicated(c, h, a2, s2, m);
    acts := a3;
  }

  lemma CrashLoses(c: Config, h: Hazards, m: MsgId) returns (acts: seq<Action>)
    requires m in c.env && h.crash
    ensures Run(Lossless(h), c, INIT, acts) && m in Exec(Lossless(h), c, INIT, acts).delivered
    ensures !Accounted(Exec(Lossless(h), c, INIT, acts), m)
  {
    var a1 := ReachClaimed(c, Lossless(h), m);
    var a2, s2 := Extend(c, Lossless(h), a1, Claimed(c, m), Crash(0));
    var a3, s3 := Duplicated(c, h, a2, s2, m);
    acts := a3;
  }

  /**
   The exact condition: with the dead-letter stream on, the consumer never loses a message if
   and only if none of the three hazards can occur.
   */
  lemma NeverLosesExactly(c: Config, h: Hazards, m: MsgId)
    requires ValidConfig(c) && c.useDLQ && m in c.env
    ensures NeverLoses(c, h) <==> h == CALM
  {
    if h == CALM {
      forall acts, n | Run(Lossless(h), c, INIT, acts) && n in Exec(Lossless(h), c, INIT, acts).delivered
        ensures Accounted(Exec(Lossless(h), c, INIT, acts), n)
      {
        NoLoss(c, acts, n);
      }
    } else {
      var acts;
      if h.overlap { acts := OverlapLoses(c, h, m); }
      else if h.lostRelease { acts := LostReleaseLoses(c, h, m); }
      else { acts := CrashLoses(c, h, m); }
    }
  }
}
