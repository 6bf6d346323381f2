/**
 The buffered channel that bounds the consumer's concurrency: filled by the read loop and by
 the reclaim loop, emptied by finishing handlers, and filled up once more to drain at shutdown.
 */
module Semaphore {

  type RunId = nat

  datatype Phase = Looping | Reclaiming | Draining | Returned(drained: bool)

  datatype State = State(
    tokens: nat,            // values buffered in the channel
    running: set<RunId>,    // handlers whose deferred receive has not happened yet
    drains: nat,            // sends of the drain loop so far
    cancelled: bool,
    phase: Phase)

  const INIT := State(0, {}, 0, false, Looping)

  datatype Action =
    | Spawn(d: RunId)       // `sem <- struct{}{}` in either loop, then `go c.handle`
    | Finish(d: RunId)      // `<-sem` in the handler's deferred function
    | Tick | EndReclaim     // the claim ticker fires; the cursor loop ends
    | Cancel                // the context is cancelled
    | ReturnAtTop           // the select at the head of the loop sees the cancellation
    | BeginDrain            // the select around a message sees the cancellation
    | DrainOne | ReturnDrained

  ghost predicate Enabled(cap: nat, s: State, a: Action) {
    match a
    case Spawn(d) => (s.phase.Looping? || s.phase.Reclaiming?) && s.tokens < cap && d !in s.running
    case Finish(d) => d in s.running && s.tokens > 0
    case Tick => s.phase.Looping?
    case EndReclaim => s.phase.Reclaiming?
    case Cancel => true
    case ReturnAtTop => s.phase.Looping? && s.cancelled
    case BeginDrain => s.phase.Looping? && s.cancelled
    case DrainOne => s.phase.Draining? && s.drains < cap && s.tokens < cap
    case ReturnDrained => s.phase.Draining? && s.drains == cap
  }

  ghost function Apply(cap: nat, s: State, a: Action): State
    requires Enabled(cap, s, a)
  {
    match a
    case Spawn(d) => s.(tokens := s.tokens + 1, running := s.running + {d})
    case Finish(d) => s.(tokens := s.tokens - 1, running := s.running - {d})
    case Tick => s.(phase := Reclaiming)
    case EndReclaim => s.(phase := Looping)
    case Cancel => s.(cancelled := true)
    case ReturnAtTop => s.(phase := Returned(false))
    case BeginDrain => s.(phase := Draining)
    case DrainOne => s.(tokens := s.tokens + 1, drains := s.drains + 1)
    case ReturnDrained => s.(phase := Returned(true))
  }

  ghost predicate Run(cap: nat, s: State, acts: seq<Action>)
    decreases |acts|
  {
    acts == [] || (Enabled(cap, s, acts[0]) && Run(cap, Apply(cap, s, acts[0]), acts[1..]))
  }

  ghost function Exec(cap: nat, s: State, acts: seq<Action>): State
    requires Run(cap, s, acts)
    decreases |acts|
  {
    if acts == [] then s else Exec(cap, Apply(cap, s, acts[0]), acts[1..])
  }

  ghost predicate Inv(cap: nat, s: State) {
    && s.tokens == |s.running| + s.drains <= cap
    && (s.phase == Returned(true) ==> s.drains == cap)
  }

  lemma {:induction false} InvRun(cap: nat, s: State, acts: seq<Action>)
    requires Inv(cap, s) && Run(cap, s, acts)
    ensures Inv(cap, Exec(cap, s, acts))
    decreases |acts|
  {
    if acts != [] {
      InvRun(cap, Apply(cap, s, acts[0]), acts[1..]);
    }
  }

  /**
   In every run the tokens are conserved, no more than `cap` handlers run at once across both
   loops, a handler's deferred receive never blocks, and after a return through the drain
   branch no handler is left running.
   */
  lemma Conservation(cap: nat, acts: seq<Action>)
    requires Run(cap, INIT, acts)
    ensures var s := Exec(cap, INIT, acts);
            && s.tokens == |s.running| + s.drains
            && |s.running| <= cap
            && (s.running != {} ==> s.tokens > 0)
            && (s.phase == Returned(true) ==> s.running == {})
  {
    InvRun(cap, INIT, acts);
  }

  lemma {:induction false} RunStep(cap: nat, s: State, acts: seq<Action>, a: Action)
    requires Run(cap, s, acts) && Enabled(cap, Exec(cap, s, acts), a)
    ensures Run(cap, s, acts + [a]) && Exec(cap, s, acts + [a]) == Apply(cap, Exec(cap, s, acts), a)
    decreases |acts|
  {
    if acts == [] {
      assert [a][1..] == [] && Run(cap, Apply(cap, s, a), []);
      assert [] + [a] == [a];
    } else {
      assert (acts + [a])[1..] == acts[1..] + [a];
      RunStep(cap, Apply(cap, s, acts[0]), acts[1..], a);
    }
  }

  lemma {:induction false} Fill(cap: nat, n: nat) returns (acts: seq<Action>)
    requires n <= cap
    ensures Run(cap, INIT, acts)
    ensures var s := Exec(cap, INIT, acts);
            s.phase.Looping? && s.tokens == |s.running| == n && (forall d :: d in s.running ==> d < n)
  {
    acts := [];
    if n > 0 {
      var prev := Fill(cap, n - 1);
      RunStep(cap, INIT, prev, Spawn(n - 1));
      acts := prev + [Spawn(n - 1)];
    }
  }

  /** The return at the head of the loop gives no such promise: any number of handlers may still run. */
  lemma TopReturnLeavesHandlers(cap: nat, n: nat) returns (acts: seq<Action>)
    requires n <= cap
    ensures Run(cap, INIT, acts)
    ensures Exec(cap, INIT, acts).phase == Returned(false) && |Exec(cap, INIT, acts).running| == n
  {
    var a0 := Fill(cap, n);
    RunStep(cap, INIT, a0, Cancel);
    RunStep(cap, INIT, a0 + [Cancel], ReturnAtTop);
    acts := a0 + [Cancel] + [ReturnAtTop];
    InvRun(cap, INIT, acts);
  }

  // ------------------------------------------------------------ the drain ends

  /** Steps of the drain that are left at most: handlers to end, sends to make, and the return. */
  function Left(cap: nat, s: State): int {
    if s.phase.Draining? then |s.running| + (cap - s.drains) + 1 else |s.running|
  }

  ghost predicate Drains(s: State) {
    s.phase == Draining || s.phase == Returned(true)
  }

  /** Every step but a repeated cancellation brings the drain nearer to its end. */
  lemma DrainStep(cap: nat, s: State, a: Action)
    requires Inv(cap, s) && Drains(s) && Enabled(cap, s, a) && !a.Cancel?
    ensures var s' := Apply(cap, s, a); Inv(cap, s') && Drains(s') && Left(cap, s') < Left(cap, s)
  {
  }

  /** As long as the drain has not returned, some handler can end, or a send or the return can happen. */
  lemma DrainMoves(cap: nat, s: State) returns (a: Action)
    requires Inv(cap, s) && s.phase == Draining
    ensures (a.Finish? || a.DrainOne? || a.ReturnDrained?) && Enabled(cap, s, a)
  {
    if s.drains == cap {
      a := ReturnDrained;
    } else if s.tokens < cap {
      a := DrainOne;
    } else {
      assert s.running != {};
      var d :| d in s.running;
      a := Finish(d);
    }
  }

  lemma {:induction false} DrainBounded(cap: nat, s: State, acts: seq<Action>)
    requires Inv(cap, s) && Drains(s) && Run(cap, s, acts) && forall i :: 0 <= i < |acts| ==> !acts[i].Cancel?
    ensures Inv(cap, Exec(cap, s, acts)) && Drains(Exec(cap, s, acts))
    ensures |acts| + Left(cap, Exec(cap, s, acts)) <= Left(cap, s)
    decreases |acts|
  {
    if acts != [] {
      DrainStep(cap, s, acts[0]);
      DrainBounded(cap, Apply(cap, s, acts[0]), acts[1..]);
    }
  }

  /**
   A drain always ends: from the state in which it starts, whatever ran before, every further run makes
   at most |running| + cap - drains + 1 steps besides cancellations, and one that can make no more has
   returned with no handler left running.
   */
  lemma DrainEnds(cap: nat, before: seq<Action>, acts: seq<Action>)
    requires Run(cap, INIT, before) && Exec(cap, INIT, before).phase == Draining
    requires Run(cap, Exec(cap, INIT, before), acts) && forall i :: 0 <= i < |acts| ==> !acts[i].Cancel?
    ensures var s := Exec(cap, INIT, before); |acts| <= |s.running| + cap - s.drains + 1
    ensures var s' := Exec(cap, Exec(cap, INIT, before), acts);
            (forall a :: Enabled(cap, s', a) ==> a.Cancel?) ==> s'.phase == Returned(true) && s'.running == {}
  {
    InvRun(cap, INIT, before);
    var s := Exec(cap, INIT, before);
    DrainBounded(cap, s, acts);
    var s' := Exec(cap, s, acts);
    if s'.phase == Draining { var a := DrainMoves(cap, s'); }
  }
}
