/** A boundary handler that nobody interrupts does what the state machine does in one step
    (server-rs/src/auto_mode.rs, server-rs/src/api/agents.rs). */
module OneHandler {
  import opened Util
  import opened AutoMode
  import opened Batches
  import opened NoLimbo
  import opened TwoHandlers
  import opened AloneSteps

  /** The whole batch. */
  lemma {:induction false} BatchAlone(sys: System, t: bool) returns (turns: seq<bool>)
    requires Sane(sys) && Clean(sys) && sys.At(t).phase == Ready && !sys.At(t).stopped
    requires sys.At(t).next <= |sys.At(t).batch|
    ensures var h, r := sys.At(t), After(sys, turns);
            var b := MergeAll(sys.state, h.world, h.batch, h.next, true);
            r.state == b.state && r.At(t).Over() && r.At(t).stopped == b.stopped && r.At(!t) == sys.At(!t)
    decreases |sys.At(t).batch| - sys.At(t).next
  {
    var h := sys.At(t);
    turns := [];
    if h.next < |h.batch| {
      turns := RowAlone(sys, t);
      var r := After(sys, turns);
      BatchGoesOn(sys, r, t);
      if !r.At(t).stopped {
        var rest := BatchAlone(r, t);
        Continue(sys, turns, rest);
        turns := turns + rest;
      }
    }
  }

  // ---------------------------------------------------------------- as the machine has it

  /** Begun on the batch of a boundary and left to itself, a handler leaves what the machine leaves, but for the wait
      for CI, which it gets to exactly when it was not stopped. */
  lemma {:induction false} HandlerIsMachine(sys: System, t: bool, id: AgentId) returns (turns: seq<bool>)
    requires Begins(sys) && id < |sys.state.agents| && sys.At(t).batch == WholeBatch(sys.state, sys.At(t).world, id)
    ensures var w, r := sys.At(t).world, After(sys, turns);
            && r.At(t).Over() && r.At(!t) == sys.At(!t)
            && MergeBatch(sys.state, w, id) ==
               if r.At(t).stopped then r.state else OnCi(AwaitCi(r.state), w, sys.state.agents[id].task)
  {
    assert sys.At(t) == Handler(sys.At(t).world, sys.At(t).batch, 0, Ready, false, []);
    turns := BatchAlone(sys, t);
    DrainAndTrigger(sys.state, sys.At(t).world, DrainList(sys.state, sys.At(t).world, id), id, 0);
  }
}
