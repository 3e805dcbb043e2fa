/** The wake-up protocol comes to rest by itself, and by then has woken whom it should (server-rs/src/artifacts.rs). */
module WakeUpProgress {
  import opened Util
  import opened Artifacts
  import opened NodeGraph
  import opened WakeUp
  import opened WakeUpSchedules
  import opened WakeUpRuns
  import opened WakeUpRest

  // ---------------------------------------------------------------- who is at work where

  /** What a step may reset: gates of plans that consume what the listener's producer recorded, with all inputs read. */
  lemma {:induction false} OnlyConsumersReset(cfg: Config, steps: seq<Step>, pid: Pid)
    requires Enabled(cfg, After(cfg, Init, steps), Flip(pid))
    ensures var s := After(cfg, Init, steps);
            Consumes(cfg, s.listeners[pid].at.value, s.listeners[pid].producer)
  {
    RunsKeepRoster(cfg, Init, steps);
  }

  /** A flip resets exactly the Init gates in progress of the plan the listener is at. */
  lemma {:induction false} FlipsExactly(cfg: Config, s: State, pid: Pid, g: Gate)
    requires Enabled(cfg, s, Flip(pid))
    ensures StatusOf(Do(cfg, s, Flip(pid)), g) ==
            if s.listeners[pid].at == Some(g.0) && IsInitGate(cfg, g) && StatusOf(s, g) == InProgress then Pending
            else StatusOf(s, g)
  {
  }

  // ---------------------------------------------------------------- coming to rest

  /** Whatever is under way in whatever run, the system's own steps can bring it to rest. */
  lemma {:induction false} Settles(cfg: Config, steps: seq<Step>) returns (more: seq<Step>)
    ensures AllByItself(more) && Quiescent(After(cfg, Init, steps + more))
  {
    RunsKeepRoster(cfg, Init, steps);
    more := ComesToRest(cfg, After(cfg, Init, steps));
    Continue(cfg, Init, steps, more);
  }

  /** In a safe configuration, a gate left on inputs that are all there is reset by the system alone: some steps of its
      own bring the system to rest, and then the gate is pending. */
  lemma {:induction false} WokenInTheEnd(cfg: Config, steps: seq<Step>, g: Gate) returns (more: seq<Step>)
    requires SafeConfig(cfg)
    requires var s := After(cfg, Init, steps);
             && StatusOf(s, g) == InProgress && g in s.reason && s.reason[g] == OnInputs && !HasExecutor(s, g)
             && AllSatisfied(s.outputs, Inputs(cfg, g))
    ensures AllByItself(more)
    ensures var r := After(cfg, Init, steps + more); Quiescent(r) && StatusOf(r, g) == Pending
  {
    var s := After(cfg, Init, steps);
    more := Settles(cfg, steps);
    Continue(cfg, Init, steps, more);
    OwnSteps(cfg, s, more, g);
    if StatusOf(After(cfg, s, more), g) == InProgress {
      QuiescentGatesWaitForAReason(cfg, steps + more, g);
    }
  }
}
