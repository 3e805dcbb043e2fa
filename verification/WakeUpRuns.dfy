/** When completed gates stay completed and no wake-up is lost, exactly (server-rs/src/artifacts.rs,
    server-rs/src/dag_scheduler.rs). */
module WakeUpRuns {
  import opened Util
  import opened Artifacts
  import opened NodeGraph
  import opened WakeUp
  import opened WakeUpSchedules

  /** No wake-up is lost: in every interleaving, a gate blocked on inputs misses one, or somebody is about to look. */
  lemma {:induction false} NoLostWakeUp(cfg: Config, steps: seq<Step>, g: Gate)
    requires SafeConfig(cfg)
    ensures !Lost(cfg, After(cfg, Init, steps), g)
  {
    RunsKeepInv(cfg, steps);
    assert GateOk(cfg, After(cfg, Init, steps), g);
  }

  predicate Quiescent(s: State) {
    s.ending == [] && s.unsent == [] && s.inFlight == [] && s.listeners == map[] && s.executors == map[]
  }

  /** Once everything has settled, every gate in progress waits for a missing input, or has all its inputs and
      waits for the operator's approval, which is not there yet; or somebody has reported it so. */
  lemma {:induction false} QuiescentGatesWaitForAReason(cfg: Config, steps: seq<Step>, g: Gate)
    requires var s := After(cfg, Init, steps);
             SafeConfig(cfg) && Quiescent(s) && StatusOf(s, g) == InProgress
    ensures var s := After(cfg, Init, steps);
            && IsInitGate(cfg, g) && g in s.reason && (IsReported(cfg, g) || g !in s.approved)
            && (s.reason[g] == Reported
                || s.reason[g] == if AllSatisfied(s.outputs, Inputs(cfg, g)) then OnApproval else OnInputs)
            && (s.reason[g] == Reported ==> IsReported(cfg, g))
  {
    RunsKeepInv(cfg, steps);
    assert GateOk(cfg, After(cfg, Init, steps), g) && ApprovalOk(cfg, After(cfg, Init, steps), g);
  }

  /** A completed gate of a reachable state is reopened by nothing but the operator's retry or a report of its status,
      if and only if no verdict is pending of an executor that looked before there was an approval to find. */
  lemma {:induction false} StaysCompletedExactly(cfg: Config, steps: seq<Step>, g: Gate)
    requires StatusOf(After(cfg, Init, steps), g) == Completed
    ensures StaysCompleted(cfg, After(cfg, Init, steps), g) <==> NoVerdictPending(cfg, After(cfg, Init, steps), g)
  {
    var s := After(cfg, Init, steps);
    RunsKeepBase(cfg, Init, steps);
    if NoVerdictPending(cfg, s, g) {
      forall more | NoRetryOf(more, g) ensures StatusOf(After(cfg, s, more), g) == Completed {
        NobodyReopens(cfg, s, more, g);
      }
    } else {
      var pid :| VerdictPending(cfg, s, pid, g);
      var more := PendingVerdictFails(cfg, s, pid, g);
      assert NoRetryOf(more, g);
    }
  }

  /** That an approval is overwritten by a failing verdict can happen to exactly the Init gates that can run and have no
      hopeless inputs. */
  lemma {:induction false} ApprovalCanBeOverwritten(cfg: Config, g: Gate)
    ensures Overwritten(cfg, g) <==>
            IsInitGate(cfg, g) && cfg[g.0].CanRun({g.1}, g.1)
            && forall i :: 0 <= i < |Inputs(cfg, g)| ==> !Hopeless(cfg, Inputs(cfg, g)[i])
  {
    if IsInitGate(cfg, g) && cfg[g.0].CanRun({g.1}, g.1)
      && forall i :: 0 <= i < |Inputs(cfg, g)| ==> !Hopeless(cfg, Inputs(cfg, g)[i])
    {
      var steps := OverlookedApproval(cfg, g);
      RunsKeepBase(cfg, Init, steps);
      var more := PendingVerdictFails(cfg, After(cfg, Init, steps), 0, g);
      assert OverwrittenBy(cfg, g, steps, more);
    }
    if Overwritten(cfg, g) {
      var steps, more :| OverwrittenBy(cfg, g, steps, more);
      OverwrittenRan(cfg, g, steps, more);
    }
  }

  lemma {:induction false} OverwrittenRan(cfg: Config, g: Gate, steps: seq<Step>, more: seq<Step>)
    requires OverwrittenBy(cfg, g, steps, more)
    ensures IsInitGate(cfg, g) && cfg[g.0].CanRun({g.1}, g.1)
    ensures forall i :: 0 <= i < |Inputs(cfg, g)| ==> !Hopeless(cfg, Inputs(cfg, g)[i])
  {
    var s := After(cfg, Init, steps);
    StaysCompletedExactly(cfg, steps, g);
    assert !StaysCompleted(cfg, s, g);
    var pid :| VerdictPending(cfg, s, pid, g);
    RunsKeepBase(cfg, Init, steps);
    PendingMeans(cfg, s, pid, g);
  }

  lemma {:induction false} PendingMeans(cfg: Config, s: State, pid: Pid, g: Gate)
    requires Base(cfg, s) && VerdictPending(cfg, s, pid, g) && g in s.approved
    ensures IsInitGate(cfg, g) && cfg[g.0].CanRun({g.1}, g.1)
    ensures forall i :: 0 <= i < |Inputs(cfg, g)| ==> !Hopeless(cfg, Inputs(cfg, g)[i])
  {
    assert ExecutorOk(cfg, s, s.executors[pid]) && BypassOk(cfg, s, g);
    forall i | 0 <= i < |Inputs(cfg, g)| ensures !Hopeless(cfg, Inputs(cfg, g)[i]) {
      assert i < s.executors[pid].read ==> Satisfied(s.outputs, Inputs(cfg, g)[i]);
    }
  }

  /** The gate is completed, with its approval on record, and fails without having been retried. */
  ghost predicate OverwrittenBy(cfg: Config, g: Gate, steps: seq<Step>, more: seq<Step>) {
    && StatusOf(After(cfg, Init, steps), g) == Completed && g in After(cfg, Init, steps).approved
    && NoRetryOf(more, g) && StatusOf(After(cfg, After(cfg, Init, steps), more), g) == Failed
  }

  ghost predicate Overwritten(cfg: Config, g: Gate) {
    exists steps, more :: OverwrittenBy(cfg, g, steps, more)
  }

  ghost predicate KeepsWakeUps(cfg: Config) {
    forall steps, g :: !Lost(cfg, After(cfg, Init, steps), g)
  }

  /** Every interleaving keeps every wake-up if and only if each Init gate waits for something that can never be
      produced, or for no output of its own plan, or no End gate of its plan can run without its approval. */
  lemma {:induction false} NoLostWakeUpExactly(cfg: Config)
    ensures KeepsWakeUps(cfg) <==> SafeConfig(cfg)
  {
    if SafeConfig(cfg) {
      forall steps, g ensures !Lost(cfg, After(cfg, Init, steps), g) {
        NoLostWakeUp(cfg, steps, g);
      }
    } else {
      var g :| IsInitGate(cfg, g) && !SafeGate(cfg, g);
      var steps := UnsafeGateLosesWakeUp(cfg, g);
      assert Lost(cfg, After(cfg, Init, steps), g);
    }
  }

  /** A gate that is not safe loses a wake-up: blocked on its own plan's output last, it is not told. */
  lemma {:induction false} UnsafeGateLosesWakeUp(cfg: Config, g: Gate) returns (steps: seq<Step>)
    requires IsInitGate(cfg, g) && !SafeGate(cfg, g)
    ensures Lost(cfg, After(cfg, Init, steps), g)
  {
    var c := g.0;
    var inputs := cfg[c].inputs;
    var self :| 0 <= self < |inputs| && SelfInput(c, inputs[self]);
    var id :| id in cfg[c].ends - cfg[c].gates && cfg[c].CanRun({g.1}, id);
    var calm, n := RecordOthers(cfg, c, |inputs|, self);
    var s := After(cfg, Init, calm);
    var claim := EndThenClaim(cfg, s, g, (c, id));
    Continue(cfg, Init, calm, claim);
    var t := After(cfg, s, claim);
    var block := ExecutorBlocks(cfg, t, 0, self);
    Continue(cfg, Init, calm + claim, block);
    var u := After(cfg, t, block);
    assert u.executors == map[] && u.reason[g] == OnInputs;
    OwnRecordLoses(cfg, u, g, (c, id));
    OneMore(cfg, Init, calm + claim + block, EndPasses(0, Events(cfg[c], c)));
    steps := calm + claim + block + [EndPasses(0, Events(cfg[c], c))];
  }

  // ---------------------------------------------------------------- what the conditions come to

  /** No cycles, and all that is needed exists. */
  ghost predicate Sound(info: PlanInfo) {
    (exists rank :: Ranked(info.Graph(), rank)) && info.gates + info.ends <= info.needs.Keys
  }

  /** In a sound plan every Init gate can run without its approval, and every End gate can run. */
  lemma {:induction false} SoundGatesRun(info: PlanInfo, u: string)
    requires Sound(info)
    ensures u in info.gates ==> info.CanRun({u}, u)
    ensures u in info.ends ==> info.CanRun({}, u)
  {
    var rank :| Ranked(info.Graph(), rank);
    if u in info.gates {
      RankedCanStart(info.Graph(), rank, info.Free({u}), u);
    }
    if u in info.ends {
      RankedCanStart(info.Graph(), rank, info.Free({}), u);
    }
  }

  /** A plan in which an Init gate and the End gate stand around one task: the gate is waited for unless the task, or
      the gate itself, gets reported as done without having run. */
  lemma {:induction false} TaskBetween(info: PlanInfo, init: string, t: string, end: string)
    requires init != t && t != end && init != end
    requires info.gates == {init} && info.ends == {end} && info.others == {}
    requires info.needs == map[init := {}, t := {init}, end := {t}]
    ensures Bypassed(info, init) <==> t in info.reported || init in info.reported
  {
    var g, free := info.Graph(), info.Free({init});
    if t in info.reported {
      FreeCan(g, free, t);
      assert info.CanRun({init}, end);
    }
    if init in info.reported {
      FreeCan(g, free, init);
      NeedingCan(g, free, t);
      assert info.CanRun({init}, end);
    }
    if Bypassed(info, init) && t !in info.reported && init !in info.reported {
      assert Can(g, free, t);
      var order :| Feasible(g, free, order) && t in order;
      NeverInOrder(g, free, order, init, t);
    }
  }

  lemma {:induction false} NeverInOrder(g: Graph, free: set<string>, order: seq<string>, init: string, t: string)
    requires Feasible(g, free, order) && init in g.held && init !in free && t !in free
    requires t in g.needs && init in g.needs[t]
    ensures init !in order && t !in order
  {
    if order != [] {
      NeverInOrder(g, free, order[..|order| - 1], init, t);
    }
  }
}
