/** The cross-plan wake-up protocol. End gates record outputs and broadcast events, listeners reset blocked Init gates,
    schedulers start nodes and claim Init gates, the operator approves and retries, agents and others report, all
    interleaved (server-rs/src/artifacts.rs, with the claim, the verdicts and the mirrored status reports of
    server-rs/src/dag_scheduler.rs, the two gates of server-rs/src/gates.rs and the endpoints of
    server-rs/src/api/plans.rs). Here are the steps and what every run keeps; WakeUpRuns says what follows. */
module WakeUp {
  import opened Util
  import opened Artifacts
  import opened NodeGraph

  type Gate = (string, string)   // plan and scoped node id, as in node_status; also for nodes that are no gates

  type Pid = nat

  /** The declared side of a plan: inputs, output names, the ids of its Init gates, End gates and other gates, and what
      each node waits for (as in SubPlanGraph). `reported` are the nodes of which somebody reports a status although
      they have not been started: anybody may, through the status endpoint. */
  datatype PlanInfo = PlanInfo(inputs: seq<PlanArtifact>, outputs: set<Name>, gates: set<string>, ends: set<string>,
                               others: set<string>, needs: map<string, set<string>>, reported: set<string>)
  {
    function Graph(): Graph {
      NodeGraph.Graph(needs, gates)
    }

    /** What can get done at any time: gates other than those to avoid by an approval, others by a report. */
    function Free(avoid: set<string>): set<string> {
      (gates - avoid) + (ends + others - gates) + reported
    }

    /** Node n can start without the Init gates to avoid having been approved. */
    ghost predicate CanRun(avoid: set<string>, n: string) {
      CanStart(Graph(), Free(avoid), n)
    }
  }

  type Config = map<Plan, PlanInfo>

  /** Skipped counts as completed. */
  datatype Status = Pending | InProgress | Completed | Failed | Checking

  /** Why a gate is in progress: an executor is at work, or the last one blocked on an input, or on the approval; or
      somebody reported it so. */
  datatype Reason = Running | OnInputs | OnApproval | Reported

  /** An executor first looks for an approval, then reads the inputs one at a time. */
  datatype Executor = Executor(gate: Gate, scanning: bool, read: nat)

  /** A listener task works through the dependent plans; `at` is the plan whose inputs it is reading. */
  datatype Listener = Listener(producer: Plan, todo: set<Plan>, at: Option<Plan>, read: nat)

  datatype State = State(
    outputs: set<Key>,
    status: map<Gate, Status>,   // of Init gates
    reason: map<Gate, Reason>,
    approved: set<Gate>,
    started: set<Gate>,          // other nodes that were started
    done: set<Gate>,             // other nodes that are completed or skipped
    executors: map<Pid, Executor>,
    ending: seq<Gate>,           // End gates being run
    unsent: seq<Plan>,           // recorded, but `plan_output_produced` not yet broadcast
    inFlight: seq<Plan>,         // broadcast, but not yet received
    listeners: map<Pid, Listener>)

  const Init := State({}, map[], map[], {}, {}, {}, map[], [], [], [], map[])

  datatype Step =
    | StartEnd(end: Gate)
    | EndPasses(i: nat, events: seq<Plan>)    // upsert every output, one event each
    | EndFails(i: nat)
    | Start(node: Gate)
    | Finish(node: Gate)                      // what was started completes
    | ApproveOther(node: Gate)                // operator: an End gate, or another gate
    | Reset(node: Gate)                       // operator: retry a gate, or set a node back
    | Report(node: Gate)                      // reported as completed, without having been started
    | Send(i: nat)
    | Receive(i: nat, pid: Pid)
    | Pick(pid: Pid, consumer: Plan)
    | Read(pid: Pid)                          // the listener reads the next input of the plan it is at
    | Flip(pid: Pid)                          // all inputs read as satisfied: reset the gates
    | Leave(pid: Pid)
    | Claim(pid: Pid, gate: Gate)
    | CheckApproval(pid: Pid)
    | ReadInput(pid: Pid)                     // the executor reads its next input
    | Verdict(pid: Pid, pass: bool)           // all inputs read as satisfied: run the preconditions
    | Approve(gate: Gate)                     // operator
    | Retry(gate: Gate)                       // operator
    | ReportGate(gate: Gate, to: Status)

  function StatusOf(s: State, g: Gate): Status {
    if g in s.status then s.status[g] else Pending
  }

  predicate IsInitGate(cfg: Config, g: Gate) {
    g.0 in cfg && g.1 in cfg[g.0].gates
  }

  predicate IsEndGate(cfg: Config, e: Gate) {
    e.0 in cfg && e.1 in cfg[e.0].ends && e.1 !in cfg[e.0].gates
  }

  predicate IsOther(cfg: Config, n: Gate) {
    n.0 in cfg && n.1 !in cfg[n.0].gates
  }

  predicate IsDone(cfg: Config, s: State, n: Gate) {
    if IsInitGate(cfg, n) then StatusOf(s, n) == Completed else n in s.done
  }

  /** The scheduler's test: everything the node waits for is done. */
  predicate Ready(cfg: Config, s: State, n: Gate)
    requires n.0 in cfg
  {
    forall d :: d in NeedsOf(cfg[n.0].Graph(), n.1) ==> IsDone(cfg, s, (n.0, d))
  }

  /** `dependent_plans`: the producing plan itself is excluded. */
  function Dependents(cfg: Config, producer: Plan): set<Plan> {
    set c | c in cfg && c != producer && DependsOnPlan(cfg[c].inputs, producer)
  }

  function Remove<T>(s: seq<T>, i: nat): seq<T>
    requires i < |s|
  {
    s[..i] + s[i + 1..]
  }

  predicate OneEventPerOutput(info: PlanInfo, plan: Plan, events: seq<Plan>) {
    |events| == |info.outputs| && forall i :: 0 <= i < |events| ==> events[i] == plan
  }

  predicate Enabled(cfg: Config, s: State, step: Step) {
    match step
    case StartEnd(e) => IsEndGate(cfg, e) && e !in s.done && Ready(cfg, s, e)
    case EndPasses(i, events) =>
      i < |s.ending| && s.ending[i].0 in cfg && OneEventPerOutput(cfg[s.ending[i].0], s.ending[i].0, events)
    case EndFails(i) => i < |s.ending|
    case Start(n) => IsOther(cfg, n) && n.1 in cfg[n.0].needs && n.1 !in cfg[n.0].ends && Ready(cfg, s, n)
    case Finish(n) => n in s.started
    case ApproveOther(n) => IsOther(cfg, n) && n.1 in cfg[n.0].ends + cfg[n.0].others
    case Reset(n) => IsOther(cfg, n)
    case Report(n) => IsOther(cfg, n) && n.1 in cfg[n.0].reported
    case Send(i) => i < |s.unsent|
    case Receive(i, pid) => i < |s.inFlight| && pid !in s.listeners
    case Pick(pid, c) => pid in s.listeners && s.listeners[pid].at.None? && c in s.listeners[pid].todo
    case Read(pid) => pid in s.listeners && AtInput(cfg, s.listeners[pid])
    case Flip(pid) => pid in s.listeners && AllRead(cfg, s.listeners[pid])
    case Leave(pid) => pid in s.listeners && s.listeners[pid].at.None? && s.listeners[pid].todo == {}
    case Claim(pid, g) =>
      pid !in s.executors && IsInitGate(cfg, g) && StatusOf(s, g) in {Pending, Failed} && Ready(cfg, s, g)
    case CheckApproval(pid) => pid in s.executors && !s.executors[pid].scanning
    case ReadInput(pid) => pid in s.executors && ScansInput(cfg, s.executors[pid])
    case Verdict(pid, _) => pid in s.executors && ScannedAll(cfg, s.executors[pid])
    case Approve(g) => IsInitGate(cfg, g)
    case Retry(g) => IsInitGate(cfg, g)
    case ReportGate(g, _) => IsInitGate(cfg, g) && g.1 in cfg[g.0].reported
  }

  predicate AtInput(cfg: Config, l: Listener) {
    l.at.Some? && l.at.value in cfg && l.read < |cfg[l.at.value].inputs|
  }

  predicate AllRead(cfg: Config, l: Listener) {
    l.at.Some? && l.at.value in cfg && l.read >= |cfg[l.at.value].inputs|
  }

  predicate ScansInput(cfg: Config, e: Executor) {
    e.scanning && e.gate.0 in cfg && e.read < |cfg[e.gate.0].inputs|
  }

  predicate ScannedAll(cfg: Config, e: Executor) {
    e.scanning && e.gate.0 in cfg && e.read >= |cfg[e.gate.0].inputs|
  }

  predicate EndStep(step: Step) {
    step.StartEnd? || step.EndPasses? || step.EndFails?
  }

  predicate NodeStep(step: Step) {
    step.Start? || step.Finish? || step.ApproveOther? || step.Reset? || step.Report?
  }

  function OutputKeys(info: PlanInfo, plan: Plan): set<Key> {
    set n | n in info.outputs :: (plan, n)
  }

  /** Running an End gate. */
  function DoEnd(cfg: Config, s: State, step: Step): State
    requires EndStep(step) && Enabled(cfg, s, step)
  {
    match step
    case StartEnd(e) => s.(ending := s.ending + [e])
    case EndPasses(i, events) =>
      var p := s.ending[i].0;
      s.(outputs := s.outputs + OutputKeys(cfg[p], p), unsent := s.unsent + events, ending := Remove(s.ending, i),
         done := s.done + {s.ending[i]})
    case EndFails(i) => s.(ending := Remove(s.ending, i))
  }

  /** What happens to the nodes that are no Init gates. */
  function DoNode(s: State, step: Step): State
    requires NodeStep(step)
  {
    match step
    case Start(n) => s.(started := s.started + {n})
    case Finish(n) => s.(done := s.done + {n})
    case ApproveOther(n) => s.(done := s.done + {n})
    case Reset(n) => s.(done := s.done - {n})
    case Report(n) => s.(done := s.done + {n})
  }

  /** Reset the in-progress Init gates of a plan, under one lock. */
  function FlipAll(status: map<Gate, Status>, info: PlanInfo, plan: Plan): map<Gate, Status> {
    map g | g in status ::
      if g.0 == plan && g.1 in info.gates && status[g] == InProgress then Pending else status[g]
  }

  predicate ListenerStep(step: Step) {
    step.Send? || step.Receive? || step.Pick? || step.Read? || step.Flip? || step.Leave?
  }

  /** Delivering an event, and working through the dependent plans. */
  function DoListener(cfg: Config, s: State, step: Step): State
    requires ListenerStep(step) && Enabled(cfg, s, step)
  {
    match step
    case Send(i) =>
      s.(unsent := Remove(s.unsent, i), inFlight := s.inFlight + [s.unsent[i]])
    case Receive(i, pid) =>
      var l := Listener(s.inFlight[i], Dependents(cfg, s.inFlight[i]), None, 0);
      s.(inFlight := Remove(s.inFlight, i), listeners := s.listeners[pid := l])
    case Pick(pid, c) =>
      var l := s.listeners[pid];
      s.(listeners := s.listeners[pid := Listener(l.producer, l.todo - {c}, Some(c), 0)])
    case Read(pid) =>
      var l := s.listeners[pid];
      var found := Satisfied(s.outputs, cfg[l.at.value].inputs[l.read]);
      s.(listeners := s.listeners[pid := if found then l.(read := l.read + 1) else l.(at := None, read := 0)])
    case Flip(pid) =>
      var l := s.listeners[pid];
      s.(status := FlipAll(s.status, cfg[l.at.value], l.at.value),
         listeners := s.listeners[pid := l.(at := None, read := 0)])
    case Leave(pid) =>
      s.(listeners := s.listeners - {pid})
  }

  predicate GateStep(step: Step) {
    || step.Claim? || step.CheckApproval? || step.ReadInput? || step.Verdict?
    || step.Approve? || step.Retry? || step.ReportGate?
  }

  /** Claiming and running an Init gate, and the operator's two buttons. */
  function DoGate(cfg: Config, s: State, step: Step): State
    requires GateStep(step) && Enabled(cfg, s, step)
  {
    match step
    case Claim(pid, g) =>
      s.(status := s.status[g := InProgress], reason := s.reason[g := Running],
         executors := s.executors[pid := Executor(g, false, 0)])
    case CheckApproval(pid) =>
      var e := s.executors[pid];
      if e.gate in s.approved
      then s.(status := s.status[e.gate := Completed], executors := s.executors - {pid})
      else s.(executors := s.executors[pid := e.(scanning := true)])
    case ReadInput(pid) =>
      var e := s.executors[pid];
      if Satisfied(s.outputs, cfg[e.gate.0].inputs[e.read])
      then s.(executors := s.executors[pid := e.(read := e.read + 1)])
      else s.(reason := s.reason[e.gate := OnInputs], executors := s.executors - {pid})
    case Verdict(pid, pass) =>
      var e := s.executors[pid];
      if pass
      then s.(reason := s.reason[e.gate := OnApproval], executors := s.executors - {pid})
      else s.(status := s.status[e.gate := Failed], executors := s.executors - {pid})
    case Approve(g) =>
      s.(approved := s.approved + {g}, status := s.status[g := Completed])
    case Retry(g) =>
      s.(status := s.status[g := Pending])
    case ReportGate(g, to) =>
      if to == InProgress then s.(status := s.status[g := to], reason := s.reason[g := Reported])
      else s.(status := s.status[g := to])
  }

  /** One atomic step; a step that is not enabled is skipped. */
  function Do(cfg: Config, s: State, step: Step): State {
    if !Enabled(cfg, s, step) then s
    else if EndStep(step) then DoEnd(cfg, s, step)
    else if NodeStep(step) then DoNode(s, step)
    else if ListenerStep(step) then DoListener(cfg, s, step)
    else DoGate(cfg, s, step)
  }

  /** The state after an arbitrary interleaving of steps. */
  function After(cfg: Config, s: State, steps: seq<Step>): State {
    if steps == [] then s else Do(cfg, After(cfg, s, steps[..|steps| - 1]), steps[|steps| - 1])
  }

  // ---------------------------------------------------------------- what every run keeps

  function Inputs(cfg: Config, g: Gate): seq<PlanArtifact> {
    if g.0 in cfg then cfg[g.0].inputs else []
  }

  /** Some End gate of the plan can run. */
  ghost predicate CanEnd(info: PlanInfo) {
    exists e :: e in info.ends - info.gates && info.CanRun({}, e)
  }

  /** An input nobody can ever satisfy: no producer, or a producer that is unknown, has no End gate that can run and
      record anything, or does not declare the artifact. */
  ghost predicate Hopeless(cfg: Config, input: PlanArtifact) {
    match InputProducer(input)
    case None => true
    case Some(key) => key.0 !in cfg || key.1 !in cfg[key.0].outputs || !CanEnd(cfg[key.0])
  }

  ghost predicate OutputsDeclared(cfg: Config, s: State) {
    forall k :: k in s.outputs ==> k.0 in cfg && k.1 in cfg[k.0].outputs && CanEnd(cfg[k.0])
  }

  // ---------------------------------------------------------------- what gets done without an approval

  /** Everything that got done, or started, in plan p can do so without the Init gates to avoid. */
  ghost predicate Within(cfg: Config, s: State, p: Plan, avoid: set<string>)
    requires p in cfg
  {
    && (forall n :: n in s.done + s.started && n.0 == p && n.1 !in cfg[p].gates ==>
          Can(cfg[p].Graph(), cfg[p].Free(avoid), n.1))
    && (forall i :: 0 <= i < |s.ending| && s.ending[i].0 == p ==>
          s.ending[i].1 in cfg[p].ends - cfg[p].gates && cfg[p].CanRun(avoid, s.ending[i].1))
  }

  /** The Init gates of plan p that are done need no approval other than those allowed. */
  ghost predicate InitsWithin(cfg: Config, s: State, p: Plan, avoid: set<string>)
    requires p in cfg
  {
    forall u :: u in cfg[p].gates && StatusOf(s, (p, u)) == Completed ==> u in cfg[p].Free(avoid)
  }

  lemma {:induction false} ReadyCanRun(cfg: Config, s: State, n: Gate, avoid: set<string>)
    requires n.0 in cfg && Within(cfg, s, n.0, avoid) && InitsWithin(cfg, s, n.0, avoid)
    requires Ready(cfg, s, n) && !IsDone(cfg, s, n)
    ensures cfg[n.0].CanRun(avoid, n.1)
  {
    AllNeededCan(cfg, s, n, avoid);
  }

  lemma {:induction false} AllNeededCan(cfg: Config, s: State, n: Gate, avoid: set<string>)
    requires n.0 in cfg && Within(cfg, s, n.0, avoid) && InitsWithin(cfg, s, n.0, avoid) && Ready(cfg, s, n)
    ensures AllCan(cfg[n.0].Graph(), cfg[n.0].Free(avoid), NeedsOf(cfg[n.0].Graph(), n.1))
  {
    var info := cfg[n.0];
    forall d | d in NeedsOf(info.Graph(), n.1) ensures Can(info.Graph(), info.Free(avoid), d) {
      assert IsDone(cfg, s, (n.0, d));
      if d in info.gates {
        FreeCan(info.Graph(), info.Free(avoid), d);
      } else {
        assert (n.0, d) in s.done + s.started;
      }
    }
  }

  lemma {:induction false} StepKeepsWithin(cfg: Config, s: State, step: Step, p: Plan, avoid: set<string>)
    requires p in cfg && Within(cfg, s, p, avoid) && InitsWithin(cfg, s, p, avoid)
    ensures Within(cfg, Do(cfg, s, step), p, avoid)
  {
    if Enabled(cfg, s, step) {
      if NodeStep(step) {
        if step.node.0 == p {
          NodeKeepsWithin(cfg, s, step, avoid);
        }
      } else if EndStep(step) {
        EndKeepsWithin(cfg, s, step, p, avoid);
      } else {
        OthersLeaveNodes(cfg, s, step);
      }
    }
  }

  lemma {:induction false} OthersLeaveNodes(cfg: Config, s: State, step: Step)
    requires Enabled(cfg, s, step) && !NodeStep(step) && !EndStep(step)
    ensures var r := Do(cfg, s, step); r.done == s.done && r.started == s.started && r.ending == s.ending
  {
  }

  lemma {:induction false} EndKeepsWithin(cfg: Config, s: State, step: Step, p: Plan, avoid: set<string>)
    requires p in cfg && Within(cfg, s, p, avoid) && InitsWithin(cfg, s, p, avoid)
    requires EndStep(step) && Enabled(cfg, s, step)
    ensures Within(cfg, DoEnd(cfg, s, step), p, avoid)
  {
    if step.StartEnd? && step.end.0 == p {
      ReadyCanRun(cfg, s, step.end, avoid);
    } else if step.EndPasses? && s.ending[step.i].0 == p {
      FreeCan(cfg[p].Graph(), cfg[p].Free(avoid), s.ending[step.i].1);
    }
  }

  lemma {:induction false} NodeKeepsWithin(cfg: Config, s: State, step: Step, avoid: set<string>)
    requires NodeStep(step) && step.node.0 in cfg && Enabled(cfg, s, step)
    requires Within(cfg, s, step.node.0, avoid) && InitsWithin(cfg, s, step.node.0, avoid)
    ensures Within(cfg, DoNode(s, step), step.node.0, avoid)
  {
    var n, info := step.node, cfg[step.node.0];
    if step.Start? {
      AllNeededCan(cfg, s, n, avoid);
      NeedingCan(info.Graph(), info.Free(avoid), n.1);
    } else if step.ApproveOther? || step.Report? {
      FreeCan(info.Graph(), info.Free(avoid), n.1);
    } else if step.Finish? {
      assert n in s.done + s.started;
    }
  }

  ghost predicate ReadRight(outputs: set<Key>, inputs: seq<PlanArtifact>, n: nat) {
    forall i :: 0 <= i < n && i < |inputs| ==> Satisfied(outputs, inputs[i])
  }

  /** Readers only count inputs they saw satisfied, and outputs stay satisfied. */
  ghost predicate ListenerOk(cfg: Config, s: State, l: Listener) {
    l.at.Some? && l.at.value in cfg ==> ReadRight(s.outputs, cfg[l.at.value].inputs, l.read)
  }

  ghost predicate ExecutorOk(cfg: Config, s: State, e: Executor) {
    IsInitGate(cfg, e.gate) && ReadRight(s.outputs, Inputs(cfg, e.gate), e.read)
  }

  ghost predicate ReadersRight(cfg: Config, s: State) {
    && (forall pid :: pid in s.listeners ==> ListenerOk(cfg, s, s.listeners[pid]))
    && (forall pid :: pid in s.executors ==> ExecutorOk(cfg, s, s.executors[pid]))
  }

  ghost predicate HasExecutor(s: State, g: Gate) {
    exists pid :: pid in s.executors && s.executors[pid].gate == g
  }

  /** An executor that has not looked for the approval yet. */
  ghost predicate HasNewExecutor(s: State, g: Gate) {
    exists pid :: pid in s.executors && s.executors[pid].gate == g && !s.executors[pid].scanning
  }

  predicate IsReported(cfg: Config, g: Gate) {
    g.0 in cfg && g.1 in cfg[g.0].reported
  }

  /** Unless somebody reports its status, a gate completes only with its approval, and an approved gate is in progress
      only until its executor sees that. */
  ghost predicate ApprovalOk(cfg: Config, s: State, g: Gate) {
    && (StatusOf(s, g) == Completed ==> IsInitGate(cfg, g) && (g in s.approved || IsReported(cfg, g)))
    && (StatusOf(s, g) == InProgress ==> IsInitGate(cfg, g) && g in s.reason)
    && (StatusOf(s, g) == InProgress && g in s.approved && !IsReported(cfg, g) ==> HasNewExecutor(s, g))
    && (g in s.reason && s.reason[g] == Reported ==> IsReported(cfg, g))
  }

  /** As far as its approval goes, gate g has not let anything pass. */
  predicate Unapproved(cfg: Config, s: State, g: Gate) {
    g !in s.approved || IsReported(cfg, g)
  }

  /** Until gate g is approved, what got done in its plan, and what was ever at work on g, can do without; and what
      reads its inputs started before. */
  ghost predicate BypassOk(cfg: Config, s: State, g: Gate)
    requires g.0 in cfg
  {
    (Unapproved(cfg, s, g) ==> Within(cfg, s, g.0, {g.1})) && RanOk(cfg, s, g)
  }

  ghost predicate RanOk(cfg: Config, s: State, g: Gate)
    requires g.0 in cfg
  {
    && (Unapproved(cfg, s, g) && (HasExecutor(s, g) || (g in s.reason && s.reason[g] != Reported)) ==>
          cfg[g.0].CanRun({g.1}, g.1))
    && (forall pid :: pid in s.executors && s.executors[pid].gate == g && s.executors[pid].scanning ==>
          cfg[g.0].CanRun({g.1}, g.1))
  }

  /** What holds in every run of every configuration. */
  ghost predicate Base(cfg: Config, s: State) {
    && OutputsDeclared(cfg, s) && ReadersRight(cfg, s)
    && (forall g :: ApprovalOk(cfg, s, g))
    && (forall p :: p in cfg ==> Within(cfg, s, p, {}))
    && (forall g {:trigger BypassOk(cfg, s, g)} :: IsInitGate(cfg, g) ==> BypassOk(cfg, s, g))
  }

  lemma {:induction false} RunsKeepBase(cfg: Config, s: State, steps: seq<Step>)
    requires Base(cfg, s)
    ensures Base(cfg, After(cfg, s, steps))
    decreases |steps|
  {
    if steps != [] {
      RunsKeepBase(cfg, s, steps[..|steps| - 1]);
      StepKeepsBase(cfg, After(cfg, s, steps[..|steps| - 1]), steps[|steps| - 1]);
    }
  }

  lemma {:induction false} StepKeepsBase(cfg: Config, s: State, step: Step)
    requires Base(cfg, s)
    ensures Base(cfg, Do(cfg, s, step))
  {
    if Enabled(cfg, s, step) {
      var r := Do(cfg, s, step);
      if EndStep(step) {
        EndKeepsReaders(cfg, s, step);
      } else if NodeStep(step) {
        NodeKeepsReaders(cfg, s, step);
      } else if ListenerStep(step) {
        ListenerKeepsReaders(cfg, s, step);
      } else {
        GateStepsKeepEvents(cfg, s, step);
        ExecutorsStayOk(cfg, s, step);
        forall g ensures ApprovalOk(cfg, r, g) {
          assert ApprovalOk(cfg, s, g);
          GateKeepsApproval(cfg, s, step, g);
        }
      }
      forall p | p in cfg ensures Within(cfg, r, p, {}) {
        StepKeepsWithin(cfg, s, step, p, {});
      }
      forall g | IsInitGate(cfg, g) ensures BypassOk(cfg, r, g) {
        StepKeepsBypass(cfg, s, step, g);
      }
    }
  }

  lemma {:induction false} StepKeepsBypass(cfg: Config, s: State, step: Step, g: Gate)
    requires Base(cfg, s) && Enabled(cfg, s, step) && IsInitGate(cfg, g)
    ensures BypassOk(cfg, Do(cfg, s, step), g)
  {
    assert ApprovalOk(cfg, s, g) && BypassOk(cfg, s, g);
    StepKeepsUnapproved(cfg, s, step, g);
    StepKeepsRan(cfg, s, step, g);
  }

  lemma {:induction false} StepKeepsUnapproved(cfg: Config, s: State, step: Step, g: Gate)
    requires IsInitGate(cfg, g) && ApprovalOk(cfg, s, g) && BypassOk(cfg, s, g)
    ensures Unapproved(cfg, Do(cfg, s, step), g) ==> Within(cfg, Do(cfg, s, step), g.0, {g.1})
  {
    ApprovedGrows(cfg, s, step);
    if Unapproved(cfg, s, g) {
      UnapprovedWithin(cfg, s, g);
      StepKeepsWithin(cfg, s, step, g.0, {g.1});
    }
  }

  lemma {:induction false} StepKeepsRan(cfg: Config, s: State, step: Step, g: Gate)
    requires Enabled(cfg, s, step) && IsInitGate(cfg, g) && ApprovalOk(cfg, s, g) && BypassOk(cfg, s, g)
    ensures RanOk(cfg, Do(cfg, s, step), g)
  {
    if GateStep(step) {
      GateKeepsRan(cfg, s, step, g);
    } else {
      OthersLeaveGates(cfg, s, step);
      SameExecutors(s, Do(cfg, s, step), g);
    }
  }

  lemma {:induction false} OthersLeaveGates(cfg: Config, s: State, step: Step)
    requires Enabled(cfg, s, step) && !GateStep(step)
    ensures var r := Do(cfg, s, step); r.executors == s.executors && r.reason == s.reason && r.approved == s.approved
  {
  }

  lemma {:induction false} ApprovedGrows(cfg: Config, s: State, step: Step)
    ensures s.approved <= Do(cfg, s, step).approved
  {
  }

  lemma {:induction false} UnapprovedWithin(cfg: Config, s: State, g: Gate)
    requires IsInitGate(cfg, g) && ApprovalOk(cfg, s, g) && BypassOk(cfg, s, g) && Unapproved(cfg, s, g)
    ensures Within(cfg, s, g.0, {g.1}) && InitsWithin(cfg, s, g.0, {g.1})
  {
  }

  lemma {:induction false} GateKeepsRan(cfg: Config, s: State, step: Step, g: Gate)
    requires Enabled(cfg, s, step) && GateStep(step)
    requires IsInitGate(cfg, g) && ApprovalOk(cfg, s, g) && BypassOk(cfg, s, g)
    ensures RanOk(cfg, DoGate(cfg, s, step), g)
  {
    if step.Claim? && step.gate == g {
      if Unapproved(cfg, s, g) {
        UnapprovedWithin(cfg, s, g);
        ReadyCanRun(cfg, s, g, {g.1});
      }
      ClaimRan(cfg, s, step.pid, g);
    } else {
      NoNewRan(cfg, s, step, g);
    }
  }

  lemma {:induction false} ClaimRan(cfg: Config, s: State, pid: Pid, g: Gate)
    requires Enabled(cfg, s, Claim(pid, g)) && IsInitGate(cfg, g) && RanOk(cfg, s, g)
    requires Unapproved(cfg, s, g) ==> cfg[g.0].CanRun({g.1}, g.1)
    ensures RanOk(cfg, DoGate(cfg, s, Claim(pid, g)), g)
  {
  }

  /** Without a claim, whoever is at work on g was at work before, and starts to read only if g is not approved. */
  lemma {:induction false} NoNewRan(cfg: Config, s: State, step: Step, g: Gate)
    requires Enabled(cfg, s, step) && GateStep(step) && IsInitGate(cfg, g) && RanOk(cfg, s, g)
    requires !(step.Claim? && step.gate == g)
    ensures RanOk(cfg, DoGate(cfg, s, step), g)
  {
    if OperatorStep(step) {
      SameExecutors(s, DoGate(cfg, s, step), g);
    } else if g == GateOf(cfg, s, step) {
      assert HasExecutor(s, g);
      ExecutorKeepsRan(cfg, s, step, g);
    } else {
      NoNewExecutor(cfg, s, step, g);
    }
  }

  lemma {:induction false} NoNewExecutor(cfg: Config, s: State, step: Step, g: Gate)
    requires Enabled(cfg, s, step) && GateStep(step) && !OperatorStep(step) && g != GateOf(cfg, s, step)
    ensures var r := DoGate(cfg, s, step);
            && (forall pid :: pid in r.executors && r.executors[pid].gate == g ==>
                  pid in s.executors && r.executors[pid] == s.executors[pid])
            && (g in r.reason <==> g in s.reason) && (g in s.reason ==> r.reason[g] == s.reason[g])
            && r.approved == s.approved
  {
  }

  lemma {:induction false} ExecutorKeepsRan(cfg: Config, s: State, step: Step, g: Gate)
    requires Enabled(cfg, s, step) && GateStep(step) && !OperatorStep(step) && !step.Claim? && IsInitGate(cfg, g)
    requires g == GateOf(cfg, s, step) && RanOk(cfg, s, g) && HasExecutor(s, g)
    ensures RanOk(cfg, DoGate(cfg, s, step), g)
  {
  }

  ghost predicate ReadersOk(cfg: Config, s: State) {
    OutputsDeclared(cfg, s) && ReadersRight(cfg, s) && forall g :: ApprovalOk(cfg, s, g)
  }

  lemma {:induction false} EndKeepsReaders(cfg: Config, s: State, step: Step)
    requires Base(cfg, s) && EndStep(step) && Enabled(cfg, s, step)
    ensures ReadersOk(cfg, DoEnd(cfg, s, step))
  {
    var r := DoEnd(cfg, s, step);
    if step.EndPasses? {
      var e := s.ending[step.i];
      assert Within(cfg, s, e.0, {});
    }
    KeepsReaders(cfg, s, r);
  }

  lemma {:induction false} NodeKeepsReaders(cfg: Config, s: State, step: Step)
    requires Base(cfg, s) && NodeStep(step)
    ensures ReadersOk(cfg, DoNode(s, step))
  {
    KeepsReaders(cfg, s, DoNode(s, step));
  }

  lemma {:induction false} KeepsReaders(cfg: Config, s: State, r: State)
    requires Base(cfg, s) && s.outputs <= r.outputs && r.listeners == s.listeners && r.executors == s.executors
    requires r.status == s.status && r.reason == s.reason && r.approved == s.approved
    ensures ReadersRight(cfg, r) && forall g :: ApprovalOk(cfg, r, g)
  {
    forall pid | pid in r.listeners ensures ListenerOk(cfg, r, r.listeners[pid]) {
      assert ListenerOk(cfg, s, s.listeners[pid]);
    }
    forall pid | pid in r.executors ensures ExecutorOk(cfg, r, r.executors[pid]) {
      assert ExecutorOk(cfg, s, s.executors[pid]);
    }
    forall g ensures ApprovalOk(cfg, r, g) {
      assert ApprovalOk(cfg, s, g);
      SameExecutors(s, r, g);
    }
  }

  lemma {:induction false} ListenerKeepsReaders(cfg: Config, s: State, step: Step)
    requires Base(cfg, s) && ListenerStep(step) && Enabled(cfg, s, step)
    ensures ReadersOk(cfg, DoListener(cfg, s, step))
  {
    var r := DoListener(cfg, s, step);
    ListenersStayOk(cfg, s, step);
    OthersLeaveGates(cfg, s, step);
    OnlyFlips(cfg, s, step);
    forall pid | pid in r.executors ensures ExecutorOk(cfg, r, r.executors[pid]) {
      assert ExecutorOk(cfg, s, s.executors[pid]);
    }
    forall g ensures ApprovalOk(cfg, r, g) {
      assert ApprovalOk(cfg, s, g);
      SameExecutors(s, r, g);
    }
  }

  lemma {:induction false} ListenersStayOk(cfg: Config, s: State, step: Step)
    requires ReadersRight(cfg, s) && ListenerStep(step) && Enabled(cfg, s, step)
    ensures var r := DoListener(cfg, s, step);
            r.outputs == s.outputs && forall pid :: pid in r.listeners ==> ListenerOk(cfg, r, r.listeners[pid])
  {
    var r := DoListener(cfg, s, step);
    forall pid | pid in r.listeners ensures ListenerOk(cfg, r, r.listeners[pid]) {
      if pid in s.listeners {
        assert ListenerOk(cfg, s, s.listeners[pid]);
      }
    }
  }

  lemma {:induction false} OnlyFlips(cfg: Config, s: State, step: Step)
    requires ListenerStep(step) && Enabled(cfg, s, step)
    ensures var r := DoListener(cfg, s, step);
            forall g :: StatusOf(r, g) == StatusOf(s, g) || (StatusOf(s, g) == InProgress && StatusOf(r, g) == Pending)
  {
  }

  lemma {:induction false} SameExecutors(s: State, r: State, g: Gate)
    requires r.executors == s.executors
    ensures HasExecutor(r, g) <==> HasExecutor(s, g)
    ensures HasNewExecutor(r, g) <==> HasNewExecutor(s, g)
  {
  }

  ghost predicate SameEvents(s: State, r: State) {
    && r.outputs == s.outputs && r.unsent == s.unsent && r.inFlight == s.inFlight && r.listeners == s.listeners
    && r.ending == s.ending && s.approved <= r.approved
  }

  lemma {:induction false} GateStepsKeepEvents(cfg: Config, s: State, step: Step)
    requires Enabled(cfg, s, step) && GateStep(step)
    ensures SameEvents(s, DoGate(cfg, s, step))
  {
  }

  lemma {:induction false} ExecutorsStayOk(cfg: Config, s: State, step: Step)
    requires ReadersRight(cfg, s) && Enabled(cfg, s, step) && GateStep(step)
    ensures ReadersRight(cfg, DoGate(cfg, s, step))
  {
    var r := DoGate(cfg, s, step);
    GateStepsKeepEvents(cfg, s, step);
    forall pid | pid in r.executors ensures ExecutorOk(cfg, r, r.executors[pid]) {
      if pid in s.executors {
        assert ExecutorOk(cfg, s, s.executors[pid]);
      }
    }
    forall pid | pid in r.listeners ensures ListenerOk(cfg, r, r.listeners[pid]) {
      assert ListenerOk(cfg, s, s.listeners[pid]);
    }
  }

  /** The gate a step works on. */
  function GateOf(cfg: Config, s: State, step: Step): Gate
    requires GateStep(step) && Enabled(cfg, s, step)
  {
    if step.Claim? || step.Approve? || step.Retry? || step.ReportGate? then step.gate else s.executors[step.pid].gate
  }

  lemma {:induction false} GateKeepsApproval(cfg: Config, s: State, step: Step, g: Gate)
    requires ReadersRight(cfg, s) && ApprovalOk(cfg, s, g) && Enabled(cfg, s, step) && GateStep(step)
    ensures ApprovalOk(cfg, DoGate(cfg, s, step), g)
  {
    if HasNewExecutor(s, g) {
      NewExecutorLeft(cfg, s, step, g);
    }
    if g != GateOf(cfg, s, step) {
      OtherKeepsApproval(cfg, s, step, g);
    } else if OperatorStep(step) {
      OperatorKeepsApproval(cfg, s, step);
    } else {
      assert step.Claim? || ExecutorOk(cfg, s, s.executors[step.pid]);
      ExecutorKeepsApproval(cfg, s, step, g);
    }
  }

  predicate OperatorStep(step: Step) {
    step.Approve? || step.Retry? || step.ReportGate?
  }

  lemma {:induction false} OtherKeepsApproval(cfg: Config, s: State, step: Step, g: Gate)
    requires Enabled(cfg, s, step) && GateStep(step) && g != GateOf(cfg, s, step) && ApprovalOk(cfg, s, g)
    requires HasNewExecutor(s, g) ==> HasNewExecutor(DoGate(cfg, s, step), g)
    ensures ApprovalOk(cfg, DoGate(cfg, s, step), g)
  {
  }

  lemma {:induction false} OperatorKeepsApproval(cfg: Config, s: State, step: Step)
    requires Enabled(cfg, s, step) && OperatorStep(step) && ApprovalOk(cfg, s, step.gate)
    ensures ApprovalOk(cfg, DoGate(cfg, s, step), step.gate)
  {
  }

  lemma {:induction false} ExecutorKeepsApproval(cfg: Config, s: State, step: Step, g: Gate)
    requires Enabled(cfg, s, step) && GateStep(step) && !OperatorStep(step) && g == GateOf(cfg, s, step)
    requires ApprovalOk(cfg, s, g) && IsInitGate(cfg, g)
    requires HasNewExecutor(s, g) ==> HasNewExecutor(DoGate(cfg, s, step), g) || step.CheckApproval?
    ensures ApprovalOk(cfg, DoGate(cfg, s, step), g)
  {
    var r := DoGate(cfg, s, step);
    if step.Claim? {
      assert r.executors[step.pid].gate == g;
    }
  }

  /** The only executor a gate step takes away before it has scanned is one that just found the approval. */
  lemma {:induction false} NewExecutorLeft(cfg: Config, s: State, step: Step, g: Gate)
    requires Enabled(cfg, s, step) && GateStep(step) && HasNewExecutor(s, g)
    ensures HasNewExecutor(DoGate(cfg, s, step), g)
            || (step.CheckApproval? && s.executors[step.pid].gate == g && !s.executors[step.pid].scanning)
  {
    var pid :| pid in s.executors && s.executors[pid].gate == g && !s.executors[pid].scanning;
    var r := DoGate(cfg, s, step);
    if step != CheckApproval(pid) {
      assert pid in r.executors && r.executors[pid] == s.executors[pid];
    }
  }

  // ---------------------------------------------------------------- no lost wake-up

  /** An output of some producer of plan c is on its way to c: not yet broadcast, not yet received, or with a
      listener that has not finished reading c's inputs. */
  ghost predicate Announced(cfg: Config, s: State, c: Plan) {
    || (exists p :: p in s.unsent && c in Dependents(cfg, p))
    || (exists p :: p in s.inFlight && c in Dependents(cfg, p))
    || (exists pid :: pid in s.listeners && ListenerCovers(s.listeners[pid], c))
  }

  predicate ListenerCovers(l: Listener, c: Plan) {
    c in l.todo || l.at == Some(c)
  }

  /** The gate was left in progress because an input was missing. */
  predicate BlockedOnInputs(s: State, g: Gate) {
    StatusOf(s, g) == InProgress && g in s.reason && s.reason[g] == OnInputs
  }

  /** Blocked on inputs that are all there, with nobody left to notice. */
  ghost predicate Lost(cfg: Config, s: State, g: Gate) {
    && BlockedOnInputs(s, g) && AllSatisfied(s.outputs, Inputs(cfg, g))
    && !Announced(cfg, s, g.0) && !HasExecutor(s, g)
  }

  predicate SelfInput(plan: Plan, input: PlanArtifact) {
    Produces(input, plan)
  }

  /** Init gate u and some End gate of the plan can both run, one after the other, without u being approved. */
  ghost predicate Bypassed(info: PlanInfo, u: string) {
    info.CanRun({u}, u) && exists e :: e in info.ends - info.gates && info.CanRun({u}, e)
  }

  /** The gate waits for something nobody can produce, or for no output of its own plan, or no End gate of its plan
      runs without its approval. */
  ghost predicate SafeGate(cfg: Config, g: Gate)
    requires g.0 in cfg
  {
    || (exists i :: 0 <= i < |cfg[g.0].inputs| && Hopeless(cfg, cfg[g.0].inputs[i]))
    || (forall i :: 0 <= i < |cfg[g.0].inputs| ==> !SelfInput(g.0, cfg[g.0].inputs[i]))
    || !Bypassed(cfg[g.0], g.1)
  }

  ghost predicate SafeConfig(cfg: Config) {
    forall g {:trigger SafeGate(cfg, g)} :: IsInitGate(cfg, g) ==> SafeGate(cfg, g)
  }

  /** What each reason for being in progress stands for. */
  ghost predicate GateOk(cfg: Config, s: State, g: Gate) {
    StatusOf(s, g) == InProgress && g in s.reason ==>
      match s.reason[g]
      case Reported => true
      case Running => HasExecutor(s, g)
      case OnApproval => AllSatisfied(s.outputs, Inputs(cfg, g))
      case OnInputs =>
        !AllSatisfied(s.outputs, Inputs(cfg, g)) || Announced(cfg, s, g.0) || HasExecutor(s, g)
  }

  ghost predicate Inv(cfg: Config, s: State) {
    Base(cfg, s) && forall g :: GateOk(cfg, s, g)
  }

  lemma {:induction false} RunsKeepInv(cfg: Config, steps: seq<Step>)
    requires SafeConfig(cfg)
    ensures Inv(cfg, After(cfg, Init, steps))
    decreases |steps|
  {
    if steps != [] {
      var front, last := steps[..|steps| - 1], steps[|steps| - 1];
      RunsKeepInv(cfg, front);
      var s := After(cfg, Init, front);
      StepKeepsBase(cfg, s, last);
      if Enabled(cfg, s, last) {
        forall g ensures GateOk(cfg, Do(cfg, s, last), g) {
          if EndStep(last) {
            EndKeepsGateOk(cfg, s, last, g);
          } else if NodeStep(last) {
            UntouchedGateOk(cfg, s, DoNode(s, last), g);
          } else if ListenerStep(last) {
            ListenerKeepsGateOk(cfg, s, last, g);
          } else if g == GateOf(cfg, s, last) {
            OwnGateOk(cfg, s, last, g);
          } else {
            GateStepsKeepEvents(cfg, s, last);
            OtherGateUntouched(cfg, s, last, g);
            UntouchedGateOk(cfg, s, DoGate(cfg, s, last), g);
          }
        }
      }
    }
  }

  /** Recording the last missing input of a safe gate announces it, or finds an executor at work on the gate. */
  lemma {:induction false} RecordingAnnounces(cfg: Config, s: State, step: Step, g: Gate)
    requires SafeConfig(cfg) && Base(cfg, s) && Enabled(cfg, s, step) && step.EndPasses? && IsInitGate(cfg, g)
    requires BlockedOnInputs(s, g) && !AllSatisfied(s.outputs, Inputs(cfg, g))
    ensures var r := DoEnd(cfg, s, step);
            !AllSatisfied(r.outputs, Inputs(cfg, g)) || Announced(cfg, r, g.0) || HasExecutor(r, g)
  {
    var r, c, e := DoEnd(cfg, s, step), g.0, s.ending[step.i];
    var p, inputs := e.0, cfg[c].inputs;
    assert SafeGate(cfg, g) && ApprovalOk(cfg, s, g) && BypassOk(cfg, s, g);
    EndKeepsReaders(cfg, s, step);
    if AllSatisfied(r.outputs, inputs) {
      var i :| 0 <= i < |inputs| && !Satisfied(s.outputs, inputs[i]);
      assert Satisfied(r.outputs, inputs[i]) && Produces(inputs[i], p);
      forall j | 0 <= j < |inputs| ensures !Hopeless(cfg, inputs[j]) {
        assert Satisfied(r.outputs, inputs[j]);
      }
      if c == p {
        assert SelfInput(c, inputs[i]);
        SameExecutors(s, r, g);
        if Unapproved(cfg, s, g) && !HasExecutor(s, g) {
          assert s.reason[g] != Reported;
          assert Bypassed(cfg[c], g.1);
        }
      } else {
        assert c in Dependents(cfg, p);
        assert InputProducer(inputs[i]).value.1 in cfg[p].outputs;
        assert r.unsent[|s.unsent|] == p;
      }
    }
  }

  lemma {:induction false} EndKeepsGateOk(cfg: Config, s: State, step: Step, g: Gate)
    requires SafeConfig(cfg) && Inv(cfg, s) && Enabled(cfg, s, step) && EndStep(step)
    ensures GateOk(cfg, DoEnd(cfg, s, step), g)
  {
    var r := DoEnd(cfg, s, step);
    assert GateOk(cfg, s, g) && ApprovalOk(cfg, s, g);
    SameExecutors(s, r, g);
    if BlockedOnInputs(s, g) {
      if Announced(cfg, s, g.0) {
        UnsentGrows(cfg, s, r, g.0);
      } else if step.EndPasses? && !HasExecutor(s, g) {
        RecordingAnnounces(cfg, s, step, g);
      }
    }
  }

  lemma {:induction false} UnsentGrows(cfg: Config, s: State, r: State, c: Plan)
    requires s.unsent <= r.unsent && r.inFlight == s.inFlight && r.listeners == s.listeners && Announced(cfg, s, c)
    ensures Announced(cfg, r, c)
  {
    if p :| p in s.unsent && c in Dependents(cfg, p) {
      assert p in r.unsent;
    }
  }

  /** Along the way of an event, its consumers stay announced until a listener finds an input missing or resets
      them. */
  lemma {:induction false} AnnouncedPersists(cfg: Config, s: State, step: Step, c: Plan)
    requires Base(cfg, s) && ListenerStep(step) && Enabled(cfg, s, step) && Announced(cfg, s, c) && c in cfg
    ensures var r := DoListener(cfg, s, step);
            || Announced(cfg, r, c)
            || !AllSatisfied(r.outputs, cfg[c].inputs)
            || (step.Flip? && s.listeners[step.pid].at == Some(c))
  {
    if p :| p in s.unsent && c in Dependents(cfg, p) {
      UnsentPersists(cfg, s, step, p);
    } else if p :| p in s.inFlight && c in Dependents(cfg, p) {
      InFlightPersists(cfg, s, step, p, c);
    } else {
      var pid :| pid in s.listeners && ListenerCovers(s.listeners[pid], c);
      CoverPersists(cfg, s, step, pid, c);
    }
  }

  lemma {:induction false} UnsentPersists(cfg: Config, s: State, step: Step, p: Plan)
    requires ListenerStep(step) && Enabled(cfg, s, step) && p in s.unsent
    ensures p in DoListener(cfg, s, step).unsent || p in DoListener(cfg, s, step).inFlight
  {
  }

  lemma {:induction false} InFlightPersists(cfg: Config, s: State, step: Step, p: Plan, c: Plan)
    requires ListenerStep(step) && Enabled(cfg, s, step) && p in s.inFlight && c in Dependents(cfg, p)
    ensures var r := DoListener(cfg, s, step);
            p in r.inFlight || exists pid :: pid in r.listeners && ListenerCovers(r.listeners[pid], c)
  {
    if step.Receive? {
      var r := DoListener(cfg, s, step);
      assert step.pid in r.listeners;
      assert p == s.inFlight[step.i] ==> ListenerCovers(r.listeners[step.pid], c);
    }
  }

  lemma {:induction false} CoverPersists(cfg: Config, s: State, step: Step, pid: Pid, c: Plan)
    requires ListenerStep(step) && Enabled(cfg, s, step) && pid in s.listeners && ListenerCovers(s.listeners[pid], c)
    requires c in cfg
    ensures var r := DoListener(cfg, s, step);
            || (pid in r.listeners && ListenerCovers(r.listeners[pid], c))
            || !AllSatisfied(r.outputs, cfg[c].inputs)
            || (step.Flip? && s.listeners[step.pid].at == Some(c))
  {
  }

  lemma {:induction false} ListenerKeepsGateOk(cfg: Config, s: State, step: Step, g: Gate)
    requires Inv(cfg, s) && Enabled(cfg, s, step) && ListenerStep(step)
    ensures GateOk(cfg, DoListener(cfg, s, step), g)
  {
    var r := DoListener(cfg, s, step);
    assert GateOk(cfg, s, g) && ApprovalOk(cfg, s, g);
    SameExecutors(s, r, g);
    if BlockedOnInputs(r, g) && Announced(cfg, s, g.0) {
      AnnouncedPersists(cfg, s, step, g.0);
    }
  }

  lemma {:induction false} AnnouncedSame(cfg: Config, s: State, r: State, c: Plan)
    requires SameEvents(s, r)
    ensures Announced(cfg, r, c) <==> Announced(cfg, s, c)
  {
  }

  /** Nothing about gate g changed, except that executors may have joined it. */
  ghost predicate SameGate(s: State, r: State, g: Gate) {
    && StatusOf(r, g) == StatusOf(s, g) && (g in r.reason <==> g in s.reason)
    && (g in s.reason ==> r.reason[g] == s.reason[g])
    && (HasExecutor(s, g) ==> HasExecutor(r, g))
  }

  lemma {:induction false} OthersKeepExecutor(cfg: Config, s: State, step: Step, g: Gate)
    requires Enabled(cfg, s, step) && GateStep(step) && g != GateOf(cfg, s, step) && HasExecutor(s, g)
    ensures HasExecutor(DoGate(cfg, s, step), g)
  {
    var pid :| pid in s.executors && s.executors[pid].gate == g;
    var r := DoGate(cfg, s, step);
    assert pid in r.executors && r.executors[pid].gate == g;
  }

  lemma {:induction false} OtherGateUntouched(cfg: Config, s: State, step: Step, g: Gate)
    requires Enabled(cfg, s, step) && GateStep(step) && g != GateOf(cfg, s, step)
    ensures SameGate(s, DoGate(cfg, s, step), g)
  {
    if HasExecutor(s, g) {
      OthersKeepExecutor(cfg, s, step, g);
    }
  }

  lemma {:induction false} UntouchedGateOk(cfg: Config, s: State, r: State, g: Gate)
    requires GateOk(cfg, s, g) && SameEvents(s, r) && SameGate(s, r, g)
    ensures GateOk(cfg, r, g)
  {
    AnnouncedSame(cfg, s, r, g.0);
  }

  lemma {:induction false} OwnGateOk(cfg: Config, s: State, step: Step, g: Gate)
    requires Inv(cfg, s) && Enabled(cfg, s, step) && GateStep(step) && g == GateOf(cfg, s, step)
    ensures GateOk(cfg, DoGate(cfg, s, step), g)
  {
    var r := DoGate(cfg, s, step);
    assert GateOk(cfg, s, g);
    GateStepsKeepEvents(cfg, s, step);
    if step.Claim? {
      assert r.executors[step.pid].gate == g;
    } else if !step.Approve? && !step.Retry? && !step.ReportGate? {
      assert ExecutorOk(cfg, s, s.executors[step.pid]);
      if step.pid in r.executors {
        assert r.executors[step.pid].gate == g;
        assert HasExecutor(r, g);
      }
    }
  }
}
