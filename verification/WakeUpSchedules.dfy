/** Schedules of the wake-up protocol. The counterexamples of WakeUpRuns are runs, and these lemmas compose them: an End
    gate gets its way by approvals alone, a producer records what somebody misses, an executor reads its inputs and
    blocks or fails, events are delivered and their listeners give up on a gate whose inputs are not complete. Each
    lemma returns the steps it takes and says what they leave behind. */
module WakeUpSchedules {
  import opened Util
  import opened Artifacts
  import opened NodeGraph
  import opened WakeUp

  // ---------------------------------------------------------------- composing runs

  lemma {:induction false} OneMore(cfg: Config, s: State, steps: seq<Step>, step: Step)
    ensures After(cfg, s, steps + [step]) == Do(cfg, After(cfg, s, steps), step)
  {
    assert (steps + [step])[..|steps|] == steps;
  }

  lemma {:induction false} OneStep(cfg: Config, s: State, step: Step)
    ensures After(cfg, s, [step]) == Do(cfg, s, step)
  {
    assert [step][..0] == [];
  }

  lemma {:induction false} Continue(cfg: Config, s: State, a: seq<Step>, b: seq<Step>)
    ensures After(cfg, s, a + b) == After(cfg, After(cfg, s, a), b)
    decreases |b|
  {
    if b == [] {
      assert a + b == a;
    } else {
      var front := b[..|b| - 1];
      Continue(cfg, s, a, front);
      assert (a + b)[..|a + b| - 1] == a + front;
    }
  }

  /** Nobody retries an Init gate, or reports its status. */
  predicate Quiet(steps: seq<Step>) {
    forall i :: 0 <= i < |steps| ==> !steps[i].Retry? && !steps[i].ReportGate?
  }

  predicate LeavesAlone(step: Step, g: Gate) {
    (step.Retry? || step.ReportGate?) ==> step.gate != g
  }

  /** Nobody retries gate g, or reports its status. */
  predicate NoRetryOf(steps: seq<Step>, g: Gate) {
    forall i :: 0 <= i < |steps| ==> LeavesAlone(steps[i], g)
  }

  // ---------------------------------------------------------------- getting nodes done

  /** Between s and r some nodes of plan p got done, and nothing else happened; the gates to avoid were not approved. */
  ghost predicate OnlyDone(s: State, r: State, p: Plan, avoid: set<string>) {
    && r == s.(status := r.status, approved := r.approved, started := r.started, done := r.done)
    && s.approved <= r.approved && s.done <= r.done
    && (forall g :: StatusOf(r, g) == StatusOf(s, g) || StatusOf(r, g) == Completed)
    && (forall n :: n in r.done + r.started && n !in s.done + s.started ==> n.0 == p)
    && (forall g :: g in r.status && g !in s.status ==> g.0 == p)
    && (forall g :: g in r.approved && g !in s.approved ==> g.0 == p && g.1 !in avoid)
  }

  ghost predicate AllDone(cfg: Config, s: State, p: Plan, nodes: set<string>) {
    forall d :: d in nodes ==> IsDone(cfg, s, (p, d))
  }

  lemma {:induction false} OnlyDoneThen(cfg: Config, s: State, t: State, r: State, p: Plan, avoid: set<string>,
                                        nodes: set<string>)
    requires OnlyDone(s, t, p, avoid) && OnlyDone(t, r, p, avoid)
    ensures OnlyDone(s, r, p, avoid)
    ensures AllDone(cfg, t, p, nodes) ==> AllDone(cfg, r, p, nodes)
  {
    if AllDone(cfg, t, p, nodes) {
      forall d | d in nodes ensures IsDone(cfg, r, (p, d)) {
        assert IsDone(cfg, t, (p, d));
      }
    }
  }

  /** The step or steps that get node n done: an approval, a report, or its start and completion. */
  lemma {:induction false} GetDone(cfg: Config, s: State, p: Plan, avoid: set<string>, n: string)
    returns (more: seq<Step>)
    requires p in cfg
    requires n in cfg[p].Free(avoid)
             || (n in cfg[p].needs && n !in cfg[p].gates && AllDone(cfg, s, p, cfg[p].needs[n]))
    ensures avoid == {} ==> Quiet(more)
    ensures OnlyDone(s, After(cfg, s, more), p, avoid) && IsDone(cfg, After(cfg, s, more), (p, n))
  {
    var node := (p, n);
    if n in cfg[p].gates {
      var step := if n in avoid then ReportGate(node, Completed) else Approve(node);
      OneStep(cfg, s, step);
      InitDone(cfg, s, p, avoid, n, step);
      more := [step];
    } else if n in cfg[p].Free(avoid) {
      var step := if n in cfg[p].reported then Report(node) else ApproveOther(node);
      OneStep(cfg, s, step);
      more := [step];
      assert Enabled(cfg, s, step) && After(cfg, s, more) == s.(done := s.done + {node});
    } else {
      OneStep(cfg, s, Start(node));
      OneMore(cfg, s, [Start(node)], Finish(node));
      more := [Start(node)] + [Finish(node)];
      StartedDone(cfg, s, node);
    }
  }

  lemma {:induction false} InitDone(cfg: Config, s: State, p: Plan, avoid: set<string>, n: string, step: Step)
    requires p in cfg && n in cfg[p].gates && n in cfg[p].Free(avoid)
    requires step == if n in avoid then ReportGate((p, n), Completed) else Approve((p, n))
    ensures OnlyDone(s, Do(cfg, s, step), p, avoid) && IsDone(cfg, Do(cfg, s, step), (p, n))
  {
  }

  lemma {:induction false} StartedDone(cfg: Config, s: State, n: Gate)
    requires IsOther(cfg, n) && n.1 in cfg[n.0].needs && n.1 !in cfg[n.0].ends && Ready(cfg, s, n)
    ensures Do(cfg, Do(cfg, s, Start(n)), Finish(n)) == s.(started := s.started + {n}, done := s.done + {n})
  {
    assert Do(cfg, s, Start(n)) == s.(started := s.started + {n});
  }

  /** A feasible order can be carried out. */
  lemma {:induction false} GetAllDone(cfg: Config, s: State, p: Plan, avoid: set<string>, order: seq<string>)
    returns (more: seq<Step>)
    requires p in cfg && Feasible(cfg[p].Graph(), cfg[p].Free(avoid), order)
    ensures avoid == {} ==> Quiet(more)
    ensures OnlyDone(s, After(cfg, s, more), p, avoid) && AllDone(cfg, After(cfg, s, more), p, Elems(order))
  {
    if order == [] {
      more := [];
    } else {
      var front, n := order[..|order| - 1], order[|order| - 1];
      var before := GetAllDone(cfg, s, p, avoid, front);
      var t := After(cfg, s, before);
      var last := GetDone(cfg, t, p, avoid, n);
      Continue(cfg, s, before, last);
      more := before + last;
      OnlyDoneThen(cfg, s, t, After(cfg, t, last), p, avoid, Elems(front));
      assert forall d :: d in Elems(order) ==> d in Elems(front) || d == n;
    }
  }

  /** All that these nodes need gets done. */
  lemma {:induction false} Prepare(cfg: Config, s: State, p: Plan, avoid: set<string>, nodes: set<string>)
    returns (more: seq<Step>)
    requires p in cfg && AllCan(cfg[p].Graph(), cfg[p].Free(avoid), nodes)
    ensures avoid == {} ==> Quiet(more)
    ensures OnlyDone(s, After(cfg, s, more), p, avoid) && AllDone(cfg, After(cfg, s, more), p, nodes)
  {
    var order := OneOrder(cfg[p].Graph(), cfg[p].Free(avoid), nodes);
    more := GetAllDone(cfg, s, p, avoid, order);
  }

  // ---------------------------------------------------------------- an End gate gets its way

  function Events(info: PlanInfo, p: Plan): (r: seq<Plan>)
    ensures OneEventPerOutput(info, p, r) && forall q :: q in r ==> q == p
  {
    seq(|info.outputs|, _ => p)
  }

  /** End gate e has run and passed. */
  ghost predicate Ended(cfg: Config, s: State, r: State, e: Gate)
    requires IsEndGate(cfg, e)
  {
    && r.outputs == s.outputs + OutputKeys(cfg[e.0], e.0) && r.unsent == s.unsent + Events(cfg[e.0], e.0)
    && r.ending == s.ending && r.executors == s.executors && r.inFlight == s.inFlight && r.listeners == s.listeners
    && (forall g :: StatusOf(s, g) == Completed ==> StatusOf(r, g) == Completed)
    && OthersUntouched(s, r, e.0)
  }

  ghost predicate OthersUntouched(s: State, r: State, p: Plan) {
    && (forall n :: n in r.done + r.started && n !in s.done + s.started ==> n.0 == p)
    && (forall g :: g in r.status && g !in s.status ==> g.0 == p)
    && (forall g :: g in r.approved && g !in s.approved ==> g.0 == p)
  }

  lemma {:induction false} RunEnd(cfg: Config, s: State, e: Gate) returns (more: seq<Step>)
    requires IsEndGate(cfg, e) && cfg[e.0].CanRun({}, e.1)
    ensures Quiet(more) && Ended(cfg, s, After(cfg, s, more), e)
  {
    var prepare := Prepare(cfg, s, e.0, {}, NeedsOf(cfg[e.0].Graph(), e.1));
    var t := After(cfg, s, prepare);
    var start := BeginEnd(cfg, t, e);
    Continue(cfg, s, prepare, start);
    var begun := prepare + start;
    var u := After(cfg, s, begun);
    var events := Events(cfg[e.0], e.0);
    assert u.ending[|s.ending|] == e && Remove(u.ending, |s.ending|) == s.ending;
    OneMore(cfg, s, begun, EndPasses(|s.ending|, events));
    more := begun + [EndPasses(|s.ending|, events)];
  }

  /** The operator retries the End gate, and it starts. */
  lemma {:induction false} BeginEnd(cfg: Config, s: State, e: Gate) returns (more: seq<Step>)
    requires IsEndGate(cfg, e) && e.1 !in NeedsOf(cfg[e.0].Graph(), e.1)
    requires AllDone(cfg, s, e.0, NeedsOf(cfg[e.0].Graph(), e.1))
    ensures Quiet(more) && After(cfg, s, more) == s.(done := s.done - {e}, ending := s.ending + [e])
  {
    OneStep(cfg, s, Reset(e));
    var t := s.(done := s.done - {e});
    assert After(cfg, s, [Reset(e)]) == t;
    forall d | d in NeedsOf(cfg[e.0].Graph(), e.1) ensures IsDone(cfg, t, (e.0, d)) {
      assert IsDone(cfg, s, (e.0, d));
    }
    OneMore(cfg, s, [Reset(e)], StartEnd(e));
    more := [Reset(e)] + [StartEnd(e)];
  }

  // ---------------------------------------------------------------- completed gates

  /** An executor of gate g that is past its look for an approval, or will find none, with nothing hopeless left to
      read: its verdict can still come. */
  ghost predicate VerdictPending(cfg: Config, s: State, pid: Pid, g: Gate) {
    && pid in s.executors && s.executors[pid].gate == g && (s.executors[pid].scanning || g !in s.approved)
    && forall i :: s.executors[pid].read <= i < |Inputs(cfg, g)| ==> !Hopeless(cfg, Inputs(cfg, g)[i])
  }

  ghost predicate NoVerdictPending(cfg: Config, s: State, g: Gate) {
    forall pid :: !VerdictPending(cfg, s, pid, g)
  }

  /** Whatever happens next, unless the operator retries the gate, or somebody reports its status. */
  ghost predicate StaysCompleted(cfg: Config, s: State, g: Gate) {
    forall more :: NoRetryOf(more, g) ==> StatusOf(After(cfg, s, more), g) == Completed
  }

  lemma {:induction false} NobodyReopens(cfg: Config, s: State, more: seq<Step>, g: Gate)
    requires Base(cfg, s) && StatusOf(s, g) == Completed && NoVerdictPending(cfg, s, g) && NoRetryOf(more, g)
    ensures StatusOf(After(cfg, s, more), g) == Completed && NoVerdictPending(cfg, After(cfg, s, more), g)
    decreases |more|
  {
    if more != [] {
      var front := more[..|more| - 1];
      NobodyReopens(cfg, s, front, g);
      RunsKeepBase(cfg, s, front);
      assert LeavesAlone(more[|more| - 1], g);
      var t := After(cfg, s, front);
      StepLeavesCompleted(cfg, t, more[|more| - 1], g);
    }
  }

  lemma {:induction false} StepLeavesCompleted(cfg: Config, s: State, step: Step, g: Gate)
    requires OutputsDeclared(cfg, s) && StatusOf(s, g) == Completed && NoVerdictPending(cfg, s, g)
    requires LeavesAlone(step, g)
    ensures StatusOf(Do(cfg, s, step), g) == Completed && NoVerdictPending(cfg, Do(cfg, s, step), g)
  {
    if Enabled(cfg, s, step) {
      CompletedUntilVerdict(cfg, s, step, g);
      var r := Do(cfg, s, step);
      forall pid ensures !VerdictPending(cfg, r, pid, g) {
        assert !VerdictPending(cfg, s, pid, g);
        if pid in r.executors && r.executors[pid].gate == g && (r.executors[pid].scanning || g !in r.approved) {
          NoNewReader(cfg, s, step, pid, g);
        }
      }
    }
  }

  lemma {:induction false} CompletedUntilVerdict(cfg: Config, s: State, step: Step, g: Gate)
    requires Enabled(cfg, s, step) && StatusOf(s, g) == Completed && NoVerdictPending(cfg, s, g) && LeavesAlone(step, g)
    ensures StatusOf(Do(cfg, s, step), g) == Completed
  {
    if step.Verdict? {
      assert !VerdictPending(cfg, s, step.pid, g);
    }
  }

  /** While gate g is completed, every reader of its inputs was one before, and has read at most one more since, a
      satisfied one. */
  lemma {:induction false} NoNewReader(cfg: Config, s: State, step: Step, pid: Pid, g: Gate)
    requires OutputsDeclared(cfg, s) && StatusOf(s, g) == Completed && Enabled(cfg, s, step)
    requires var r := Do(cfg, s, step);
             pid in r.executors && r.executors[pid].gate == g && (r.executors[pid].scanning || g !in r.approved)
    ensures pid in s.executors && s.executors[pid].gate == g && (s.executors[pid].scanning || g !in s.approved)
    ensures var now, was := Do(cfg, s, step).executors[pid].read, s.executors[pid].read;
            now == was
            || (now == was + 1 && was < |Inputs(cfg, g)| && !Hopeless(cfg, Inputs(cfg, g)[was]))
  {
    if GateStep(step) {
      ReaderStep(cfg, s, step, pid, g);
    } else {
      OthersLeaveGates(cfg, s, step);
    }
  }

  lemma {:induction false} ReaderStep(cfg: Config, s: State, step: Step, pid: Pid, g: Gate)
    requires OutputsDeclared(cfg, s) && StatusOf(s, g) == Completed && Enabled(cfg, s, step) && GateStep(step)
    requires var r := DoGate(cfg, s, step);
             pid in r.executors && r.executors[pid].gate == g && (r.executors[pid].scanning || g !in r.approved)
    ensures pid in s.executors && s.executors[pid].gate == g && (s.executors[pid].scanning || g !in s.approved)
    ensures var now, was := DoGate(cfg, s, step).executors[pid].read, s.executors[pid].read;
            now == was
            || (now == was + 1 && was < |Inputs(cfg, g)| && !Hopeless(cfg, Inputs(cfg, g)[was]))
  {
  }

  /** A pending verdict can come, and fail: whoever produces the missing inputs records them, the executor reads
      them. */
  lemma {:induction false} PendingVerdictFails(cfg: Config, s: State, pid: Pid, g: Gate) returns (more: seq<Step>)
    requires StatusOf(s, g) == Completed && VerdictPending(cfg, s, pid, g) && IsInitGate(cfg, g)
    ensures Quiet(more) && StatusOf(After(cfg, s, more), g) == Failed
  {
    if s.executors[pid].scanning {
      more := ScanFails(cfg, s, pid, g);
    } else {
      OneStep(cfg, s, CheckApproval(pid));
      var t := s.(executors := s.executors[pid := s.executors[pid].(scanning := true)]);
      assert After(cfg, s, [CheckApproval(pid)]) == t;
      var rest := ScanFails(cfg, t, pid, g);
      Continue(cfg, s, [CheckApproval(pid)], rest);
      more := [CheckApproval(pid)] + rest;
    }
  }

  lemma {:induction false} ScanFails(cfg: Config, s: State, pid: Pid, g: Gate) returns (more: seq<Step>)
    requires StatusOf(s, g) == Completed && VerdictPending(cfg, s, pid, g) && IsInitGate(cfg, g)
    requires s.executors[pid].scanning
    ensures Quiet(more) && StatusOf(After(cfg, s, more), g) == Failed
  {
    var n := |Inputs(cfg, g)|;
    var produce := ProduceInputs(cfg, s, pid, g, n);
    var t := After(cfg, s, produce);
    var scan := ReadAll(cfg, t, pid);
    Continue(cfg, s, produce, scan);
    var u := After(cfg, t, scan);
    OneMore(cfg, s, produce + scan, Verdict(pid, false));
    more := produce + scan + [Verdict(pid, false)];
    VerdictFails(cfg, u, pid);
  }

  lemma {:induction false} VerdictFails(cfg: Config, s: State, pid: Pid)
    requires pid in s.executors && ScannedAll(cfg, s.executors[pid])
    ensures StatusOf(Do(cfg, s, Verdict(pid, false)), s.executors[pid].gate) == Failed
  {
  }

  /** Executors untouched, outputs kept, the gate still completed. */
  ghost predicate Undisturbed(s: State, r: State, g: Gate) {
    && r.executors == s.executors && s.outputs <= r.outputs
    && (StatusOf(s, g) == Completed ==> StatusOf(r, g) == Completed)
  }

  /** The inputs up to the k-th that the executor has not read yet are produced. */
  lemma {:induction false} ProduceInputs(cfg: Config, s: State, pid: Pid, g: Gate, k: nat) returns (more: seq<Step>)
    requires VerdictPending(cfg, s, pid, g) && k <= |Inputs(cfg, g)|
    ensures Quiet(more) && Undisturbed(s, After(cfg, s, more), g)
    ensures forall i :: s.executors[pid].read <= i < k ==> Satisfied(After(cfg, s, more).outputs, Inputs(cfg, g)[i])
  {
    if k <= s.executors[pid].read {
      more := [];
    } else {
      var before := ProduceInputs(cfg, s, pid, g, k - 1);
      var t := After(cfg, s, before);
      var produce := ProduceInput(cfg, t, Inputs(cfg, g)[k - 1], g);
      Continue(cfg, s, before, produce);
      more := before + produce;
    }
  }

  lemma {:induction false} ProduceInput(cfg: Config, s: State, input: PlanArtifact, g: Gate) returns (more: seq<Step>)
    requires !Hopeless(cfg, input)
    ensures Quiet(more) && Undisturbed(s, After(cfg, s, more), g) && Satisfied(After(cfg, s, more).outputs, input)
  {
    var key := InputProducer(input).value;
    var id :| id in cfg[key.0].ends - cfg[key.0].gates && cfg[key.0].CanRun({}, id);
    more := RunEnd(cfg, s, (key.0, id));
    assert key in OutputKeys(cfg[key.0], key.0);
  }

  /** An executor whose inputs are all there reads them to the end. */
  lemma {:induction false} ReadAll(cfg: Config, s: State, pid: Pid) returns (more: seq<Step>)
    requires pid in s.executors && s.executors[pid].scanning && s.executors[pid].gate.0 in cfg
    requires var e := s.executors[pid];
             forall i :: e.read <= i < |Inputs(cfg, e.gate)| ==> Satisfied(s.outputs, Inputs(cfg, e.gate)[i])
    ensures Quiet(more)
    ensures var r, e := After(cfg, s, more), s.executors[pid];
            && r.status == s.status && pid in r.executors && r.executors[pid].gate == e.gate
            && ScannedAll(cfg, r.executors[pid])
    decreases |Inputs(cfg, s.executors[pid].gate)| - s.executors[pid].read
  {
    var e := s.executors[pid];
    if e.read >= |Inputs(cfg, e.gate)| {
      more := [];
    } else {
      OneStep(cfg, s, ReadInput(pid));
      var t := s.(executors := s.executors[pid := e.(read := e.read + 1)]);
      assert After(cfg, s, [ReadInput(pid)]) == t;
      var rest := ReadAll(cfg, t, pid);
      Continue(cfg, s, [ReadInput(pid)], rest);
      more := [ReadInput(pid)] + rest;
    }
  }

  lemma {:induction false} StartExecutor(cfg: Config, s: State, pid: Pid, g: Gate) returns (more: seq<Step>)
    requires Enabled(cfg, s, Claim(pid, g)) && g !in s.approved
    ensures After(cfg, s, more) == s.(status := s.status[g := InProgress], reason := s.reason[g := Running],
                                      executors := s.executors[pid := Executor(g, true, 0)])
  {
    OneStep(cfg, s, Claim(pid, g));
    var s1 := s.(status := s.status[g := InProgress], reason := s.reason[g := Running],
                 executors := s.executors[pid := Executor(g, false, 0)]);
    assert After(cfg, s, [Claim(pid, g)]) == s1;
    OneMore(cfg, s, [Claim(pid, g)], CheckApproval(pid));
    more := [Claim(pid, g)] + [CheckApproval(pid)];
    assert s1.executors[pid := Executor(g, true, 0)] == s.executors[pid := Executor(g, true, 0)];
  }

  /** The operator sets the gate back, it is claimed, and its executor starts to read. */
  lemma {:induction false} ClaimAgain(cfg: Config, s: State, g: Gate) returns (more: seq<Step>)
    requires IsInitGate(cfg, g) && g !in s.approved && s.executors == map[]
    requires g.1 !in NeedsOf(cfg[g.0].Graph(), g.1) && AllDone(cfg, s, g.0, NeedsOf(cfg[g.0].Graph(), g.1))
    ensures After(cfg, s, more) == s.(status := s.status[g := InProgress], reason := s.reason[g := Running],
                                      executors := map[0 := Executor(g, true, 0)])
  {
    OneStep(cfg, s, Retry(g));
    var t := s.(status := s.status[g := Pending]);
    assert After(cfg, s, [Retry(g)]) == t;
    forall d | d in NeedsOf(cfg[g.0].Graph(), g.1) ensures IsDone(cfg, t, (g.0, d)) {
      assert IsDone(cfg, s, (g.0, d));
    }
    var start := StartExecutor(cfg, t, 0, g);
    Continue(cfg, s, [Retry(g)], start);
    more := [Retry(g)] + start;
    assert t.status[g := InProgress] == s.status[g := InProgress];
    assert s.executors[0 := Executor(g, true, 0)] == map[0 := Executor(g, true, 0)];
  }

  /** The operator approves just after the executor looked. */
  lemma {:induction false} OverlookedApproval(cfg: Config, g: Gate) returns (steps: seq<Step>)
    requires IsInitGate(cfg, g) && forall i :: 0 <= i < |Inputs(cfg, g)| ==> !Hopeless(cfg, Inputs(cfg, g)[i])
    requires cfg[g.0].CanRun({g.1}, g.1)
    ensures var s := After(cfg, Init, steps);
            StatusOf(s, g) == Completed && g in s.approved && VerdictPending(cfg, s, 0, g)
  {
    var prepare := Prepare(cfg, Init, g.0, {g.1}, NeedsOf(cfg[g.0].Graph(), g.1));
    var s := After(cfg, Init, prepare);
    var claim := ClaimAgain(cfg, s, g);
    Continue(cfg, Init, prepare, claim);
    OneMore(cfg, Init, prepare + claim, Approve(g));
    steps := prepare + claim + [Approve(g)];
    assert After(cfg, Init, steps).executors[0] == Executor(g, true, 0);
  }

  // ---------------------------------------------------------------- a wake-up that is lost

  /** A gate blocked on nothing but its own plan's outputs is lost when a running End gate of its plan records them. */
  lemma {:induction false} OwnRecordLoses(cfg: Config, s: State, g: Gate, e: Gate)
    requires BlockedOnInputs(s, g) && e.0 == g.0 && e.0 in cfg && s.ending == [e]
    requires s.unsent == [] && s.inFlight == [] && s.executors == map[]
    requires forall pid :: pid in s.listeners ==> !ListenerCovers(s.listeners[pid], g.0)
    requires forall i :: 0 <= i < |Inputs(cfg, g)| ==>
               !Hopeless(cfg, Inputs(cfg, g)[i])
               && (SelfInput(g.0, Inputs(cfg, g)[i]) || Satisfied(s.outputs, Inputs(cfg, g)[i]))
    ensures Lost(cfg, Do(cfg, s, EndPasses(0, Events(cfg[e.0], e.0))), g)
  {
    var r := Do(cfg, s, EndPasses(0, Events(cfg[e.0], e.0)));
    assert r.outputs == s.outputs + OutputKeys(cfg[e.0], e.0);
    forall i | 0 <= i < |Inputs(cfg, g)| ensures Satisfied(r.outputs, Inputs(cfg, g)[i]) {
      assert !Hopeless(cfg, Inputs(cfg, g)[i]);
    }
    assert BlockedOnInputs(r, g);
    assert [] + Events(cfg[e.0], e.0) == Events(cfg[e.0], e.0);
    assert !Announced(cfg, r, g.0) && !HasExecutor(r, g);
  }

  /** The End gate starts without gate g having been approved, and the operator approves it while it runs; then g is
      claimed. */
  lemma {:induction false} EndThenClaim(cfg: Config, s: State, g: Gate, e: Gate) returns (more: seq<Step>)
    requires IsInitGate(cfg, g) && g !in s.approved && s.executors == map[] && s.ending == []
    requires IsEndGate(cfg, e) && e.0 == g.0 && cfg[g.0].CanRun({g.1}, g.1) && cfg[g.0].CanRun({g.1}, e.1)
    ensures var r := After(cfg, s, more);
            && r == s.(status := r.status, approved := r.approved, started := r.started, done := r.done,
                       reason := s.reason[g := Running], ending := [e], executors := map[0 := Executor(g, true, 0)])
            && StatusOf(r, g) == InProgress
  {
    var graph := cfg[g.0].Graph();
    var prepare := Prepare(cfg, s, g.0, {g.1}, NeedsOf(graph, g.1) + NeedsOf(graph, e.1));
    var t := After(cfg, s, prepare);
    var begin := BeginEnd(cfg, t, e);
    Continue(cfg, s, prepare, begin);
    var u := After(cfg, s, prepare + begin);
    OneMore(cfg, s, prepare + begin, ApproveOther(e));
    var v := u.(done := u.done + {e});
    assert After(cfg, s, prepare + begin + [ApproveOther(e)]) == v;
    forall d | d in NeedsOf(graph, g.1) ensures IsDone(cfg, v, (g.0, d)) {
      assert IsDone(cfg, t, (g.0, d));
    }
    var claim := ClaimAgain(cfg, v, g);
    Continue(cfg, s, prepare + begin + [ApproveOther(e)], claim);
    more := prepare + begin + [ApproveOther(e)] + claim;
  }

  // ---------------------------------------------------------------- the other inputs come first

  /** Nothing is on its way to plan c, none of c's own outputs is recorded, none of its gates has been touched. */
  ghost predicate Calm(s: State, c: Plan, n: nat) {
    && s.executors == map[] && s.inFlight == [] && s.ending == []
    && (forall g :: g in s.status || g in s.approved || g in s.done || g in s.started ==> g.0 != c)
    && (forall k :: k in s.outputs ==> k.0 != c)
    && (forall pid :: pid in s.listeners ==> pid < n && !ListenerCovers(s.listeners[pid], c))
  }

  predicate Missing(outputs: set<Key>, inputs: seq<PlanArtifact>, i: nat) {
    i < |inputs| && !Satisfied(outputs, inputs[i])
  }

  /** A listener that is at plan c gives up at the first missing input. */
  lemma {:induction false} ListenerGivesUp(cfg: Config, s: State, pid: Pid, i: nat) returns (more: seq<Step>)
    requires pid in s.listeners && s.listeners[pid].at.Some? && s.listeners[pid].at.value in cfg
    requires s.listeners[pid].read <= i && Missing(s.outputs, cfg[s.listeners[pid].at.value].inputs, i)
    ensures After(cfg, s, more) == s.(listeners := s.listeners[pid := s.listeners[pid].(at := None, read := 0)])
    decreases i - s.listeners[pid].read
  {
    var l := s.listeners[pid];
    OneStep(cfg, s, Read(pid));
    more := [Read(pid)];
    if Satisfied(s.outputs, cfg[l.at.value].inputs[l.read]) {
      var t := s.(listeners := s.listeners[pid := l.(read := l.read + 1)]);
      assert After(cfg, s, more) == t;
      var rest := ListenerGivesUp(cfg, t, pid, i);
      Continue(cfg, s, more, rest);
      more := more + rest;
      assert t.listeners[pid := l.(at := None, read := 0)] == s.listeners[pid := l.(at := None, read := 0)];
    }
  }

  /** Likewise an executor leaves its gate blocked on inputs. */
  lemma {:induction false} ExecutorBlocks(cfg: Config, s: State, pid: Pid, i: nat) returns (more: seq<Step>)
    requires pid in s.executors && s.executors[pid].scanning && s.executors[pid].gate.0 in cfg
    requires s.executors[pid].read <= i && Missing(s.outputs, cfg[s.executors[pid].gate.0].inputs, i)
    ensures After(cfg, s, more)
            == s.(reason := s.reason[s.executors[pid].gate := OnInputs], executors := s.executors - {pid})
    decreases i - s.executors[pid].read
  {
    var e := s.executors[pid];
    OneStep(cfg, s, ReadInput(pid));
    more := [ReadInput(pid)];
    if Satisfied(s.outputs, cfg[e.gate.0].inputs[e.read]) {
      var t := s.(executors := s.executors[pid := e.(read := e.read + 1)]);
      assert After(cfg, s, more) == t;
      var rest := ExecutorBlocks(cfg, t, pid, i);
      Continue(cfg, s, more, rest);
      more := more + rest;
      assert t.executors - {pid} == s.executors - {pid};
    }
  }

  /** The first unsent event is broadcast and received. */
  lemma {:induction false} DeliverFirst(cfg: Config, s: State, n: nat) returns (more: seq<Step>)
    requires s.unsent != [] && s.inFlight == [] && n !in s.listeners
    ensures var l := Listener(s.unsent[0], Dependents(cfg, s.unsent[0]), None, 0);
            After(cfg, s, more) == s.(unsent := s.unsent[1..], listeners := s.listeners[n := l])
  {
    var p := s.unsent[0];
    OneStep(cfg, s, Send(0));
    var s1 := s.(unsent := s.unsent[1..], inFlight := [p]);
    assert Remove(s.unsent, 0) == s.unsent[1..] && [] + [p] == [p];
    assert After(cfg, s, [Send(0)]) == s1;
    OneMore(cfg, s, [Send(0)], Receive(0, n));
    more := [Send(0)] + [Receive(0, n)];
    assert Remove([p], 0) == [];
  }

  /** The first unsent event is delivered and dealt with as far as c is concerned. */
  lemma {:induction false} DeliverOne(cfg: Config, s: State, c: Plan, n: nat, i: nat) returns (more: seq<Step>)
    requires Calm(s, c, n) && s.unsent != [] && c in Dependents(cfg, s.unsent[0])
        && Missing(s.outputs, cfg[c].inputs, i)
    ensures var r := After(cfg, s, more); Calm(r, c, n + 1) && r.unsent == s.unsent[1..] && r.outputs == s.outputs
  {
    var p := s.unsent[0];
    var receive := DeliverFirst(cfg, s, n);
    var t := After(cfg, s, receive);
    OneMore(cfg, s, receive, Pick(n, c));
    var pick := receive + [Pick(n, c)];
    var u := After(cfg, s, pick);
    assert u.listeners[n] == Listener(p, Dependents(cfg, p) - {c}, Some(c), 0);
    var rest := ListenerGivesUp(cfg, u, n, i);
    Continue(cfg, s, pick, rest);
    more := pick + rest;
  }

  lemma {:induction false} DeliverAll(cfg: Config, s: State, c: Plan, n: nat, i: nat) returns (more: seq<Step>, m: nat)
    requires Calm(s, c, n) && c in cfg && (forall p :: p in s.unsent ==> c in Dependents(cfg, p))
    requires Missing(s.outputs, cfg[c].inputs, i)
    ensures var r := After(cfg, s, more); Calm(r, c, m) && r.unsent == [] && r.outputs == s.outputs
    decreases |s.unsent|
  {
    if s.unsent == [] {
      more, m := [], n;
    } else {
      var first := DeliverOne(cfg, s, c, n, i);
      var rest;
      rest, m := DeliverAll(cfg, After(cfg, s, first), c, n + 1, i);
      Continue(cfg, s, first, rest);
      more := first + rest;
    }
  }

  /** The producer of another plan's input passes its End gate. */
  lemma {:induction false} RecordOne(cfg: Config, s: State, c: Plan, n: nat, k: nat, self: nat)
    returns (more: seq<Step>)
    requires c in cfg && k < |cfg[c].inputs| && !SelfInput(c, cfg[c].inputs[k]) && !Hopeless(cfg, cfg[c].inputs[k])
    requires self < |cfg[c].inputs| && SelfInput(c, cfg[c].inputs[self])
    requires Calm(s, c, n) && s.unsent == []
    ensures var r := After(cfg, s, more);
            && Calm(r, c, n) && s.outputs <= r.outputs && Satisfied(r.outputs, cfg[c].inputs[k])
            && Missing(r.outputs, cfg[c].inputs, self)
            && forall p :: p in r.unsent ==> c in Dependents(cfg, p)
  {
    var input := cfg[c].inputs[k];
    var key := InputProducer(input).value;
    var p := key.0;
    var id :| id in cfg[p].ends - cfg[p].gates && cfg[p].CanRun({}, id);
    more := RunEnd(cfg, s, (p, id));
    assert key in OutputKeys(cfg[p], p);
    assert [] + Events(cfg[p], p) == Events(cfg[p], p);
    assert Produces(input, p) && c in Dependents(cfg, p);
  }

  /** All inputs of c that other plans produce, up to the k-th, get recorded and their events delivered. */
  lemma {:induction false} RecordOthers(cfg: Config, c: Plan, k: nat, self: nat) returns (steps: seq<Step>, n: nat)
    requires c in cfg && k <= |cfg[c].inputs| && self < |cfg[c].inputs| && SelfInput(c, cfg[c].inputs[self])
    requires forall i :: 0 <= i < |cfg[c].inputs| ==> !Hopeless(cfg, cfg[c].inputs[i])
    ensures var s := After(cfg, Init, steps);
            && Calm(s, c, n) && s.unsent == []
            && forall i :: 0 <= i < k && !SelfInput(c, cfg[c].inputs[i]) ==> Satisfied(s.outputs, cfg[c].inputs[i])
  {
    if k == 0 {
      steps, n := [], 0;
    } else {
      steps, n := RecordOthers(cfg, c, k - 1, self);
      if !SelfInput(c, cfg[c].inputs[k - 1]) {
        var s := After(cfg, Init, steps);
        var record := RecordOne(cfg, s, c, n, k - 1, self);
        Continue(cfg, Init, steps, record);
        var t := After(cfg, s, record);
        var n0 := n;
        var deliver;
        deliver, n := DeliverAll(cfg, t, c, n0, self);
        Continue(cfg, Init, steps + record, deliver);
        steps := steps + record + deliver;
        var r := After(cfg, t, deliver);
        forall i | 0 <= i < k && !SelfInput(c, cfg[c].inputs[i]) ensures Satisfied(r.outputs, cfg[c].inputs[i]) {
          if i < k - 1 {
            assert Satisfied(s.outputs, cfg[c].inputs[i]);
          }
        }
      }
    }
  }
}
