/** How the wake-up protocol comes to rest by itself. Who is at work where: listeners only at plans that consume
    what was recorded, executors only at gates of known plans. What the steps of the system itself, without
    operators, reports or starts, do to one gate. And how each part finishes: End gates stop, events go out and
    arrive, listeners work through their plans, executors come to a verdict. WakeUpProgress puts these together
    (server-rs/src/artifacts.rs). */
module WakeUpRest {
  import opened Util
  import opened Artifacts
  import opened NodeGraph
  import opened WakeUp
  import opened WakeUpSchedules
  import opened WakeUpRuns

  /** Plan c declares an input from plan p, which is another one. */
  ghost predicate Consumes(cfg: Config, c: Plan, p: Plan) {
    c in cfg && c != p && exists i :: 0 <= i < |cfg[c].inputs| && cfg[c].inputs[i].fromPlan == Some(p)
  }

  lemma {:induction false} ConsumersExactly(cfg: Config, c: Plan, p: Plan)
    ensures c in Dependents(cfg, p) <==> Consumes(cfg, c, p)
  {
    if c in cfg && DependsOnPlan(cfg[c].inputs, p) {
      var i :| 0 <= i < |cfg[c].inputs| && Produces(cfg[c].inputs[i], p);
      assert cfg[c].inputs[i].fromPlan == Some(p);
    }
    if Consumes(cfg, c, p) {
      var i :| 0 <= i < |cfg[c].inputs| && cfg[c].inputs[i].fromPlan == Some(p);
      assert Produces(cfg[c].inputs[i], p);
    }
  }

  // ---------------------------------------------------------------- who is at work where

  /** A listener only deals with plans that consume what its producer recorded. */
  ghost predicate OnConsumers(cfg: Config, l: Listener) {
    && (forall c :: c in l.todo ==> Consumes(cfg, c, l.producer))
    && (l.at.Some? ==> Consumes(cfg, l.at.value, l.producer))
  }

  ghost predicate Roster(cfg: Config, s: State) {
    && (forall pid :: pid in s.listeners ==> OnConsumers(cfg, s.listeners[pid]))
    && (forall pid :: pid in s.executors ==> s.executors[pid].gate.0 in cfg)
  }

  lemma {:induction false} StepKeepsRoster(cfg: Config, s: State, step: Step)
    requires Roster(cfg, s)
    ensures Roster(cfg, Do(cfg, s, step))
  {
    if Enabled(cfg, s, step) {
      if ListenerStep(step) {
        ListenersKnow(cfg, s, step);
      } else if GateStep(step) {
        ExecutorsKnow(cfg, s, step);
      }
    }
  }

  lemma {:induction false} ListenersKnow(cfg: Config, s: State, step: Step)
    requires Roster(cfg, s) && Enabled(cfg, s, step) && ListenerStep(step)
    ensures Roster(cfg, DoListener(cfg, s, step))
  {
    if step.Receive? {
      forall c | c in Dependents(cfg, s.inFlight[step.i]) ensures Consumes(cfg, c, s.inFlight[step.i]) {
        ConsumersExactly(cfg, c, s.inFlight[step.i]);
      }
    }
  }

  lemma {:induction false} ExecutorsKnow(cfg: Config, s: State, step: Step)
    requires Roster(cfg, s) && Enabled(cfg, s, step) && GateStep(step)
    ensures Roster(cfg, DoGate(cfg, s, step))
  {
  }

  lemma {:induction false} RunsKeepRoster(cfg: Config, s: State, steps: seq<Step>)
    requires Roster(cfg, s)
    ensures Roster(cfg, After(cfg, s, steps))
  {
    if steps != [] {
      RunsKeepRoster(cfg, s, steps[..|steps| - 1]);
      StepKeepsRoster(cfg, After(cfg, s, steps[..|steps| - 1]), steps[|steps| - 1]);
    }
  }

  // ---------------------------------------------------------------- coming to rest

  /** The steps of the system itself: no operator, no report, nothing started. */
  predicate ByItself(step: Step) {
    ListenerStep(step) || step.EndFails? || step.CheckApproval? || step.ReadInput? || step.Verdict?
  }

  predicate AllByItself(steps: seq<Step>) {
    forall i :: 0 <= i < |steps| ==> ByItself(steps[i])
  }

  /** As far as gate g goes, nothing happened but perhaps its reset. */
  ghost predicate AtMostReset(s: State, r: State, g: Gate) {
    && r.outputs == s.outputs && (StatusOf(r, g) == StatusOf(s, g) || StatusOf(r, g) == Pending)
    && (!HasExecutor(s, g) ==> !HasExecutor(r, g) && (g in r.reason <==> g in s.reason)
                               && (g in s.reason ==> r.reason[g] == s.reason[g]))
  }

  /** An own step changes gate g at most by a reset, unless an executor is at work on it. */
  lemma {:induction false} OwnStep(cfg: Config, s: State, step: Step, g: Gate)
    requires ByItself(step) && !HasExecutor(s, g)
    ensures AtMostReset(s, Do(cfg, s, step), g)
  {
    if Enabled(cfg, s, step) {
      if GateStep(step) {
        ExecutorElsewhere(cfg, s, step, g);
      } else {
        OthersLeaveGates(cfg, s, step);
        SameExecutors(s, Do(cfg, s, step), g);
        OnlyFlipResets(cfg, s, step, g);
      }
    }
  }

  lemma {:induction false} ExecutorElsewhere(cfg: Config, s: State, step: Step, g: Gate)
    requires Enabled(cfg, s, step) && !HasExecutor(s, g)
    requires step.CheckApproval? || step.ReadInput? || step.Verdict?
    ensures AtMostReset(s, DoGate(cfg, s, step), g)
  {
    assert s.executors[step.pid].gate != g;
  }

  lemma {:induction false} OnlyFlipResets(cfg: Config, s: State, step: Step, g: Gate)
    requires Enabled(cfg, s, step) && (ListenerStep(step) || step.EndFails?)
    ensures var r := Do(cfg, s, step);
            r.outputs == s.outputs && (StatusOf(r, g) == StatusOf(s, g) || StatusOf(r, g) == Pending)
  {
  }

  lemma {:induction false} OwnSteps(cfg: Config, s: State, steps: seq<Step>, g: Gate)
    requires AllByItself(steps) && !HasExecutor(s, g)
    ensures AtMostReset(s, After(cfg, s, steps), g)
  {
    if steps != [] {
      OwnSteps(cfg, s, steps[..|steps| - 1], g);
      OwnStep(cfg, After(cfg, s, steps[..|steps| - 1]), steps[|steps| - 1], g);
    }
  }

  /** Nothing but the listeners and the gates' statuses differs. */
  ghost predicate ListenersOnly(s: State, r: State) {
    r == s.(listeners := r.listeners, status := r.status)
  }

  /** A listener works through its plans and leaves. */
  lemma {:induction false} ListenerLeaves(cfg: Config, s: State, pid: Pid) returns (more: seq<Step>)
    requires pid in s.listeners && OnConsumers(cfg, s.listeners[pid])
    ensures AllByItself(more)
    ensures var r := After(cfg, s, more); ListenersOnly(s, r) && r.listeners == s.listeners - {pid}
    decreases |s.listeners[pid].todo|, Unread(cfg, s.listeners[pid])
  {
    var step := ListenerMoves(cfg, s, pid);
    var t := Do(cfg, s, step);
    OneStep(cfg, s, step);
    more := [step];
    if !step.Leave? {
      var rest := ListenerLeaves(cfg, t, pid);
      Continue(cfg, s, more, rest);
      more := more + rest;
      assert t.listeners - {pid} == s.listeners - {pid};
    }
  }

  lemma {:induction false} ListenerMoves(cfg: Config, s: State, pid: Pid) returns (step: Step)
    requires pid in s.listeners && OnConsumers(cfg, s.listeners[pid])
    ensures ListenerStep(step) && ListenersOnly(s, Do(cfg, s, step))
    ensures if step.Leave? then Do(cfg, s, step).listeners == s.listeners - {pid}
            else Nearer(cfg, s, Do(cfg, s, step), pid)
  {
    var l := s.listeners[pid];
    if l.at.Some? && l.read < |cfg[l.at.value].inputs| {
      step := Read(pid);
      ListenerReads(cfg, s, pid);
    } else if l.at.Some? {
      step := Flip(pid);
      ListenerFlips(cfg, s, pid);
    } else if c :| c in l.todo {
      step := Pick(pid, c);
      ListenerPicks(cfg, s, pid, c);
    } else {
      step := Leave(pid);
    }
  }

  /** What is left to read at the plan a listener is at. */
  function Unread(cfg: Config, l: Listener): nat {
    if l.at.None? || l.at.value !in cfg then 0
    else if l.read < |cfg[l.at.value].inputs| then 2 + |cfg[l.at.value].inputs| - l.read else 1
  }

  /** The listener is still there, and nearer to its end. */
  ghost predicate Nearer(cfg: Config, s: State, t: State, pid: Pid) {
    && ListenersOnly(s, t) && pid in s.listeners && pid in t.listeners && OnConsumers(cfg, t.listeners[pid])
    && t.listeners == s.listeners[pid := t.listeners[pid]]
    && (|t.listeners[pid].todo| < |s.listeners[pid].todo|
        || (t.listeners[pid].todo == s.listeners[pid].todo
            && Unread(cfg, t.listeners[pid]) < Unread(cfg, s.listeners[pid])))
  }

  lemma {:induction false} ListenerReads(cfg: Config, s: State, pid: Pid)
    requires Enabled(cfg, s, Read(pid)) && OnConsumers(cfg, s.listeners[pid])
    ensures Nearer(cfg, s, DoListener(cfg, s, Read(pid)), pid)
  {
  }

  lemma {:induction false} ListenerFlips(cfg: Config, s: State, pid: Pid)
    requires Enabled(cfg, s, Flip(pid)) && OnConsumers(cfg, s.listeners[pid])
    ensures Nearer(cfg, s, DoListener(cfg, s, Flip(pid)), pid)
  {
  }

  lemma {:induction false} ListenerPicks(cfg: Config, s: State, pid: Pid, c: Plan)
    requires Enabled(cfg, s, Pick(pid, c)) && OnConsumers(cfg, s.listeners[pid])
    ensures Nearer(cfg, s, DoListener(cfg, s, Pick(pid, c)), pid)
  {
  }

  lemma {:induction false} ListenersLeave(cfg: Config, s: State) returns (more: seq<Step>)
    requires forall pid :: pid in s.listeners ==> OnConsumers(cfg, s.listeners[pid])
    ensures AllByItself(more)
    ensures var r := After(cfg, s, more); ListenersOnly(s, r) && r.listeners == map[]
    decreases |s.listeners|
  {
    more := [];
    if pid :| pid in s.listeners {
      var first := ListenerLeaves(cfg, s, pid);
      var t := After(cfg, s, first);
      assert s.listeners.Keys == t.listeners.Keys + {pid};
      var rest := ListenersLeave(cfg, t);
      Continue(cfg, s, first, rest);
      more := first + rest;
    }
  }

  /** Nothing but the executors and the gates differs. */
  ghost predicate ExecutorsOnly(s: State, r: State) {
    r == s.(executors := r.executors, status := r.status, reason := r.reason)
  }

  /** An executor looks for the approval, reads its inputs and comes to a verdict, unless it has to stop before. */
  lemma {:induction false} ExecutorLeaves(cfg: Config, s: State, pid: Pid) returns (more: seq<Step>)
    requires pid in s.executors && s.executors[pid].gate.0 in cfg
    ensures AllByItself(more)
    ensures var r := After(cfg, s, more); ExecutorsOnly(s, r) && r.executors == s.executors - {pid}
    decreases !s.executors[pid].scanning, |cfg[s.executors[pid].gate.0].inputs| - s.executors[pid].read
  {
    var e := s.executors[pid];
    var step := if !e.scanning then CheckApproval(pid)
                else if e.read < |cfg[e.gate.0].inputs| then ReadInput(pid) else Verdict(pid, true);
    OneStep(cfg, s, step);
    more := [step];
    var t := Do(cfg, s, step);
    if pid in t.executors {
      var rest := ExecutorLeaves(cfg, t, pid);
      Continue(cfg, s, more, rest);
      more := more + rest;
      assert t.executors - {pid} == s.executors - {pid};
    }
  }

  lemma {:induction false} ExecutorsLeave(cfg: Config, s: State) returns (more: seq<Step>)
    requires forall pid :: pid in s.executors ==> s.executors[pid].gate.0 in cfg
    ensures AllByItself(more)
    ensures var r := After(cfg, s, more); ExecutorsOnly(s, r) && r.executors == map[]
    decreases |s.executors|
  {
    more := [];
    if pid :| pid in s.executors {
      var first := ExecutorLeaves(cfg, s, pid);
      var t := After(cfg, s, first);
      assert s.executors.Keys == t.executors.Keys + {pid};
      var rest := ExecutorsLeave(cfg, t);
      Continue(cfg, s, first, rest);
      more := first + rest;
    }
  }

  lemma {:induction false} EndGatesStop(cfg: Config, s: State) returns (more: seq<Step>)
    ensures AllByItself(more) && After(cfg, s, more) == s.(ending := [])
    decreases |s.ending|
  {
    more := [];
    if s.ending != [] {
      OneStep(cfg, s, EndFails(0));
      var t := s.(ending := Remove(s.ending, 0));
      var rest := EndGatesStop(cfg, t);
      Continue(cfg, s, [EndFails(0)], rest);
      more := [EndFails(0)] + rest;
    }
  }

  lemma {:induction false} EventsGoOut(cfg: Config, s: State) returns (more: seq<Step>)
    ensures AllByItself(more)
    ensures var r := After(cfg, s, more); r == s.(unsent := [], inFlight := r.inFlight)
    decreases |s.unsent|
  {
    more := [];
    if s.unsent != [] {
      OneStep(cfg, s, Send(0));
      var t := s.(unsent := Remove(s.unsent, 0), inFlight := s.inFlight + [s.unsent[0]]);
      var rest := EventsGoOut(cfg, t);
      Continue(cfg, s, [Send(0)], rest);
      more := [Send(0)] + rest;
    }
  }

  lemma {:induction false} FreePid(pids: set<Pid>) returns (pid: Pid)
    ensures forall p :: p in pids ==> p < pid
    decreases |pids|
  {
    pid := 0;
    if p :| p in pids {
      var q := FreePid(pids - {p});
      pid := if p < q then q else p + 1;
      assert forall r :: r in pids ==> r == p || r in pids - {p};
    }
  }

  lemma {:induction false} EventsArrive(cfg: Config, s: State) returns (more: seq<Step>)
    requires Roster(cfg, s)
    ensures AllByItself(more)
    ensures var r := After(cfg, s, more); r == s.(inFlight := [], listeners := r.listeners) && Roster(cfg, r)
    decreases |s.inFlight|
  {
    more := [];
    if s.inFlight != [] {
      var pid := FreePid(s.listeners.Keys);
      OneStep(cfg, s, Receive(0, pid));
      StepKeepsRoster(cfg, s, Receive(0, pid));
      var t := Do(cfg, s, Receive(0, pid));
      var rest := EventsArrive(cfg, t);
      Continue(cfg, s, [Receive(0, pid)], rest);
      more := [Receive(0, pid)] + rest;
    }
  }

  /** End gates being run stop, and all events are delivered. */
  lemma {:induction false} Delivered(cfg: Config, s: State) returns (more: seq<Step>)
    requires Roster(cfg, s)
    ensures AllByItself(more)
    ensures var r := After(cfg, s, more); r.ending == [] && r.unsent == [] && r.inFlight == [] && Roster(cfg, r)
  {
    var a := EndGatesStop(cfg, s);
    var t := After(cfg, s, a);
    var b := EventsGoOut(cfg, t);
    var u := After(cfg, t, b);
    var c := EventsArrive(cfg, u);
    Continue(cfg, t, b, c);
    Continue(cfg, s, a, b + c);
    more := a + (b + c);
  }

  /** Then listeners and executors leave. */
  lemma {:induction false} ComesToRest(cfg: Config, s: State) returns (more: seq<Step>)
    requires Roster(cfg, s)
    ensures AllByItself(more) && Quiescent(After(cfg, s, more))
  {
    var a := Delivered(cfg, s);
    var t := After(cfg, s, a);
    var b := ListenersLeave(cfg, t);
    var c := ExecutorsLeave(cfg, After(cfg, t, b));
    Continue(cfg, t, b, c);
    Continue(cfg, s, a, b + c);
    more := a + (b + c);
  }
}
