/** Cross-plan artifacts: resolving a plan's inputs, recording its outputs, and resetting the blocked Init gates of the
    plans that wait for them (server-rs/src/artifacts.rs). The two tables are maps from plan and name to a value and
    from plan and node to a status; which gates a reset wakes is a set of keys, so that resets of several plans
    commute. */
module Artifacts {
  import opened Util
  import opened FlatGraph
  import opened DagPlan

  type Plan = string

  type Name = string

  datatype PlanArtifact = PlanArtifact(name: Name, fromPlan: Option<Plan>, artifact: Option<Name>)

  /** A plan file as far as artifacts are concerned. */
  datatype PlanFile = PlanFile(name: Plan, inputs: seq<PlanArtifact>, nodes: seq<DagNode>)

  const IN_PROGRESS: string := "in_progress"
  const PENDING: string := "pending"

  /** A row is identified by plan and artifact name, or by plan and scoped node id. */
  type Key = (string, string)

  // ---------------------------------------------------------------- specification

  /** `input_producer`. */
  function InputProducer(input: PlanArtifact): Option<Key> {
    match input.fromPlan
    case None => None
    case Some(p) => Some((p, match input.artifact case Some(a) => a case None => input.name))
  }

  predicate Satisfied(outputs: set<Key>, input: PlanArtifact) {
    InputProducer(input).Some? && InputProducer(input).value in outputs
  }

  predicate AllSatisfied(outputs: set<Key>, inputs: seq<PlanArtifact>) {
    forall i :: 0 <= i < |inputs| ==> Satisfied(outputs, inputs[i])
  }

  predicate Produces(input: PlanArtifact, plan: Plan) {
    InputProducer(input).Some? && InputProducer(input).value.0 == plan
  }

  predicate DependsOnPlan(inputs: seq<PlanArtifact>, plan: Plan) {
    exists i :: 0 <= i < |inputs| && Produces(inputs[i], plan)
  }

  ghost function InitGates(file: PlanFile): set<Id> {
    set v | v in Visits(file.nodes, None) && InitGate(v.node) :: v.entry.id
  }

  /** `dependent_plans`: plans, other than the producer itself, with a file that declares an input from it. */
  predicate Depends(files: seq<PlanFile>, producer: Plan, plan: Plan) {
    exists i :: 0 <= i < |files| && files[i].name == plan && plan != producer
      && DependsOnPlan(files[i].inputs, producer)
  }

  // ---------------------------------------------------------------- the store

  /** `plan_artifacts` rows of direction `output` with a satisfied time stamp, and `node_status` rows. */
  class Store {
    var artifacts: map<Key, string>
    var nodeStatus: map<Key, string>

    constructor ()
      ensures artifacts == map[] && nodeStatus == map[]
    {
      artifacts, nodeStatus := map[], map[];
    }

    /** `first_unsatisfied_input`; an input without a producer waits on `(unknown)`. */
    method FirstUnsatisfiedInput(inputs: seq<PlanArtifact>) returns (r: Option<Key>)
      ensures r.None? <==> AllSatisfied(artifacts.Keys, inputs)
      ensures r.Some? ==> exists i :: 0 <= i < |inputs| && !Satisfied(artifacts.Keys, inputs[i])
                                      && AllSatisfied(artifacts.Keys, inputs[..i])
                                      && r.value == match InputProducer(inputs[i])
                                                    case Some(key) => key
                                                    case None => ("(unknown)", inputs[i].name)
    {
      for i := 0 to |inputs|
        invariant AllSatisfied(artifacts.Keys, inputs[..i])
      {
        match InputProducer(inputs[i]) {
          case Some(key) =>
            if key !in artifacts {
              return Some(key);
            }
          case None => return Some(("(unknown)", inputs[i].name));
        }
      }
      return None;
    }

    /** `record_output_artifacts`: upsert every declared output; re-recording overwrites the value. */
    method RecordOutputArtifacts(plan: Plan, outputs: seq<PlanArtifact>, value: Option<string>)
      returns (written: seq<Name>)
      modifies this`artifacts
      ensures written == Names(outputs)
      ensures artifacts == Recorded(old(artifacts), plan, outputs, match value case Some(v) => v case None => "true")
    {
      written := [];
      if outputs == [] {
        return;
      }
      var v := match value case Some(v) => v case None => "true";
      for i := 0 to |outputs|
        invariant written == Names(outputs[..i])
        invariant artifacts == Recorded(old(artifacts), plan, outputs[..i], v)
      {
        assert outputs[..i + 1][..i] == outputs[..i];
        artifacts := artifacts[(plan, outputs[i].name) := v];
        written := written + [outputs[i].name];
      }
      assert outputs[..|outputs|] == outputs;
    }

    /** The inner loop of `reset_dependent_init_gates`: flip the given gates of one plan from in-progress to
        pending. */
    method FlipGates(plan: Plan, ids: seq<Id>) returns (resetAny: bool)
      modifies this`nodeStatus
      ensures nodeStatus == Reset(old(nodeStatus), PlanKeys(plan, ids))
      ensures resetAny <==> AnyInProgress(old(nodeStatus), plan, ids)
    {
      resetAny := false;
      assert ids[..0] == [];
      ResetNothing(nodeStatus);
      for i := 0 to |ids|
        invariant nodeStatus == Reset(old(nodeStatus), PlanKeys(plan, ids[..i]))
        invariant resetAny <==> AnyInProgress(old(nodeStatus), plan, ids[..i])
      {
        FlipNext(old(nodeStatus), plan, ids, i);
        var key := (plan, ids[i]);
        if InProgress(nodeStatus, key) {
          nodeStatus := nodeStatus[key := PENDING];
          resetAny := true;
        }
      }
      assert ids[..|ids|] == ids;
    }

    /** The body of `reset_dependent_init_gates` for one plan, read from the file found under its name. */
    method ResetPlan(plan: Plan, file: PlanFile) returns (resetAny: bool)
      modifies this`nodeStatus
      ensures nodeStatus == Reset(old(nodeStatus), GatesOf(artifacts.Keys, plan, file))
      ensures resetAny <==> exists k :: k in GatesOf(artifacts.Keys, plan, file) && InProgress(old(nodeStatus), k)
    {
      ResetNothing(nodeStatus);
      var missing := FirstUnsatisfiedInput(file.inputs);
      if missing.Some? {
        return false;
      }
      var ids := CollectInitGateIds(file.nodes, None, []);
      InitGateIdsAsSet(Visits(file.nodes, None));
      assert forall id :: id in ids <==> id in InitGates(file);
      assert PlanKeys(plan, ids) == GatesOf(artifacts.Keys, plan, file);
      resetAny := FlipGates(plan, ids);
      assert forall id :: id in ids ==> (plan, id) in PlanKeys(plan, ids);
    }

    /** `reset_dependent_init_gates`. `files` is the directory listing, in which a plan may have several files;
        `found` is the file each plan name resolves to. Exactly the in-progress Init gates of the dependent plans
        with all inputs there become pending, no other row changes, and the plans with a gate reset are returned. */
    method ResetDependentInitGates(files: seq<PlanFile>, found: map<Plan, PlanFile>, producer: Plan)
      returns (resumed: seq<Plan>)
      modifies this`nodeStatus
      ensures nodeStatus == Reset(old(nodeStatus), Woken(artifacts.Keys, files, found, producer))
      ensures forall p :: p in resumed <==> exists k :: k in Woken(artifacts.Keys, files, found, producer) && k.0 == p
                                                        && InProgress(old(nodeStatus), k)
    {
      var consumers := DependentPlans(files, producer);
      resumed := ResetPlans(consumers, found);
      WokenIsAll(artifacts.Keys, files, found, producer, consumers);
    }

    method ResetPlans(consumers: seq<Plan>, found: map<Plan, PlanFile>) returns (resumed: seq<Plan>)
      modifies this`nodeStatus
      ensures nodeStatus == Reset(old(nodeStatus), WokenUpTo(artifacts.Keys, found, consumers, |consumers|))
      ensures ResumedOk(resumed, old(nodeStatus), WokenUpTo(artifacts.Keys, found, consumers, |consumers|))
    {
      resumed := [];
      ResetNothing(nodeStatus);
      ghost var status := nodeStatus;
      for i := 0 to |consumers|
        invariant nodeStatus == Reset(status, WokenUpTo(artifacts.Keys, found, consumers, i))
        invariant ResumedOk(resumed, status, WokenUpTo(artifacts.Keys, found, consumers, i))
      {
        ghost var before := WokenUpTo(artifacts.Keys, found, consumers, i);
        resumed := ResetNext(resumed, consumers[i], found, status, before);
      }
    }

    /** One turn of the loop. */
    method ResetNext(resumed0: seq<Plan>, consumer: Plan, found: map<Plan, PlanFile>, ghost status: map<Key, string>,
                     ghost before: set<Key>) returns (resumed: seq<Plan>)
      requires nodeStatus == Reset(status, before) && ResumedOk(resumed0, status, before)
      modifies this`nodeStatus
      ensures var all := before + if consumer in found then GatesOf(artifacts.Keys, consumer, found[consumer]) else {};
              nodeStatus == Reset(status, all) && ResumedOk(resumed, status, all)
    {
      resumed := resumed0;
      if consumer !in found {
        assert before + {} == before;
        return;
      }
      ghost var here := GatesOf(artifacts.Keys, consumer, found[consumer]);
      ResetTwice(status, before, here);
      ResumedMore(resumed, status, before, here, consumer);
      var resetAny := ResetPlan(consumer, found[consumer]);
      if resetAny {
        resumed := resumed + [consumer];
      }
    }
  }

  method DependentPlans(files: seq<PlanFile>, producer: Plan) returns (plans: seq<Plan>)
    ensures forall p :: p in plans <==> Depends(files, producer, p)
  {
    plans := [];
    for i := 0 to |files|
      invariant forall p :: p in plans <==> Depends(files[..i], producer, p)
    {
      var file := files[i];
      var depends := false;
      for k := 0 to |file.inputs|
        invariant depends <==> DependsOnPlan(file.inputs[..k], producer)
      {
        depends := depends || Produces(file.inputs[k], producer);
        assert file.inputs[..k + 1] == file.inputs[..k] + [file.inputs[k]];
      }
      assert file.inputs[..|file.inputs|] == file.inputs;
      OneMoreFile(files, producer, i);
      if file.name != producer && depends {
        plans := plans + [file.name];
      }
    }
    assert files[..|files|] == files;
  }

  lemma {:induction false} OneMoreFile(files: seq<PlanFile>, producer: Plan, i: nat)
    requires i < |files|
    ensures forall p :: Depends(files[..i + 1], producer, p) <==>
              Depends(files[..i], producer, p)
              || (p == files[i].name && p != producer && DependsOnPlan(files[i].inputs, producer))
  {
    assert files[..i + 1] == files[..i] + [files[i]];
  }

  function Names(outputs: seq<PlanArtifact>): seq<Name> {
    if outputs == [] then [] else Names(outputs[..|outputs| - 1]) + [outputs[|outputs| - 1].name]
  }

  ghost function Recorded(rows: map<Key, string>, plan: Plan, outputs: seq<PlanArtifact>, v: string): map<Key, string> {
    if outputs == [] then rows
    else Recorded(rows, plan, outputs[..|outputs| - 1], v)[(plan, outputs[|outputs| - 1].name) := v]
  }

  ghost predicate Declares(outputs: seq<PlanArtifact>, name: Name) {
    exists i :: 0 <= i < |outputs| && outputs[i].name == name
  }

  /** Recording satisfies exactly the declared outputs of the plan, whatever was recorded before, and touches nothing
      else; recording a second time changes nothing. */
  lemma {:induction false} RecordingMeaning(rows: map<Key, string>, plan: Plan, outputs: seq<PlanArtifact>, v: string)
    ensures forall k :: k in Recorded(rows, plan, outputs, v) <==> k in rows || (k.0 == plan && Declares(outputs, k.1))
    ensures forall k :: k in Recorded(rows, plan, outputs, v) ==>
                          Recorded(rows, plan, outputs, v)[k] == if k.0 == plan
                            && Declares(outputs, k.1) then v else rows[k]
  {
    if outputs != [] {
      var front := outputs[..|outputs| - 1];
      RecordingMeaning(rows, plan, front, v);
      forall name ensures Declares(outputs, name) <==> Declares(front, name) || name == outputs[|outputs| - 1].name {
        if i :| 0 <= i < |front| && front[i].name == name {
          assert outputs[i].name == name;
        }
      }
    }
  }

  lemma {:induction false} RecordingIsIdempotent(rows: map<Key, string>, plan: Plan, outputs: seq<PlanArtifact>,
                                                 v: string)
    ensures Recorded(Recorded(rows, plan, outputs, v), plan, outputs, v) == Recorded(rows, plan, outputs, v)
  {
    RecordingMeaning(rows, plan, outputs, v);
    RecordingMeaning(Recorded(rows, plan, outputs, v), plan, outputs, v);
  }

  predicate InProgress(status: map<Key, string>, k: Key) {
    k in status && status[k] == IN_PROGRESS
  }

  /** Exactly the in-progress rows among the keys become pending. */
  ghost function Reset(status: map<Key, string>, keys: set<Key>): (r: map<Key, string>)
    ensures r.Keys == status.Keys
    ensures forall k :: k in status ==> r[k] == if k in keys && status[k] == IN_PROGRESS then PENDING else status[k]
  {
    map k | k in status :: if k in keys && status[k] == IN_PROGRESS then PENDING else status[k]
  }

  ghost function PlanKeys(plan: Plan, ids: seq<Id>): (r: set<Key>)
    ensures forall k :: k in r <==> k.0 == plan && k.1 in ids
  {
    set id | id in ids :: (plan, id)
  }

  ghost predicate AnyInProgress(status: map<Key, string>, plan: Plan, ids: seq<Id>) {
    exists id :: id in ids && InProgress(status, (plan, id))
  }

  lemma {:induction false} FlipNext(status: map<Key, string>, plan: Plan, ids: seq<Id>, i: nat)
    requires i < |ids|
    ensures var before, key := Reset(status, PlanKeys(plan, ids[..i])), (plan, ids[i]);
            Reset(status, PlanKeys(plan, ids[..i + 1])) ==
              if InProgress(before, key) then before[key := PENDING] else before
    ensures AnyInProgress(status, plan, ids[..i + 1]) <==>
            AnyInProgress(status, plan, ids[..i]) || InProgress(Reset(status, PlanKeys(plan, ids[..i])), (plan, ids[i]))
  {
    assert ids[..i + 1] == ids[..i] + [ids[i]];
    assert forall id :: id in ids[..i + 1] <==> id in ids[..i] || id == ids[i];
  }

  lemma {:induction false} ResetNothing(status: map<Key, string>)
    ensures Reset(status, {}) == status
  {
  }

  lemma {:induction false} ResetTwice(status: map<Key, string>, a: set<Key>, b: set<Key>)
    ensures Reset(Reset(status, a), b) == Reset(status, a + b)
    ensures forall k :: InProgress(Reset(status, a), k) <==> InProgress(status, k) && k !in a
  {
  }

  /** The gate rows of a plan whose inputs are all there. */
  ghost function GatesOf(outputs: set<Key>, plan: Plan, file: PlanFile): set<Key> {
    if AllSatisfied(outputs, file.inputs) then set id | id in InitGates(file) :: (plan, id) else {}
  }

  /** The gate rows that an output of `producer` wakes. */
  ghost function Woken(outputs: set<Key>, files: seq<PlanFile>, found: map<Plan, PlanFile>, producer: Plan): set<Key> {
    set p, k | p in found && Depends(files, producer, p) && k in GatesOf(outputs, p, found[p]) :: k
  }

  ghost function WokenUpTo(outputs: set<Key>, found: map<Plan, PlanFile>, consumers: seq<Plan>, n: nat): set<Key>
    requires n <= |consumers|
  {
    if n == 0 then {}
    else
      var c := consumers[n - 1];
      WokenUpTo(outputs, found, consumers, n - 1) + if c in found then GatesOf(outputs, c, found[c]) else {}
  }

  ghost predicate ResumedOk(resumed: seq<Plan>, status: map<Key, string>, woken: set<Key>) {
    forall p :: p in resumed <==> exists k :: k in woken && k.0 == p && InProgress(status, k)
  }

  lemma {:induction false} ResumedMore(resumed: seq<Plan>, status: map<Key, string>, before: set<Key>, here: set<Key>,
                                       plan: Plan)
    requires ResumedOk(resumed, status, before) && forall k :: k in here ==> k.0 == plan
    ensures (exists k :: k in here && InProgress(Reset(status, before), k)) ==>
              ResumedOk(resumed + [plan], status, before + here)
    ensures !(exists k :: k in here && InProgress(Reset(status, before), k)) ==>
        ResumedOk(resumed, status, before + here)
  {
    ResetTwice(status, before, here);
    forall k | k in here && InProgress(status, k) && !InProgress(Reset(status, before), k) ensures plan in resumed {
      assert k in before;
    }
  }

  lemma {:induction false} InWokenUpTo(outputs: set<Key>, found: map<Plan, PlanFile>, consumers: seq<Plan>, n: nat,
                                       k: Key)
    requires n <= |consumers|
    ensures k in WokenUpTo(outputs, found, consumers, n) <==>
            exists p :: p in consumers[..n] && p in found && k in GatesOf(outputs, p, found[p])
  {
    if n > 0 {
      InWokenUpTo(outputs, found, consumers, n - 1, k);
      assert consumers[..n] == consumers[..n - 1] + [consumers[n - 1]];
    }
  }

  lemma {:induction false} WokenIsAll(outputs: set<Key>, files: seq<PlanFile>, found: map<Plan, PlanFile>,
                                      producer: Plan,
                                      consumers: seq<Plan>)
    requires forall p :: p in consumers <==> Depends(files, producer, p)
    ensures WokenUpTo(outputs, found, consumers, |consumers|) == Woken(outputs, files, found, producer)
  {
    assert consumers[..|consumers|] == consumers;
    forall k ensures k in WokenUpTo(outputs, found, consumers, |consumers|) <==>
        k in Woken(outputs, files, found, producer) {
      InWokenUpTo(outputs, found, consumers, |consumers|, k);
    }
  }

  lemma {:induction false} InitGateIdsAsSet(visits: seq<Visit>)
    ensures forall id :: id in InitGateIds(visits) <==>
                         exists v :: v in visits && InitGate(v.node) && v.entry.id == id
  {
    if visits != [] {
      InitGateIdsAsSet(visits[1..]);
      assert visits == [visits[0]] + visits[1..];
    }
  }
}
