/** Conversion of a phase plan into a DAG (server-rs/src/dag.rs): init, the tasks of each phase after those of the phase
    before, end. Then what the proofs in PhaseOrder rest on: the flat graph of a converted plan, declaration order as
    one of its orders, phases that stay in order, and the orders an empty phase lets through by moving one node up
    before others it does not depend on. */
module PhasePlan {
  import opened Util
  import opened FlatGraph
  import opened DagPlan

  datatype PlanTask = PlanTask(number: Id, dependencies: seq<Id>, status: Option<string>)

  datatype Phase = Phase(tasks: seq<PlanTask>)

  const INIT: Id := "init"
  const END: Id := "end"

  function Numbers(tasks: seq<PlanTask>): (r: seq<Id>)
    ensures |r| == |tasks| && forall i :: 0 <= i < |tasks| ==> r[i] == tasks[i].number
  {
    seq(|tasks|, i requires 0 <= i < |tasks| => tasks[i].number)
  }

  // ---------------------------------------------------------------- the conversion

  /** The edges of one task, given the ids of the preceding phase (None inside the first phase). */
  function TaskDeps(dependencies: seq<Id>, prev: Option<seq<Id>>): seq<Id> {
    var explicit :=
      if dependencies != [] then dependencies
      else if prev.Some? then prev.value
      else [INIT];
    if prev.None? && INIT !in explicit then explicit + [INIT] else explicit
  }

  function TaskNode(task: PlanTask, prev: Option<seq<Id>>): DagNode {
    DagNode(task.number, Task, TaskDeps(task.dependencies, prev), None, [], task.status)
  }

  function TaskNodes(tasks: seq<PlanTask>, prev: Option<seq<Id>>): (r: seq<DagNode>)
    ensures |r| == |tasks| && forall i :: 0 <= i < |tasks| ==> r[i] == TaskNode(tasks[i], prev)
  {
    seq(|tasks|, i requires 0 <= i < |tasks| => TaskNode(tasks[i], prev))
  }

  ghost function Prev(phases: seq<Phase>): Option<seq<Id>> {
    if phases == [] then None else Some(Numbers(phases[|phases| - 1].tasks))
  }

  ghost function PhaseNodes(phases: seq<Phase>): seq<DagNode> {
    if phases == [] then []
    else
      var front := phases[..|phases| - 1];
      PhaseNodes(front) + TaskNodes(phases[|phases| - 1].tasks, Prev(front))
  }

  ghost function EndDeps(phases: seq<Phase>): seq<Id> {
    if phases == [] || phases[|phases| - 1].tasks == [] then [INIT] else Numbers(phases[|phases| - 1].tasks)
  }

  const InitNode := DagNode(INIT, Gate, [], Some(Init), [], None)

  function EndNode(deps: seq<Id>): DagNode {
    DagNode(END, Gate, deps, Some(End), [], None)
  }

  ghost function Converted(phases: seq<Phase>): seq<DagNode> {
    [InitNode] + PhaseNodes(phases) + [EndNode(EndDeps(phases))]
  }

  /** `parsed_plan_to_dag`. */
  method ParsedPlanToDag(phases: seq<Phase>) returns (nodes: seq<DagNode>)
    ensures nodes == Converted(phases)
  {
    nodes := [InitNode];
    var phaseTaskIds: seq<seq<Id>> := [];
    for i := 0 to |phases|
      invariant nodes == [InitNode] + PhaseNodes(phases[..i])
      invariant |phaseTaskIds| == i && forall k :: 0 <= k < i ==> phaseTaskIds[k] == Numbers(phases[k].tasks)
    {
      var prev := if phaseTaskIds == [] then None else Some(phaseTaskIds[|phaseTaskIds| - 1]);
      PhaseStep(phases, i);
      var thisPhaseIds, more := ConvertPhase(phases[i].tasks, prev);
      Associate([InitNode], PhaseNodes(phases[..i]), more);
      nodes := nodes + more;
      phaseTaskIds := phaseTaskIds + [thisPhaseIds];
    }
    assert phases[..|phases|] == phases;
    var last := if phaseTaskIds == [] then [] else phaseTaskIds[|phaseTaskIds| - 1];
    nodes := nodes + [EndNode(if last == [] then [INIT] else last)];
  }

  lemma {:induction false} PhaseStep(phases: seq<Phase>, i: nat)
    requires i < |phases|
    ensures Prev(phases[..i]) == if i == 0 then None else Some(Numbers(phases[i - 1].tasks))
    ensures PhaseNodes(phases[..i + 1]) == PhaseNodes(phases[..i]) + TaskNodes(phases[i].tasks, Prev(phases[..i]))
  {
    assert phases[..i + 1][..i] == phases[..i];
  }

  /** The inner loop over the tasks of one phase. */
  method ConvertPhase(tasks: seq<PlanTask>, prev: Option<seq<Id>>) returns (ids: seq<Id>, nodes: seq<DagNode>)
    ensures ids == Numbers(tasks) && nodes == TaskNodes(tasks, prev)
  {
    ids, nodes := [], [];
    for j := 0 to |tasks|
      invariant ids == Numbers(tasks[..j]) && nodes == TaskNodes(tasks[..j], prev)
    {
      ids := ids + [tasks[j].number];
      var dependsOn := tasks[j].dependencies;
      if dependsOn == [] {
        match prev {
          case Some(prevIds) => dependsOn := prevIds;
          case None => dependsOn := dependsOn + [INIT];
        }
      }
      if prev == None && INIT !in dependsOn {
        dependsOn := dependsOn + [INIT];
      }
      assert dependsOn == TaskDeps(tasks[j].dependencies, prev);
      assert tasks[..j + 1] == tasks[..j] + [tasks[j]];
      assert TaskNodes(tasks[..j + 1], prev) == TaskNodes(tasks[..j], prev) + [TaskNode(tasks[j], prev)];
      nodes := nodes + [DagNode(tasks[j].number, Task, dependsOn, None, [], tasks[j].status)];
    }
    assert tasks[..|tasks|] == tasks;
  }

  // ---------------------------------------------------------------- well-formed plans, and phases in order

  ghost function AllNumbers(phases: seq<Phase>): seq<Id> {
    if phases == [] then []
    else AllNumbers(phases[..|phases| - 1]) + Numbers(phases[|phases| - 1].tasks)
  }

  /** Ids in declaration order. */
  ghost function Declared(phases: seq<Phase>): seq<Id> {
    [INIT] + AllNumbers(phases) + [END]
  }

  /** Explicit dependencies name `init` or a task declared earlier. */
  ghost predicate DepsEarlier(phases: seq<Phase>) {
    phases == [] ||
    (var front, tasks := phases[..|phases| - 1], phases[|phases| - 1].tasks;
     && DepsEarlier(front)
     && forall j, d :: 0 <= j < |tasks| && d in tasks[j].dependencies ==>
                         d == INIT || d in AllNumbers(front) || d in Numbers(tasks)[..j])
  }

  ghost predicate WellFormed(phases: seq<Phase>) {
    NoDup(Declared(phases)) && DepsEarlier(phases)
  }

  ghost predicate NoEmptyPhase(phases: seq<Phase>) {
    forall i :: 0 <= i < |phases| ==> phases[i].tasks != []
  }

  ghost predicate AllPhasesEmpty(phases: seq<Phase>) {
    forall i :: 0 <= i < |phases| ==> phases[i].tasks == []
  }

  /** Only the first phase states dependencies of its own. */
  ghost predicate ImplicitAfterFirst(phases: seq<Phase>) {
    forall i, t :: 1 <= i < |phases| && t in phases[i].tasks ==> t.dependencies == []
  }

  /** Only the first phase has tasks, and they depend on nothing but `init`. */
  ghost predicate OneFlatPhase(phases: seq<Phase>) {
    && phases != []
    && (forall i :: 1 <= i < |phases| ==> phases[i].tasks == [])
    && forall t, d :: t in phases[0].tasks && d in t.dependencies ==> d == INIT
  }

  /** `init` first, `end` last, and every task after all tasks of earlier phases: the phases form contiguous runs. */
  ghost predicate InPhaseOrder(phases: seq<Phase>, order: seq<Id>) {
    && |order| >= 2
    && order[0] == INIT
    && order[|order| - 1] == END
    && forall i, j, a, b ::
         0 <= i < j < |phases| && a in Numbers(phases[i].tasks) && b in Numbers(phases[j].tasks) ==>
           Precedes(order, a, b)
  }

  // ---------------------------------------------------------------- the flat graph of a converted plan

  ghost function Plain(nodes: seq<DagNode>): (r: seq<Entry>)
    ensures |r| == |nodes| && forall i :: 0 <= i < |nodes| ==> r[i] == Entry(nodes[i].id, nodes[i].dependsOn)
  {
    seq(|nodes|, i requires 0 <= i < |nodes| => Entry(nodes[i].id, nodes[i].dependsOn))
  }

  lemma {:induction false} FlatWithoutSubPlans(rest: seq<DagNode>, siblings: seq<DagNode>)
    requires forall n :: n in rest ==> !n.nodeType.SubPlan?
    ensures Entries(VisitsFrom(rest, siblings, None)) == Plain(rest)
  {
    if rest != [] {
      FlatWithoutSubPlans(rest[1..], siblings);
      var here := [VisitOf(rest[0], siblings, None)];
      assert here + [] == here;
      EntriesConcat(here, VisitsFrom(rest[1..], siblings, None));
      assert ScopeDeps(siblings, None, rest[0].dependsOn) == rest[0].dependsOn;
      assert Entries(here) == [Entry(rest[0].id, rest[0].dependsOn)];
      assert Plain(rest) == [Entry(rest[0].id, rest[0].dependsOn)] + Plain(rest[1..]);
    }
  }

  lemma {:induction false} PhaseNodesArePlain(phases: seq<Phase>)
    ensures forall n :: n in PhaseNodes(phases) ==> n.nodeType.Task?
  {
    if phases != [] {
      PhaseNodesArePlain(phases[..|phases| - 1]);
    }
  }

  lemma {:induction false} FlatConverted(phases: seq<Phase>)
    ensures Flatten(Converted(phases)) == Plain(Converted(phases))
  {
    PhaseNodesArePlain(phases);
    FlatWithoutSubPlans(Converted(phases), Converted(phases));
  }

  // ---------------------------------------------------------------- well-formed plans validate

  /** The entries carry the ids in order, each depending only on ids before it. */
  ghost predicate Ordered(entries: seq<Entry>, ids: seq<Id>) {
    && |entries| == |ids|
    && forall i :: 0 <= i < |ids| ==> entries[i].id == ids[i] && forall d :: d in entries[i].deps ==> d in ids[..i]
  }

  lemma {:induction false} PhasesOrdered(phases: seq<Phase>)
    requires DepsEarlier(phases)
    ensures Ordered(Plain([InitNode] + PhaseNodes(phases)), [INIT] + AllNumbers(phases))
  {
    if phases != [] {
      var front, tasks := phases[..|phases| - 1], phases[|phases| - 1].tasks;
      PhasesOrdered(front);
      LastPhaseSplit(phases);
      LastPhaseEarlier(phases);
      OrderedAppend(Plain([InitNode] + PhaseNodes(front)), [INIT] + AllNumbers(front),
                    Plain(TaskNodes(tasks, Prev(front))), Numbers(tasks));
    }
  }

  lemma {:induction false} LastPhaseSplit(phases: seq<Phase>)
    requires phases != []
    ensures var front, tasks := phases[..|phases| - 1], phases[|phases| - 1].tasks;
            && [INIT] + AllNumbers(phases) == [INIT] + AllNumbers(front) + Numbers(tasks)
            && Plain([InitNode] + PhaseNodes(phases)) ==
               Plain([InitNode] + PhaseNodes(front)) + Plain(TaskNodes(tasks, Prev(front)))
  {
    var front, tasks := phases[..|phases| - 1], phases[|phases| - 1].tasks;
    Associate([InitNode], PhaseNodes(front), TaskNodes(tasks, Prev(front)));
    Associate([INIT], AllNumbers(front), Numbers(tasks));
    PlainAppend([InitNode] + PhaseNodes(front), TaskNodes(tasks, Prev(front)));
  }

  lemma {:induction false} PlainAppend(a: seq<DagNode>, b: seq<DagNode>)
    ensures Plain(a + b) == Plain(a) + Plain(b)
  {
  }

  lemma {:induction false} LastPhaseEarlier(phases: seq<Phase>)
    requires phases != [] && DepsEarlier(phases)
    ensures var front, tasks := phases[..|phases| - 1], phases[|phases| - 1].tasks;
            var more := Plain(TaskNodes(tasks, Prev(front)));
            |more| == |Numbers(tasks)|
            && forall j :: 0 <= j < |more| ==>
                 more[j].id == Numbers(tasks)[j]
                 && forall d :: d in more[j].deps ==> d in [INIT] + AllNumbers(front) + Numbers(tasks)[..j]
  {
    var front, tasks := phases[..|phases| - 1], phases[|phases| - 1].tasks;
    if front != [] {
      LastPhaseListed(front);
    }
    var more := Plain(TaskNodes(tasks, Prev(front)));
    forall j | 0 <= j < |more|
      ensures more[j].id == Numbers(tasks)[j]
      ensures forall d :: d in more[j].deps ==> d in [INIT] + AllNumbers(front) + Numbers(tasks)[..j]
    {
      assert TaskNodes(tasks, Prev(front))[j] == TaskNode(tasks[j], Prev(front));
    }
  }

  lemma {:induction false} OrderedAppend(entries: seq<Entry>, ids: seq<Id>, more: seq<Entry>, moreIds: seq<Id>)
    requires Ordered(entries, ids) && |more| == |moreIds|
    requires forall j :: 0 <= j < |more| ==>
               more[j].id == moreIds[j] && forall d :: d in more[j].deps ==> d in ids + moreIds[..j]
    ensures Ordered(entries + more, ids + moreIds)
  {
    var all := ids + moreIds;
    forall i | 0 <= i < |all|
      ensures (entries + more)[i].id == all[i] && forall d :: d in (entries + more)[i].deps ==> d in all[..i]
    {
      if i < |ids| {
        assert all[..i] == ids[..i];
      } else {
        assert all[..i] == ids + moreIds[..i - |ids|];
      }
    }
  }

  lemma {:induction false} LastPhaseListed(phases: seq<Phase>)
    requires phases != []
    ensures forall x :: x in Numbers(phases[|phases| - 1].tasks) ==> x in AllNumbers(phases)
  {
  }

  lemma {:induction false} OrderedIsTopological(entries: seq<Entry>, ids: seq<Id>)
    requires Ordered(entries, ids) && NoDup(ids)
    ensures TopoOrder(entries, ids)
  {
    forall x ensures x in Elems(ids) <==> x in Ids(entries) {
      if x in Elems(ids) {
        var i :| 0 <= i < |ids| && ids[i] == x;
        assert entries[i] in entries;
      }
    }
    assert Elems(ids) == Ids(entries);
    forall i, b | 0 <= i < |ids| && DependsOn(entries, ids[i], b) ensures b in ids[..i] {
      var e :| e in entries && e.id == ids[i] && b in e.deps;
      var k :| 0 <= k < |entries| && entries[k] == e;
      assert k == i;
    }
  }

  lemma {:induction false} DeclaredOrdered(phases: seq<Phase>)
    requires DepsEarlier(phases)
    ensures Ordered(Plain(Converted(phases)), Declared(phases))
  {
    PhasesOrdered(phases);
    var nodes0, ids0 := [InitNode] + PhaseNodes(phases), [INIT] + AllNumbers(phases);
    assert Converted(phases) == nodes0 + [EndNode(EndDeps(phases))];
    assert Declared(phases) == ids0 + [END];
    if phases != [] {
      LastPhaseListed(phases);
    }
    forall i | 0 <= i < |Declared(phases)|
      ensures Plain(Converted(phases))[i].id == Declared(phases)[i]
      ensures forall d :: d in Plain(Converted(phases))[i].deps ==> d in Declared(phases)[..i]
    {
      assert Declared(phases)[..i] == ids0[..i];
      if i < |ids0| {
        assert Plain(Converted(phases))[i] == Plain(nodes0)[i];
      }
    }
  }

  // ---------------------------------------------------------------- phases stay in order

  lemma {:induction false} TaskNodeListed(phases: seq<Phase>, i: nat, j: nat)
    requires i < |phases| && j < |phases[i].tasks|
    ensures TaskNode(phases[i].tasks[j], Prev(phases[..i])) in PhaseNodes(phases)
  {
    var front := phases[..|phases| - 1];
    if i < |front| {
      TaskNodeListed(front, i, j);
      assert front[..i] == phases[..i];
    } else {
      assert TaskNodes(phases[i].tasks, Prev(front))[j] in TaskNodes(phases[i].tasks, Prev(front));
    }
  }

  lemma {:induction false} PhaseNodeOrigin(phases: seq<Phase>, n: DagNode) returns (i: nat, j: nat)
    requires n in PhaseNodes(phases)
    ensures i < |phases| && j < |phases[i].tasks| && n == TaskNode(phases[i].tasks[j], Prev(phases[..i]))
  {
    var front := phases[..|phases| - 1];
    if n in PhaseNodes(front) {
      i, j := PhaseNodeOrigin(front, n);
      assert front[..i] == phases[..i];
    } else {
      i := |phases| - 1;
      var ns := TaskNodes(phases[i].tasks, Prev(front));
      var k :| 0 <= k < |ns| && ns[k] == n;
      j := k;
    }
  }

  lemma {:induction false} EntryListed(phases: seq<Phase>, n: DagNode, d: Id)
    requires n in Converted(phases) && d in n.dependsOn
    ensures DependsOn(Flatten(Converted(phases)), n.id, d)
  {
    FlatConverted(phases);
    var k :| 0 <= k < |Converted(phases)| && Converted(phases)[k] == n;
    assert Plain(Converted(phases))[k] in Plain(Converted(phases));
  }

  lemma {:induction false} DependencyPrecedes(nodes: seq<Entry>, order: seq<Id>, a: Id, b: Id)
    requires TopoOrder(nodes, order) && DependsOn(nodes, a, b)
    ensures Precedes(order, b, a)
  {
    assert a in Elems(order);
    var i := IndexOf(order, a);
    assert b in order[..i];
    var k :| 0 <= k < i && order[k] == b;
  }

  lemma {:induction false} PrecedesTransitive(order: seq<Id>, a: Id, b: Id, c: Id)
    requires NoDup(order) && Precedes(order, a, b) && Precedes(order, b, c)
    ensures Precedes(order, a, c)
  {
    var i, j :| 0 <= i < j < |order| && order[i] == a && order[j] == b;
    var k, l :| 0 <= k < l < |order| && order[k] == b && order[l] == c;
    assert j == k;
  }

  /** A task of phase j depends on every task of phase j - 1. */
  lemma {:induction false} NeighbouringPhases(phases: seq<Phase>, j: nat, a: Id, b: Id)
    requires ImplicitAfterFirst(phases) && 1 <= j < |phases|
    requires a in Numbers(phases[j - 1].tasks) && b in Numbers(phases[j].tasks)
    ensures DependsOn(Flatten(Converted(phases)), b, a)
  {
    var l :| 0 <= l < |phases[j].tasks| && Numbers(phases[j].tasks)[l] == b;
    var task := phases[j].tasks[l];
    assert task in phases[j].tasks;
    TaskNodeListed(phases, j, l);
    PhaseStep(phases, j);
    var node := TaskNode(task, Prev(phases[..j]));
    InsideConverted(phases, node);
    EntryListed(phases, node, a);
  }

  lemma {:induction false} InsideConverted(phases: seq<Phase>, n: DagNode)
    requires n in PhaseNodes(phases)
    ensures n in Converted(phases)
  {
  }

  lemma {:induction false} LaterPhaseLater(phases: seq<Phase>, order: seq<Id>, i: nat, j: nat, a: Id, b: Id)
    requires ImplicitAfterFirst(phases) && NoEmptyPhase(phases)
    requires TopoOrder(Flatten(Converted(phases)), order)
    requires i < j < |phases| && a in Numbers(phases[i].tasks) && b in Numbers(phases[j].tasks)
    ensures Precedes(order, a, b)
    decreases j
  {
    if i == j - 1 {
      NeighbouringPhases(phases, j, a, b);
      DependencyPrecedes(Flatten(Converted(phases)), order, b, a);
    } else {
      var c := phases[j - 1].tasks[0].number;
      assert Numbers(phases[j - 1].tasks)[0] == c;
      LaterPhaseLater(phases, order, i, j - 1, a, c);
      NeighbouringPhases(phases, j, c, b);
      DependencyPrecedes(Flatten(Converted(phases)), order, b, c);
      PrecedesTransitive(order, a, c, b);
    }
  }

  lemma {:induction false} LastPrecedesNothing(order: seq<Id>, a: Id, b: Id)
    requires NoDup(order) && Precedes(order, a, b)
    ensures a != order[|order| - 1]
  {
  }

  // ---------------------------------------------------------------- orders that leave phase order

  /** Where the element at position k comes from when position i is moved up to position j. */
  function MovedFrom(k: nat, i: nat, j: nat): nat
    requires j <= i
  {
    if k == j then i else if j < k <= i then k - 1 else k
  }

  /** Where position x ends up. */
  function MovedTo(x: nat, i: nat, j: nat): nat {
    if x == i then j else if j <= x < i then x + 1 else x
  }

  ghost function Moved(order: seq<Id>, i: nat, j: nat): (moved: seq<Id>)
    requires j <= i < |order|
    ensures |moved| == |order|
    ensures forall k :: 0 <= k < |order| ==> moved[k] == order[MovedFrom(k, i, j)]
  {
    seq(|order|, k requires 0 <= k < |order| => order[MovedFrom(k, i, j)])
  }

  /** A node may be moved up to any position all its dependencies precede. */
  lemma {:induction false} MoveUp(nodes: seq<Entry>, order: seq<Id>, i: nat, j: nat)
    requires TopoOrder(nodes, order) && j <= i < |order|
    requires forall b :: DependsOn(nodes, order[i], b) ==> b in order[..j]
    ensures TopoOrder(nodes, Moved(order, i, j))
  {
    var moved := Moved(order, i, j);
    SameElements(order, i, j);
    forall k, b | 0 <= k < |moved| && DependsOn(nodes, moved[k], b) ensures b in moved[..k] {
      var x := MovedFrom(k, i, j);
      assert moved[k] == order[x];
      var m := if x == i then j else x;
      assert b in order[..m];
      var y :| 0 <= y < m && order[y] == b;
      assert moved[MovedTo(y, i, j)] == b && MovedTo(y, i, j) < k;
    }
  }

  lemma {:induction false} SameElements(order: seq<Id>, i: nat, j: nat)
    requires NoDup(order) && j <= i < |order|
    ensures NoDup(Moved(order, i, j)) && Elems(Moved(order, i, j)) == Elems(order)
  {
    var moved := Moved(order, i, j);
    forall x ensures x in Elems(moved) <==> x in Elems(order) {
      if x in Elems(order) {
        var y :| 0 <= y < |order| && order[y] == x;
        assert moved[MovedTo(y, i, j)] == x;
      }
    }
    assert Elems(moved) == Elems(order);
    NoDupCardinality(order);
    ElemsCardinality(moved);
  }

  lemma {:induction false} OrphanPosition(phases: seq<Phase>, m: nat) returns (k: nat)
    requires ImplicitAfterFirst(phases)
    requires 1 <= m < |phases| && phases[m].tasks != [] && phases[m - 1].tasks == []
    ensures 0 < k < |Converted(phases)| && Converted(phases)[k].dependsOn == []
    ensures Converted(phases)[k].id == phases[m].tasks[0].number
  {
    var task := phases[m].tasks[0];
    assert task in phases[m].tasks;
    PhaseStep(phases, m);
    TaskNodeListed(phases, m, 0);
    var node := TaskNode(task, Prev(phases[..m]));
    var i := PositionIn(PhaseNodes(phases), node);
    k := i + 1;
    assert Converted(phases)[k] == node;
  }

  lemma {:induction false} PositionIn(nodes: seq<DagNode>, n: DagNode) returns (i: nat)
    requires n in nodes
    ensures i < |nodes| && nodes[i] == n
  {
    i :| 0 <= i < |nodes| && nodes[i] == n;
  }

  lemma {:induction false} NoDependencies(entries: seq<Entry>, ids: seq<Id>, k: nat)
    requires Ordered(entries, ids) && NoDup(ids) && k < |ids| && entries[k].deps == []
    ensures forall b :: !DependsOn(entries, ids[k], b)
  {
    forall b ensures !DependsOn(entries, ids[k], b) {
      forall e | e in entries && e.id == ids[k] ensures b !in e.deps {
        var l :| 0 <= l < |entries| && entries[l] == e;
        assert l == k;
      }
    }
  }

  lemma {:induction false} NumbersAreDeclared(phases: seq<Phase>, x: Id)
    requires WellFormed(phases) && x in AllNumbers(phases)
    ensures x in Elems(Declared(phases)) && x != INIT && x != END
  {
    var numbers, all := AllNumbers(phases), Declared(phases);
    var k :| 0 <= k < |numbers| && numbers[k] == x;
    assert all[k + 1] == x && all[0] == INIT && all[|numbers| + 1] == END;
  }

  lemma {:induction false} SomeNumber(phases: seq<Phase>, i: nat)
    requires i < |phases| && phases[i].tasks != []
    ensures AllNumbers(phases) != []
  {
    if i < |phases| - 1 {
      SomeNumber(phases[..|phases| - 1], i);
    }
  }

  /** Somewhere after an empty phase there is either a task right behind an empty phase, or nothing at all. */
  lemma {:induction false} EmptyThenTask(phases: seq<Phase>, e: nat, f: nat) returns (m: nat)
    requires e < f < |phases| && phases[e].tasks == [] && phases[f].tasks != []
    ensures 1 <= m < |phases| && phases[m].tasks != [] && phases[m - 1].tasks == []
  {
    m := e + 1;
    while phases[m].tasks == []
      invariant e < m <= f && phases[m - 1].tasks == []
      decreases f - m
    {
      m := m + 1;
    }
  }

  lemma {:induction false} NoNodes(phases: seq<Phase>)
    requires AllPhasesEmpty(phases)
    ensures PhaseNodes(phases) == []
  {
    if phases != [] {
      NoNodes(phases[..|phases| - 1]);
    }
  }

  lemma {:induction false} EmptyPlanOrder(phases: seq<Phase>, order: seq<Id>)
    requires AllPhasesEmpty(phases) && TopoOrder(Flatten(Converted(phases)), order)
    ensures InPhaseOrder(phases, order)
  {
    NoNodes(phases);
    FlatConverted(phases);
    var flat := Flatten(Converted(phases));
    assert Converted(phases) == [InitNode, EndNode([INIT])];
    EntryListed(phases, Converted(phases)[1], INIT);
    DependencyPrecedes(flat, order, END, INIT);
    assert |order| == 2;
  }
}
