/** The nodes of a converted phase plan (server-rs/src/dag.rs), as far as the orders that serve first come first
    depend on them: which nodes an id stands for and what they wait for; plans whose tasks are all in the first
    phase and wait for `init` alone, where everything but `init` gets ready at the same turn; and, where the last
    phase is empty, a task that waits for another task and so gets ready after `end`. */
module ConvertedNodes {
  import opened Util
  import opened FlatGraph
  import opened DagPlan
  import opened PhasePlan
  import opened PhaseOrder

  // ---------------------------------------------------------------- the nodes behind the ids

  lemma {:induction false} NodeOf(phases: seq<Phase>, v: Id) returns (n: DagNode)
    requires v in Ids(Flatten(Converted(phases)))
    ensures n in Converted(phases) && n.id == v
  {
    FlatConverted(phases);
    var e :| e in Plain(Converted(phases)) && e.id == v;
    var k :| 0 <= k < |Converted(phases)| && Plain(Converted(phases))[k] == e;
    n := Converted(phases)[k];
  }

  lemma {:induction false} NodeDependsOn(phases: seq<Phase>, n: DagNode)
    requires WellFormed(phases) && n in Converted(phases)
    ensures n.id in Ids(Flatten(Converted(phases)))
    ensures forall b :: DependsOn(Flatten(Converted(phases)), n.id, b) <==> b in n.dependsOn
  {
    WellFormedPlanValidates(phases);
    FlatConverted(phases);
    var flat := Plain(Converted(phases));
    var k :| 0 <= k < |Converted(phases)| && Converted(phases)[k] == n;
    EntryDependsOn(flat, k);
  }

  lemma {:induction false} EntryDependsOn(nodes: seq<Entry>, k: nat)
    requires DistinctIds(nodes) && k < |nodes|
    ensures nodes[k].id in Ids(nodes)
    ensures forall b :: DependsOn(nodes, nodes[k].id, b) <==> b in nodes[k].deps
  {
    assert nodes[k] in nodes;
    forall b | DependsOn(nodes, nodes[k].id, b) ensures b in nodes[k].deps {
      var e :| e in nodes && e.id == nodes[k].id && b in e.deps;
      var l :| 0 <= l < |nodes| && nodes[l] == e;
      assert l == k;
    }
  }

  lemma {:induction false} InitAndEnd(phases: seq<Phase>)
    ensures InitNode in Converted(phases) && EndNode(EndDeps(phases)) in Converted(phases)
  {
  }

  lemma {:induction false} NumberIsDeclared(phases: seq<Phase>, i: nat, j: nat)
    requires WellFormed(phases) && i < |phases| && j < |phases[i].tasks|
    ensures phases[i].tasks[j].number != INIT && phases[i].tasks[j].number != END
  {
    NumberListed(phases, i, j);
    NumbersAreDeclared(phases, phases[i].tasks[j].number);
  }

  lemma {:induction false} NumberListed(phases: seq<Phase>, i: nat, j: nat)
    requires i < |phases| && j < |phases[i].tasks|
    ensures phases[i].tasks[j].number in AllNumbers(phases)
  {
    if i < |phases| - 1 {
      NumberListed(phases[..|phases| - 1], i, j);
    } else {
      assert Numbers(phases[i].tasks)[j] == phases[i].tasks[j].number;
    }
  }

  lemma {:induction false} TaskListed(phases: seq<Phase>, i: nat, j: nat) returns (n: DagNode)
    requires WellFormed(phases) && i < |phases| && j < |phases[i].tasks|
    ensures n in Converted(phases) && n.id != END
    ensures n == TaskNode(phases[i].tasks[j], if i == 0 then None else Some(Numbers(phases[i - 1].tasks)))
  {
    PhaseStep(phases, i);
    TaskNodeListed(phases, i, j);
    n := TaskNode(phases[i].tasks[j], Prev(phases[..i]));
    InsideConverted(phases, n);
    NumberIsDeclared(phases, i, j);
  }

  lemma {:induction false} OnlyInitIsReady(phases: seq<Phase>, v: Id)
    requires WellFormed(phases) && NoEmptyPhase(phases)
    requires v in Ids(Flatten(Converted(phases))) && ReadyBy(Flatten(Converted(phases)), v, {})
    ensures v == INIT
  {
    var n := NodeOf(phases, v);
    NodeDependsOn(phases, n);
    EmptySeq(n.dependsOn);
    InitIsOnlySource(phases, n);
  }

  // ---------------------------------------------------------------- one flat phase

  lemma {:induction false} AllWaitForInit(phases: seq<Phase>, n: DagNode)
    requires OneFlatPhase(phases) && !NoEmptyPhase(phases) && n in Converted(phases)
    ensures n == InitNode || (INIT in n.dependsOn && forall d :: d in n.dependsOn ==> d == INIT)
  {
    assert phases[|phases| - 1].tasks == [];
    if n in PhaseNodes(phases) {
      var i, j := PhaseNodeOrigin(phases, n);
      assert i == 0 && phases[..0] == [] && phases[0].tasks[j] in phases[0].tasks;
      FlatTaskDeps(phases[0].tasks[j].dependencies);
    }
  }

  lemma {:induction false} FlatTaskDeps(dependencies: seq<Id>)
    requires forall d :: d in dependencies ==> d == INIT
    ensures INIT in TaskDeps(dependencies, None) && forall d :: d in TaskDeps(dependencies, None) ==> d == INIT
  {
  }

  lemma {:induction false} WaitsForInitAlone(phases: seq<Phase>, v: Id)
    requires WellFormed(phases) && OneFlatPhase(phases) && !NoEmptyPhase(phases)
    requires v in Ids(Flatten(Converted(phases)))
    ensures var flat := Flatten(Converted(phases));
            v == INIT || (DependsOn(flat, v, INIT) && forall d :: DependsOn(flat, v, d) ==> d == INIT)
  {
    var n := NodeOf(phases, v);
    AllWaitForInit(phases, n);
    NodeDependsOn(phases, n);
  }

  lemma {:induction false} ReadyAfterInit(phases: seq<Phase>, order: seq<Id>, i: nat)
    requires WellFormed(phases) && OneFlatPhase(phases) && !NoEmptyPhase(phases)
    requires FifoOrder(Flatten(Converted(phases)), order) && i < |order|
    ensures order[i] == INIT || (i > 0 && JustReady(Flatten(Converted(phases)), order, 0, order[i]))
  {
    assert order[0] in Elems(order) && order[i] in Elems(order);
    WaitsForInitAlone(phases, order[i]);
    WaitsForInitAlone(phases, order[0]);
    assert order[..0] == [] && order[..1] == [order[0]];
  }

  lemma {:induction false} InitThenRest(phases: seq<Phase>, order: seq<Id>)
    requires WellFormed(phases) && OneFlatPhase(phases) && !NoEmptyPhase(phases)
    requires FifoOrder(Flatten(Converted(phases)), order)
    ensures |order| >= 2 && order[0] == INIT
    ensures forall i :: 1 <= i < |order| ==> JustReady(Flatten(Converted(phases)), order, 0, order[i])
  {
    FlatConverted(phases);
    assert |order| == |Converted(phases)| >= 2;
    forall i | 0 <= i < |order|
      ensures order[i] == INIT || (i > 0 && JustReady(Flatten(Converted(phases)), order, 0, order[i]))
    {
      ReadyAfterInit(phases, order, i);
    }
  }

  lemma {:induction false} EndIsDeclaredLast(phases: seq<Phase>, v: Id)
    requires WellFormed(phases)
    ensures !Before(Flatten(Converted(phases)), END, v)
  {
    FlatConverted(phases);
    DeclaredOrdered(phases);
    var ids := Declared(phases);
    assert Flatten(Converted(phases)) == Plain(Converted(phases)) && ids[|ids| - 1] == END;
    forall p | 0 <= p < |ids| && Plain(Converted(phases))[p].id == END ensures p == |ids| - 1 {
      assert ids[p] == END;
    }
  }

  /** If all but the first get ready together, the last was declared behind the others. */
  lemma {:induction false} LastOfTheTies(nodes: seq<Entry>, order: seq<Id>, j: nat)
    requires TiesDeclared(nodes, order, |order|) && 1 <= j < |order|
    requires forall i :: 1 <= i < |order| ==> JustReady(nodes, order, 0, order[i])
    ensures j == |order| - 1 || Before(nodes, order[j], order[|order| - 1])
  {
    var last := |order| - 1;
    assert JustReady(nodes, order, 0, order[j]) && JustReady(nodes, order, 0, order[last]);
  }

  lemma {:induction false} EndComesLast(phases: seq<Phase>, order: seq<Id>)
    requires WellFormed(phases) && OneFlatPhase(phases) && !NoEmptyPhase(phases)
    requires FifoOrder(Flatten(Converted(phases)), order)
    ensures |order| > 0 && order[|order| - 1] == END
  {
    var flat := Flatten(Converted(phases));
    InitThenRest(phases, order);
    InitAndEnd(phases);
    NodeDependsOn(phases, EndNode(EndDeps(phases)));
    EndIsDeclaredLast(phases, order[|order| - 1]);
    assert END in Elems(order);
    LastOfTheTies(flat, order, IndexOf(order, END));
  }

  // ---------------------------------------------------------------- tasks that wait for other tasks

  lemma {:induction false} LastIsEmpty(phases: seq<Phase>)
    requires !NoEmptyPhase(phases)
    requires forall m :: 1 <= m < |phases| && phases[m].tasks != [] ==> phases[m - 1].tasks != []
    ensures phases[|phases| - 1].tasks == []
  {
    var e: nat :| e < |phases| && phases[e].tasks == [];
    while e < |phases| - 1
      invariant e < |phases| && phases[e].tasks == []
    {
      e := e + 1;
    }
  }

  /** A task that waits for another task. */
  lemma {:induction false} LateTask(phases: seq<Phase>) returns (n: DagNode, d: Id)
    requires WellFormed(phases) && ImplicitAfterFirst(phases)
    requires !NoEmptyPhase(phases) && !OneFlatPhase(phases)
    requires forall m :: 1 <= m < |phases| && phases[m].tasks != [] ==> phases[m - 1].tasks != []
    ensures n in Converted(phases) && n.id != END && d in n.dependsOn && d != INIT
  {
    if m: nat :| 1 <= m < |phases| && phases[m].tasks != [] {
      n, d := TaskBehind(phases, m);
    } else {
      var t, dep :| t in phases[0].tasks && dep in t.dependencies && dep != INIT;
      var k :| 0 <= k < |phases[0].tasks| && phases[0].tasks[k] == t;
      d := dep;
      n := TaskListed(phases, 0, k);
    }
  }

  lemma {:induction false} TaskBehind(phases: seq<Phase>, m: nat) returns (n: DagNode, d: Id)
    requires WellFormed(phases) && ImplicitAfterFirst(phases)
    requires 1 <= m < |phases| && phases[m].tasks != [] && phases[m - 1].tasks != []
    ensures n in Converted(phases) && n.id != END && d in n.dependsOn && d != INIT
  {
    d := phases[m - 1].tasks[0].number;
    assert phases[m].tasks[0] in phases[m].tasks;
    assert Numbers(phases[m - 1].tasks)[0] == d;
    NumberIsDeclared(phases, m - 1, 0);
    n := TaskListed(phases, m, 0);
  }

  /** One that waits only for the first is ahead of one that waits for another. */
  lemma {:induction false} NotOvertaken(nodes: seq<Entry>, order: seq<Id>, a: Id, b: Id, d: Id)
    requires order != [] && FirstCome(nodes, order, |order|) && a in order && b in order && a != b
    requires forall c :: DependsOn(nodes, a, c) ==> c == order[0]
    requires DependsOn(nodes, b, d) && d != order[0]
    ensures order[|order| - 1] != a
  {
    assert order[..1] == [order[0]];
    assert ReadyBy(nodes, a, Elems(order[..1])) && !ReadyBy(nodes, b, Elems(order[..1]));
    var i :| 0 <= i < |order| && order[i] == b;
  }
}
