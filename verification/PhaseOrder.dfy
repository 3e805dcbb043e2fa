/** What conversion of phase plans promises about orders, and exactly when (server-rs/src/dag.rs). */
module PhaseOrder {
  import opened Util
  import opened FlatGraph
  import opened Kahn
  import opened DagPlan
  import opened PhasePlan

  /** A well-formed phase plan converts to a graph that validates; declaration order is one of its orders. */
  lemma {:induction false} WellFormedPlanValidates(phases: seq<Phase>)
    requires WellFormed(phases)
    ensures TopoOrder(Flatten(Converted(phases)), Declared(phases))
    ensures Closed(Flatten(Converted(phases))) && DistinctIds(Flatten(Converted(phases)))
        && Acyclic(Flatten(Converted(phases)))
  {
    FlatConverted(phases);
    DeclaredOrdered(phases);
    var flat := Flatten(Converted(phases));
    OrderedIsTopological(flat, Declared(phases));
    TopoOrderGivesRank(flat, Declared(phases));
    forall a, b | DependsOn(flat, a, b) ensures b in Ids(flat) {
      assert a in Elems(Declared(phases));
      var i :| 0 <= i < |Declared(phases)| && Declared(phases)[i] == a;
      assert b in Declared(phases)[..i];
      assert b in Elems(Declared(phases));
    }
  }

  /** Without empty phases every node but `init` depends on something. */
  lemma {:induction false} InitIsOnlySource(phases: seq<Phase>, n: DagNode)
    requires NoEmptyPhase(phases) && n in Converted(phases)
    ensures n.dependsOn == [] <==> n == InitNode
  {
    if n in PhaseNodes(phases) {
      var i, j := PhaseNodeOrigin(phases, n);
    }
  }

  /** Hence every order starts with `init`. */
  lemma {:induction false} InitIsFirst(phases: seq<Phase>, order: seq<Id>)
    requires NoEmptyPhase(phases)
    requires TopoOrder(Flatten(Converted(phases)), order)
    ensures |order| > 0 && order[0] == INIT
  {
    FlatConverted(phases);
    var nodes := Converted(phases);
    assert |order| == |nodes| >= 2;
    assert order[0] in Elems(order);
    var e :| e in Plain(nodes) && e.id == order[0];
    var k :| 0 <= k < |nodes| && Plain(nodes)[k] == e;
    forall d ensures d !in e.deps {
      assert d in e.deps ==> DependsOn(Plain(nodes), order[0], d);
      assert order[..0] == [];
    }
    EmptySeq(e.deps);
    InitIsOnlySource(phases, nodes[k]);
  }

  lemma {:induction false} EndIsLast(phases: seq<Phase>, order: seq<Id>)
    requires ImplicitAfterFirst(phases) && NoEmptyPhase(phases)
    requires TopoOrder(Flatten(Converted(phases)), order)
    ensures |order| >= 2 && order[|order| - 1] == END
  {
    FlatConverted(phases);
    var nodes, n := Converted(phases), |order|;
    assert n == |nodes|;
    assert order[n - 1] in Elems(order);
    var e :| e in Plain(nodes) && e.id == order[n - 1];
    var k :| 0 <= k < n && Plain(nodes)[k] == e;
    if k < n - 1 {
      assert nodes[k] in [InitNode] + PhaseNodes(phases);
      BeforeEnd(phases, order, nodes[k]);
      LastPrecedesNothing(order, nodes[k].id, END);
    }
  }

  /** Every node but `end` comes before `end`. */
  lemma {:induction false} BeforeEnd(phases: seq<Phase>, order: seq<Id>, n: DagNode)
    requires ImplicitAfterFirst(phases) && NoEmptyPhase(phases)
    requires TopoOrder(Flatten(Converted(phases)), order)
    requires n in [InitNode] + PhaseNodes(phases)
    ensures Precedes(order, n.id, END)
  {
    var flat := Flatten(Converted(phases));
    var end := EndNode(EndDeps(phases));
    assert end in Converted(phases);
    if n == InitNode {
      InitBeforeEnd(phases, order);
    } else {
      var i, j := PhaseNodeOrigin(phases, n);
      assert Numbers(phases[i].tasks)[j] == n.id;
      var last := |phases| - 1;
      var c := if i == last then n.id else phases[last].tasks[0].number;
      assert Numbers(phases[last].tasks)[0] == phases[last].tasks[0].number;
      EntryListed(phases, end, c);
      DependencyPrecedes(flat, order, END, c);
      if i < last {
        LaterPhaseLater(phases, order, i, last, n.id, c);
        PrecedesTransitive(order, n.id, c, END);
      }
    }
  }

  lemma {:induction false} InitBeforeEnd(phases: seq<Phase>, order: seq<Id>)
    requires NoEmptyPhase(phases)
    requires TopoOrder(Flatten(Converted(phases)), order)
    ensures Precedes(order, INIT, END)
  {
    var end := EndNode(EndDeps(phases));
    assert end in Converted(phases);
    EntryListed(phases, end, EndDeps(phases)[0]);
    DependencyPrecedes(Flatten(Converted(phases)), order, END, EndDeps(phases)[0]);
    InitIsFirst(phases, order);
    var i, j :| 0 <= i < j < |order| && order[i] == EndDeps(phases)[0] && order[j] == END;
    assert order[0] == INIT && 0 < j;
  }

  /** Without empty phases, every order the validator can return keeps the phases in order. */
  lemma {:induction false} PhasesStayInOrder(phases: seq<Phase>, order: seq<Id>)
    requires ImplicitAfterFirst(phases) && NoEmptyPhase(phases)
    requires TopoOrder(Flatten(Converted(phases)), order)
    ensures InPhaseOrder(phases, order)
  {
    InitIsFirst(phases, order);
    EndIsLast(phases, order);
    forall i, j, a, b | 0 <= i < j < |phases| && a in Numbers(phases[i].tasks) && b in Numbers(phases[j].tasks)
      ensures Precedes(order, a, b)
    {
      LaterPhaseLater(phases, order, i, j, a, b);
    }
  }

  /** A task right after an empty phase lost its edges, so it can even run before `init`. */
  lemma {:induction false} OrphanedTaskGoesFirst(phases: seq<Phase>, m: nat)
    requires WellFormed(phases) && ImplicitAfterFirst(phases)
    requires 1 <= m < |phases| && phases[m].tasks != [] && phases[m - 1].tasks == []
    ensures exists order :: TopoOrder(Flatten(Converted(phases)), order) && !InPhaseOrder(phases, order)
                            && |order| > 0 && order[0] == phases[m].tasks[0].number
  {
    WellFormedPlanValidates(phases);
    FlatConverted(phases);
    DeclaredOrdered(phases);
    var flat, order := Flatten(Converted(phases)), Declared(phases);
    var k := OrphanPosition(phases, m);
    NoDependencies(flat, order, k);
    MoveUp(flat, order, k, 0);
    assert order[0] == INIT;
    assert Moved(order, k, 0)[0] == order[k] != INIT;
    assert order[k] == flat[k].id;
    assert !InPhaseOrder(phases, Moved(order, k, 0));
  }

  /** When the last phase is empty, `end` only waits for `init` and may overtake every task. */
  lemma {:induction false} EndGoesEarly(phases: seq<Phase>)
    requires WellFormed(phases)
    requires phases != [] && phases[|phases| - 1].tasks == [] && AllNumbers(phases) != []
    ensures exists order :: TopoOrder(Flatten(Converted(phases)), order) && !InPhaseOrder(phases, order)
                            && forall x :: x in AllNumbers(phases) ==> Precedes(order, END, x)
  {
    WellFormedPlanValidates(phases);
    FlatConverted(phases);
    DeclaredOrdered(phases);
    var flat, order := Flatten(Converted(phases)), Declared(phases);
    var k := |order| - 1;
    assert order[k] == END && flat[k] == Entry(END, [INIT]);
    forall b | DependsOn(flat, order[k], b) ensures b in order[..1] {
      var e :| e in flat && e.id == order[k] && b in e.deps;
      var l :| 0 <= l < |flat| && flat[l] == e;
      assert l == k;
      assert order[..1][0] == INIT;
    }
    MoveUp(flat, order, k, 1);
    var moved := Moved(order, k, 1);
    assert moved[1] == END && |moved| > 2;
    assert !InPhaseOrder(phases, moved);
    forall x | x in AllNumbers(phases) ensures Precedes(moved, END, x) {
      NumbersAreDeclared(phases, x);
      SameElements(order, k, 1);
      assert x in Elems(moved);
      var i :| 0 <= i < |moved| && moved[i] == x;
      assert moved[0] == INIT;
    }
  }

  /** All orders of a well-formed phase plan keep the phases in order if and only if the plan has no empty phase,
      or nothing but empty phases. */
  lemma {:induction false} PhaseOrderExactly(phases: seq<Phase>)
    requires WellFormed(phases) && ImplicitAfterFirst(phases)
    ensures (forall order :: TopoOrder(Flatten(Converted(phases)), order) ==> InPhaseOrder(phases, order))
            <==> NoEmptyPhase(phases) || AllPhasesEmpty(phases)
  {
    if NoEmptyPhase(phases) {
      forall order | TopoOrder(Flatten(Converted(phases)), order) ensures InPhaseOrder(phases, order) {
        PhasesStayInOrder(phases, order);
      }
    } else if AllPhasesEmpty(phases) {
      forall order | TopoOrder(Flatten(Converted(phases)), order) ensures InPhaseOrder(phases, order) {
        EmptyPlanOrder(phases, order);
      }
    } else {
      var e :| 0 <= e < |phases| && phases[e].tasks == [];
      var f :| 0 <= f < |phases| && phases[f].tasks != [];
      var last := |phases| - 1;
      if e < f {
        var m := EmptyThenTask(phases, e, f);
        OrphanedTaskGoesFirst(phases, m);
      } else if phases[last].tasks == [] {
        SomeNumber(phases, f);
        EndGoesEarly(phases);
      } else {
        var m := EmptyThenTask(phases, e, last);
        OrphanedTaskGoesFirst(phases, m);
      }
    }
  }
}
