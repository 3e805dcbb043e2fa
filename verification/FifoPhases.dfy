/** When the one order that validation returns keeps the phases of a plan in order (server-rs/src/dag.rs). */
module FifoPhases {
  import opened Util
  import opened FlatGraph
  import opened Lines
  import opened Kahn
  import opened DagPlan
  import opened PhasePlan
  import opened PhaseOrder
  import opened ConvertedNodes

  /** Every order the validator can return keeps a well-formed phase plan in phase order if and only if no phase is
      empty, or all tasks are in the first phase and depend on nothing but `init`. */
  lemma {:induction false} FifoPhaseOrderExactly(phases: seq<Phase>)
    requires WellFormed(phases) && ImplicitAfterFirst(phases)
    ensures (forall order :: FifoOrder(Flatten(Converted(phases)), order) ==> InPhaseOrder(phases, order))
            <==> NoEmptyPhase(phases) || OneFlatPhase(phases)
  {
    var flat := Flatten(Converted(phases));
    if NoEmptyPhase(phases) {
      forall order | FifoOrder(flat, order) ensures InPhaseOrder(phases, order) {
        PhasesStayInOrder(phases, order);
      }
    } else if OneFlatPhase(phases) {
      forall order | FifoOrder(flat, order) ensures InPhaseOrder(phases, order) {
        FlatPhaseStaysInOrder(phases, order);
      }
    } else if m: nat :| 1 <= m < |phases| && phases[m].tasks != [] && phases[m - 1].tasks == [] {
      OrphanIsReturnedFirst(phases, m);
    } else {
      EndIsServedEarly(phases);
    }
  }

  /** Without empty phases the order does not depend on the hash map. */
  lemma {:induction false} SameOrderEveryTime(phases: seq<Phase>, order1: seq<Id>, order2: seq<Id>)
    requires WellFormed(phases) && NoEmptyPhase(phases)
    requires FifoOrder(Flatten(Converted(phases)), order1) && FifoOrder(Flatten(Converted(phases)), order2)
    ensures order1 == order2
  {
    var flat := Flatten(Converted(phases));
    WellFormedPlanValidates(phases);
    forall a | a in Elems(order1) && ReadyBy(flat, a, {}) ensures a == INIT {
      OnlyInitIsReady(phases, a);
    }
    FifoDetermined(flat, order1, order2);
  }

  lemma {:induction false} FlatPhaseStaysInOrder(phases: seq<Phase>, order: seq<Id>)
    requires WellFormed(phases) && OneFlatPhase(phases) && !NoEmptyPhase(phases)
    requires FifoOrder(Flatten(Converted(phases)), order)
    ensures InPhaseOrder(phases, order)
  {
    InitThenRest(phases, order);
    EndComesLast(phases, order);
  }

  lemma {:induction false} OrphanIsReturnedFirst(phases: seq<Phase>, m: nat)
    requires WellFormed(phases) && ImplicitAfterFirst(phases)
    requires 1 <= m < |phases| && phases[m].tasks != [] && phases[m - 1].tasks == []
    ensures exists order :: FifoOrder(Flatten(Converted(phases)), order) && !InPhaseOrder(phases, order)
  {
    WellFormedPlanValidates(phases);
    var k := OrphanPosition(phases, m);
    var orphan := Converted(phases)[k];
    NodeDependsOn(phases, orphan);
    var queue := QueueFrom(Flatten(Converted(phases)), orphan.id);
    var order := FifoFrom(Flatten(Converted(phases)), queue);
    assert order[0] == queue[0];
    DeclaredOrdered(phases);
    assert Declared(phases)[k] == orphan.id && Declared(phases)[0] == INIT;
    assert !InPhaseOrder(phases, order);
  }

  /** With nothing in the last phase, `end` gets ready as soon as `init` is done, ahead of any task that waits for
      another task. */
  lemma {:induction false} EndIsServedEarly(phases: seq<Phase>)
    requires WellFormed(phases) && ImplicitAfterFirst(phases)
    requires !NoEmptyPhase(phases) && !OneFlatPhase(phases)
    requires forall m :: 1 <= m < |phases| && phases[m].tasks != [] ==> phases[m - 1].tasks != []
    ensures exists order :: FifoOrder(Flatten(Converted(phases)), order) && !InPhaseOrder(phases, order)
  {
    var flat := Flatten(Converted(phases));
    WellFormedPlanValidates(phases);
    InitAndEnd(phases);
    NodeDependsOn(phases, InitNode);
    NodeDependsOn(phases, EndNode(EndDeps(phases)));
    LastIsEmpty(phases);
    var late, d := LateTask(phases);
    NodeDependsOn(phases, late);
    assert late.id in Ids(flat) && END in Ids(flat);
    var queue := QueueFrom(flat, INIT);
    var order := FifoFrom(flat, queue);
    assert order[0] == queue[0];
    NotOvertaken(flat, order, END, late.id, d);
  }
}
