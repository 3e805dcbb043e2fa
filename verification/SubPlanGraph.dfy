/** The scheduler over a tree of nodes with sub-plans (server-rs/src/dag_scheduler.rs). It starts the tasks and gates
    that are ready at their level, enters a sub-plan while its dependencies are satisfied, and completes it when its
    children are done. Together these rules make a graph of who waits for whom over all levels, which validation does
    not look at; the lemmas show level by level that the scheduler lets exactly those nodes proceed that wait for
    nothing open. */
module SubPlanGraph {
  import opened Util
  import opened FlatGraph
  import opened DagPlan

  // ---------------------------------------------------------------- the scheduler

  /** `node_deps_satisfied`. */
  predicate DepsSatisfied(siblings: seq<DagNode>, prefix: Option<Id>, n: DagNode, done: set<Id>) {
    forall d :: d in ScopeDeps(siblings, prefix, n.dependsOn) ==> d in done
  }

  /** `schedule_scope` starts the task or gate with this scoped id: it is ready at its own level, and every sub-plan
      around it is entered, that is, not done and with its dependencies satisfied. */
  ghost predicate CanStart(nodes: seq<DagNode>, prefix: Option<Id>, done: set<Id>, id: Id)
    decreases nodes
  {
    || (exists n :: n in ReadyAt(nodes, prefix, done) && !n.nodeType.SubPlan? && id == Scope(prefix, n.id))
    || exists i :: 0 <= i < |nodes| && nodes[i].nodeType.SubPlan?
                   && Scope(prefix, nodes[i].id) !in done && DepsSatisfied(nodes, prefix, nodes[i], done)
                   && CanStart(nodes[i].nodes, Some(Scope(prefix, nodes[i].id)), done, id)
  }

  /** `propagate_sub_plan_completion` completes the sub-plan with this scoped id: all its children are done, and there
      are some. */
  ghost predicate CanClose(nodes: seq<DagNode>, prefix: Option<Id>, done: set<Id>, id: Id)
    decreases nodes
  {
    exists i :: 0 <= i < |nodes| && nodes[i].nodeType.SubPlan?
                && (CanClose(nodes[i].nodes, Some(Scope(prefix, nodes[i].id)), done, id)
                    || (id == Scope(prefix, nodes[i].id) && Closes(nodes[i], id, done)))
  }

  predicate Closes(n: DagNode, scoped: Id, done: set<Id>) {
    scoped !in done && n.nodes != [] && forall c :: c in n.nodes ==> Scope(Some(scoped), c.id) in done
  }

  ghost predicate Progresses(nodes: seq<DagNode>, done: set<Id>, id: Id) {
    CanStart(nodes, None, done, id) || CanClose(nodes, None, done, id)
  }

  /** Nodes get done one at a time, each as the scheduler lets it. */
  ghost predicate SchedulerRun(nodes: seq<DagNode>, steps: seq<Id>) {
    if steps == [] then true
    else
      var front := steps[..|steps| - 1];
      SchedulerRun(nodes, front) && Progresses(nodes, Elems(front), steps[|steps| - 1])
  }

  // ---------------------------------------------------------------- who waits for whom

  /** Tasks and gates wait for their own dependencies and for those of the sub-plans around them. */
  ghost function Leaves(rest: seq<DagNode>, siblings: seq<DagNode>, prefix: Option<Id>, around: seq<Id>): seq<Entry>
    decreases rest
  {
    if rest == [] then []
    else
      var n, scoped := rest[0], Scope(prefix, rest[0].id);
      var deps := around + ScopeDeps(siblings, prefix, n.dependsOn);
      (if n.nodeType.SubPlan? then Leaves(n.nodes, n.nodes, Some(scoped), deps) else [Entry(scoped, deps)])
      + Leaves(rest[1..], siblings, prefix, around)
  }

  /** A sub-plan waits for its children; one without children never completes, so it waits for itself. */
  ghost function Children(n: DagNode, scoped: Id): (r: seq<Id>)
    ensures forall d :: d in r <==> if n.nodes == [] then d == scoped
                                    else exists c :: c in n.nodes && d == Scope(Some(scoped), c.id)
  {
    if n.nodes == [] then [scoped]
    else
      var r := seq(|n.nodes|, i requires 0 <= i < |n.nodes| => Scope(Some(scoped), n.nodes[i].id));
      assert forall i :: 0 <= i < |n.nodes| ==> r[i] == Scope(Some(scoped), n.nodes[i].id);
      r
  }

  ghost function Plans(rest: seq<DagNode>, prefix: Option<Id>): seq<Entry>
    decreases rest
  {
    if rest == [] then []
    else
      var n, scoped := rest[0], Scope(prefix, rest[0].id);
      (if n.nodeType.SubPlan? then [Entry(scoped, Children(n, scoped))] + Plans(n.nodes, Some(scoped)) else [])
      + Plans(rest[1..], prefix)
  }

  /** The graph of who waits for whom, over all levels. */
  ghost function Waits(nodes: seq<DagNode>): seq<Entry> {
    Leaves(nodes, nodes, None, []) + Plans(nodes, None)
  }

  /** Validated, and fresh. */
  ghost predicate Fresh(nodes: seq<DagNode>) {
    Valid(nodes) && AllActionable(nodes, {})
  }

  // ---------------------------------------------------------------- level by level

  ghost function LeafDeps(n: DagNode, siblings: seq<DagNode>, prefix: Option<Id>, around: seq<Id>): seq<Id> {
    around + ScopeDeps(siblings, prefix, n.dependsOn)
  }

  lemma {:induction false} LeavesByLevel(rest: seq<DagNode>, siblings: seq<DagNode>, prefix: Option<Id>,
                                         around: seq<Id>, e: Entry)
    ensures e in Leaves(rest, siblings, prefix, around) <==>
            exists i :: 0 <= i < |rest| && LeafFrom(rest[i], siblings, prefix, around, e)
  {
    if rest != [] {
      LeavesByLevel(rest[1..], siblings, prefix, around, e);
      if i :| 0 <= i < |rest[1..]| && LeafFrom(rest[1..][i], siblings, prefix, around, e) {
        assert rest[i + 1] == rest[1..][i];
      }
      if i :| 0 <= i < |rest| && LeafFrom(rest[i], siblings, prefix, around, e) {
        assert i > 0 ==> rest[i] == rest[1..][i - 1];
      }
    }
  }

  ghost predicate LeafFrom(n: DagNode, siblings: seq<DagNode>, prefix: Option<Id>, around: seq<Id>, e: Entry) {
    if n.nodeType.SubPlan?
    then e in Leaves(n.nodes, n.nodes, Some(Scope(prefix, n.id)), LeafDeps(n, siblings, prefix, around))
    else e == Entry(Scope(prefix, n.id), LeafDeps(n, siblings, prefix, around))
  }

  lemma {:induction false} PlansByLevel(rest: seq<DagNode>, prefix: Option<Id>, e: Entry)
    ensures e in Plans(rest, prefix) <==> exists i :: 0 <= i < |rest| && PlanFrom(rest[i], prefix, e)
  {
    if rest != [] {
      PlansByLevel(rest[1..], prefix, e);
      if i :| 0 <= i < |rest[1..]| && PlanFrom(rest[1..][i], prefix, e) {
        assert rest[i + 1] == rest[1..][i];
      }
      if i :| 0 <= i < |rest| && PlanFrom(rest[i], prefix, e) {
        assert i > 0 ==> rest[i] == rest[1..][i - 1];
      }
    }
  }

  ghost predicate PlanFrom(n: DagNode, prefix: Option<Id>, e: Entry) {
    n.nodeType.SubPlan?
    && (e == Entry(Scope(prefix, n.id), Children(n, Scope(prefix, n.id)))
        || e in Plans(n.nodes, Some(Scope(prefix, n.id))))
  }

  // ---------------------------------------------------------------- what progress means

  ghost predicate Unblocked(e: Entry, done: set<Id>, id: Id) {
    e.id == id && id !in done && forall d :: d in e.deps ==> d in done
  }

  lemma {:induction false} CloseMeaning(nodes: seq<DagNode>, prefix: Option<Id>, done: set<Id>, id: Id)
    ensures CanClose(nodes, prefix, done, id) <==> exists e :: e in Plans(nodes, prefix) && Unblocked(e, done, id)
    decreases nodes
  {
    forall i | 0 <= i < |nodes| && nodes[i].nodeType.SubPlan?
      ensures (CanClose(nodes[i].nodes, Some(Scope(prefix, nodes[i].id)), done, id)
               || (id == Scope(prefix, nodes[i].id) && Closes(nodes[i], id, done)))
              <==> exists e :: PlanFrom(nodes[i], prefix, e) && Unblocked(e, done, id)
    {
      ClosesHere(nodes[i], prefix, done, id);
    }
    if CanClose(nodes, prefix, done, id) {
      var i :| 0 <= i < |nodes| && nodes[i].nodeType.SubPlan?
               && (CanClose(nodes[i].nodes, Some(Scope(prefix, nodes[i].id)), done, id)
                   || (id == Scope(prefix, nodes[i].id) && Closes(nodes[i], id, done)));
      var e :| PlanFrom(nodes[i], prefix, e) && Unblocked(e, done, id);
      PlansByLevel(nodes, prefix, e);
    }
    if e :| e in Plans(nodes, prefix) && Unblocked(e, done, id) {
      PlansByLevel(nodes, prefix, e);
      var i :| 0 <= i < |nodes| && PlanFrom(nodes[i], prefix, e);
    }
  }

  lemma {:induction false} ClosesHere(n: DagNode, prefix: Option<Id>, done: set<Id>, id: Id)
    requires n.nodeType.SubPlan?
    ensures (CanClose(n.nodes, Some(Scope(prefix, n.id)), done, id)
             || (id == Scope(prefix, n.id) && Closes(n, id, done)))
            <==> exists e :: PlanFrom(n, prefix, e) && Unblocked(e, done, id)
    decreases n, 0
  {
    var scoped := Scope(prefix, n.id);
    var own := Entry(scoped, Children(n, scoped));
    CloseMeaning(n.nodes, Some(scoped), done, id);
    assert id == scoped && Closes(n, id, done) <==> Unblocked(own, done, id);
    assert PlanFrom(n, prefix, own);
    if e :| e in Plans(n.nodes, Some(scoped)) && Unblocked(e, done, id) {
      assert PlanFrom(n, prefix, e);
    }
  }

  /** Every sub-plan that is done has all its children done. */
  ghost predicate PlansClosed(nodes: seq<DagNode>, prefix: Option<Id>, done: set<Id>) {
    forall e :: e in Plans(nodes, prefix) && e.id in done ==> forall d :: d in e.deps ==> d in done
  }

  lemma {:induction false} BelowDone(nodes: seq<DagNode>, siblings: seq<DagNode>, prefix: Option<Id>, around: seq<Id>,
                                     done: set<Id>, e: Entry)
    requires PlansClosed(nodes, prefix, done) && e in Leaves(nodes, siblings, prefix, around)
    requires forall n :: n in nodes ==> Scope(prefix, n.id) in done
    ensures e.id in done
    decreases nodes
  {
    LeavesByLevel(nodes, siblings, prefix, around, e);
    var i :| 0 <= i < |nodes| && LeafFrom(nodes[i], siblings, prefix, around, e);
    var n, scoped := nodes[i], Scope(prefix, nodes[i].id);
    if n.nodeType.SubPlan? {
      PlansBelow(nodes, prefix, i);
      PlansClosedBelow(nodes, prefix, done, i);
      forall c | c in n.nodes ensures Scope(Some(scoped), c.id) in done {
        assert Scope(Some(scoped), c.id) in Children(n, scoped);
      }
      BelowDone(n.nodes, n.nodes, Some(scoped), LeafDeps(n, siblings, prefix, around), done, e);
    }
  }

  lemma {:induction false} PlansBelow(nodes: seq<DagNode>, prefix: Option<Id>, i: nat)
    requires i < |nodes| && nodes[i].nodeType.SubPlan?
    ensures var scoped := Scope(prefix, nodes[i].id);
            && Entry(scoped, Children(nodes[i], scoped)) in Plans(nodes, prefix)
            && forall e :: e in Plans(nodes[i].nodes, Some(scoped)) ==> e in Plans(nodes, prefix)
  {
    var scoped := Scope(prefix, nodes[i].id);
    PlansByLevel(nodes, prefix, Entry(scoped, Children(nodes[i], scoped)));
    forall e | e in Plans(nodes[i].nodes, Some(scoped)) ensures e in Plans(nodes, prefix) {
      assert PlanFrom(nodes[i], prefix, e);
      PlansByLevel(nodes, prefix, e);
    }
    assert PlanFrom(nodes[i], prefix, Entry(scoped, Children(nodes[i], scoped)));
  }

  lemma {:induction false} PlansClosedBelow(nodes: seq<DagNode>, prefix: Option<Id>, done: set<Id>, i: nat)
    requires i < |nodes| && nodes[i].nodeType.SubPlan? && PlansClosed(nodes, prefix, done)
    ensures PlansClosed(nodes[i].nodes, Some(Scope(prefix, nodes[i].id)), done)
  {
    PlansBelow(nodes, prefix, i);
  }

  ghost predicate LeavesActionable(nodes: seq<DagNode>, prefix: Option<Id>) {
    forall v :: v in Visits(nodes, prefix) ==> MayStart(v.node)
  }

  lemma {:induction false} ActionableBelow(nodes: seq<DagNode>, prefix: Option<Id>, i: nat)
    requires i < |nodes| && LeavesActionable(nodes, prefix)
    ensures MayStart(nodes[i])
    ensures nodes[i].nodeType.SubPlan? ==> LeavesActionable(nodes[i].nodes, Some(Scope(prefix, nodes[i].id)))
  {
    var n := nodes[i];
    assert n in nodes;
    VisitsByLevel(nodes, nodes, prefix, VisitOf(n, nodes, prefix));
    assert MayStart(VisitOf(n, nodes, prefix).node);
    if n.nodeType.SubPlan? {
      forall v | v in Visits(n.nodes, Some(Scope(prefix, n.id))) ensures MayStart(v.node) {
        VisitsByLevel(nodes, nodes, prefix, v);
      }
    }
  }

  /** What `CanStart` means at one node of a level. */
  ghost predicate StartsFrom(nodes: seq<DagNode>, i: nat, prefix: Option<Id>, done: set<Id>, id: Id)
    requires i < |nodes|
  {
    if nodes[i].nodeType.SubPlan?
    then Scope(prefix, nodes[i].id) !in done && DepsSatisfied(nodes, prefix, nodes[i], done)
         && CanStart(nodes[i].nodes, Some(Scope(prefix, nodes[i].id)), done, id)
    else nodes[i] in ReadyAt(nodes, prefix, done) && id == Scope(prefix, nodes[i].id)
  }

  lemma {:induction false} StartMeaning(nodes: seq<DagNode>, prefix: Option<Id>, around: seq<Id>, done: set<Id>, id: Id)
    requires LeavesActionable(nodes, prefix) && PlansClosed(nodes, prefix, done)
    requires forall d :: d in around ==> d in done
    ensures CanStart(nodes, prefix, done, id) <==>
            exists e :: e in Leaves(nodes, nodes, prefix, around) && Unblocked(e, done, id)
    decreases nodes
  {
    if CanStart(nodes, prefix, done, id) {
      var i := StartsSomewhere(nodes, prefix, done, id);
      var e := StartsHere(nodes, i, prefix, around, done, id);
      LeavesByLevel(nodes, nodes, prefix, around, e);
    }
    if e :| e in Leaves(nodes, nodes, prefix, around) && Unblocked(e, done, id) {
      LeavesByLevel(nodes, nodes, prefix, around, e);
      var i :| 0 <= i < |nodes| && LeafFrom(nodes[i], nodes, prefix, around, e);
      LeafStarts(nodes, i, prefix, around, done, id, e);
    }
  }

  lemma {:induction false} StartsSomewhere(nodes: seq<DagNode>, prefix: Option<Id>, done: set<Id>, id: Id)
    returns (i: nat)
    requires CanStart(nodes, prefix, done, id)
    ensures i < |nodes| && StartsFrom(nodes, i, prefix, done, id)
  {
    if n :| n in ReadyAt(nodes, prefix, done) && !n.nodeType.SubPlan? && id == Scope(prefix, n.id) {
      assert n in nodes;
      i :| 0 <= i < |nodes| && nodes[i] == n;
    } else {
      i :| 0 <= i < |nodes| && nodes[i].nodeType.SubPlan?
           && Scope(prefix, nodes[i].id) !in done && DepsSatisfied(nodes, prefix, nodes[i], done)
           && CanStart(nodes[i].nodes, Some(Scope(prefix, nodes[i].id)), done, id);
    }
  }

  lemma {:induction false} StartsHere(nodes: seq<DagNode>, i: nat, prefix: Option<Id>, around: seq<Id>, done: set<Id>,
                                      id: Id) returns (e: Entry)
    requires i < |nodes| && StartsFrom(nodes, i, prefix, done, id)
    requires LeavesActionable(nodes, prefix) && PlansClosed(nodes, prefix, done)
    requires forall d :: d in around ==> d in done
    ensures LeafFrom(nodes[i], nodes, prefix, around, e) && Unblocked(e, done, id)
    decreases nodes[i], 0
  {
    var n := nodes[i];
    var deps := LeafDeps(n, nodes, prefix, around);
    if n.nodeType.SubPlan? {
      ActionableBelow(nodes, prefix, i);
      PlansClosedBelow(nodes, prefix, done, i);
      StartMeaning(n.nodes, Some(Scope(prefix, n.id)), deps, done, id);
      e :| e in Leaves(n.nodes, n.nodes, Some(Scope(prefix, n.id)), deps) && Unblocked(e, done, id);
    } else {
      e := Entry(Scope(prefix, n.id), deps);
    }
  }

  lemma {:induction false} LeafStarts(nodes: seq<DagNode>, i: nat, prefix: Option<Id>, around: seq<Id>, done: set<Id>,
                                      id: Id, e: Entry)
    requires i < |nodes| && LeafFrom(nodes[i], nodes, prefix, around, e) && Unblocked(e, done, id)
    requires LeavesActionable(nodes, prefix) && PlansClosed(nodes, prefix, done)
    requires forall d :: d in around ==> d in done
    ensures CanStart(nodes, prefix, done, id)
    decreases nodes[i], 0
  {
    var n, scoped := nodes[i], Scope(prefix, nodes[i].id);
    var deps := LeafDeps(n, nodes, prefix, around);
    ActionableBelow(nodes, prefix, i);
    if n.nodeType.SubPlan? {
      PlansClosedBelow(nodes, prefix, done, i);
      LeafDepsKept(n.nodes, n.nodes, Some(scoped), deps, e);
      if scoped in done {
        PlansBelow(nodes, prefix, i);
        forall c | c in n.nodes ensures Scope(Some(scoped), c.id) in done {
          assert Scope(Some(scoped), c.id) in Children(n, scoped);
        }
        BelowDone(n.nodes, n.nodes, Some(scoped), deps, done, e);
      }
      StartMeaning(n.nodes, Some(scoped), deps, done, id);
    } else {
      assert n in ReadyAt(nodes, prefix, done);
    }
  }

  /** What is waited for around a sub-plan is waited for by everything in it. */
  lemma {:induction false} LeafDepsKept(rest: seq<DagNode>, siblings: seq<DagNode>, prefix: Option<Id>, around: seq<Id>,
                                        e: Entry)
    requires e in Leaves(rest, siblings, prefix, around)
    ensures forall d :: d in around ==> d in e.deps
    decreases rest
  {
    LeavesByLevel(rest, siblings, prefix, around, e);
    var i :| 0 <= i < |rest| && LeafFrom(rest[i], siblings, prefix, around, e);
    if rest[i].nodeType.SubPlan? {
      LeafDepsKept(rest[i].nodes, rest[i].nodes, Some(Scope(prefix, rest[i].id)),
                   LeafDeps(rest[i], siblings, prefix, around), e);
    }
  }

  /** What the scheduler can do next is what nothing is in the way of. */
  lemma {:induction false} ProgressMeaning(nodes: seq<DagNode>, done: set<Id>, id: Id)
    requires Fresh(nodes) && PlansClosed(nodes, None, done)
    ensures Progresses(nodes, done, id) <==> exists e :: e in Waits(nodes) && Unblocked(e, done, id)
  {
    assert LeavesActionable(nodes, None);
    StartMeaning(nodes, None, [], done, id);
    CloseMeaning(nodes, None, done, id);
  }

  // ---------------------------------------------------------------- runs

  /** What is done is closed under waiting, in the order of the run. */
  ghost predicate Kept(nodes: seq<DagNode>, steps: seq<Id>) {
    && NoDup(steps) && Elems(steps) <= Ids(Flatten(nodes)) && DepsBefore(Waits(nodes), steps)
    && PlansClosed(nodes, None, Elems(steps))
  }

  lemma {:induction false} RunKeepsWaits(nodes: seq<DagNode>, steps: seq<Id>)
    requires Fresh(nodes) && SchedulerRun(nodes, steps)
    ensures Kept(nodes, steps)
    decreases |steps|
  {
    if steps == [] {
      NothingDone(nodes);
    } else {
      var front, id := RunFront(nodes, steps);
      RunKeepsWaits(nodes, front);
      OneMoreStep(nodes, front, id, steps);
    }
  }

  lemma {:induction false} RunFront(nodes: seq<DagNode>, steps: seq<Id>) returns (front: seq<Id>, id: Id)
    requires steps != [] && SchedulerRun(nodes, steps)
    ensures steps == front + [id] && SchedulerRun(nodes, front) && Progresses(nodes, Elems(front), id)
  {
    front, id := steps[..|steps| - 1], steps[|steps| - 1];
  }

  lemma {:induction false} NothingDone(nodes: seq<DagNode>)
    ensures Kept(nodes, [])
  {
  }

  lemma {:induction false} OneMoreStep(nodes: seq<DagNode>, front: seq<Id>, id: Id, steps: seq<Id>)
    requires Fresh(nodes) && Kept(nodes, front) && Progresses(nodes, Elems(front), id) && steps == front + [id]
    ensures Kept(nodes, steps)
  {
    var e := NextEntry(nodes, Elems(front), id);
    SameNodes(nodes);
    OneMoreDone(nodes, front, e, steps);
  }

  lemma {:induction false} NextEntry(nodes: seq<DagNode>, done: set<Id>, id: Id) returns (e: Entry)
    requires Fresh(nodes) && PlansClosed(nodes, None, done) && Progresses(nodes, done, id)
    ensures e in Waits(nodes) && Unblocked(e, done, id)
  {
    ProgressMeaning(nodes, done, id);
    e :| e in Waits(nodes) && Unblocked(e, done, id);
  }

  lemma {:induction false} OneMoreDone(nodes: seq<DagNode>, front: seq<Id>, e: Entry, steps: seq<Id>)
    requires DistinctIds(Waits(nodes)) && Ids(Waits(nodes)) == Ids(Flatten(nodes)) && steps == front + [e.id]
    requires Kept(nodes, front) && e in Waits(nodes) && Unblocked(e, Elems(front), e.id)
    ensures Kept(nodes, steps)
  {
    var waits := Waits(nodes);
    forall i, b | 0 <= i < |steps| && DependsOn(waits, steps[i], b) ensures b in steps[..i] {
      if i < |front| {
        assert steps[..i] == front[..i];
      } else {
        assert steps[..i] == front;
        var f :| f in waits && f.id == steps[i] && b in f.deps;
        OneEntry(waits, e, f);
      }
    }
    forall f | f in Plans(nodes, None) && f.id in Elems(steps) ensures forall d :: d in f.deps ==> d in Elems(steps) {
      if f.id == e.id {
        OneEntry(waits, e, f);
      }
    }
  }

  lemma {:induction false} OneEntry(waits: seq<Entry>, e: Entry, f: Entry)
    requires DistinctIds(waits) && e in waits && f in waits && e.id == f.id
    ensures e == f
  {
  }

  // ---------------------------------------------------------------- the same nodes, waiting for one another

  lemma {:induction false} SameNodes(nodes: seq<DagNode>)
    requires Valid(nodes)
    ensures Ids(Waits(nodes)) == Ids(Flatten(nodes)) && DistinctIds(Waits(nodes)) && Closed(Waits(nodes))
  {
    var flat, waits := Flatten(nodes), Waits(nodes);
    var order :| TopoOrder(flat, order);
    NoDupCardinality(order);
    IdsCardinality(flat);
    SameIds(nodes, nodes, None, []);
    SameCount(nodes, nodes, None, []);
    IdsAppend(Leaves(nodes, nodes, None, []), Plans(nodes, None));
    IdsCardinality(waits);
    OrderedIsClosed(flat, order);
    forall v | v in Visits(nodes, None)
      ensures v.entry.id in Ids(flat) && forall d :: d in v.entry.deps ==> d in Ids(flat)
    {
      var i :| 0 <= i < |flat| && Visits(nodes, None)[i] == v;
      assert flat[i] == v.entry && v.entry in flat;
      assert forall d :: d in v.entry.deps ==> DependsOn(flat, v.entry.id, d);
    }
    forall e | e in waits ensures forall d :: d in e.deps ==> d in Ids(flat) {
      DepsAreNodes(nodes, nodes, None, [], Ids(flat), e);
    }
  }

  lemma {:induction false} OrderedIsClosed(flat: seq<Entry>, order: seq<Id>)
    requires TopoOrder(flat, order)
    ensures Closed(flat)
  {
    forall a, b | DependsOn(flat, a, b) ensures b in Ids(flat) {
      assert a in Elems(order);
      var i :| 0 <= i < |order| && order[i] == a;
      assert b in order[..i];
      assert b in Elems(order);
    }
  }

  lemma {:induction false} IdsAppend(a: seq<Entry>, b: seq<Entry>)
    ensures Ids(a + b) == Ids(a) + Ids(b)
  {
  }

  lemma {:induction false} SameIds(rest: seq<DagNode>, siblings: seq<DagNode>, prefix: Option<Id>, around: seq<Id>)
    ensures Ids(Leaves(rest, siblings, prefix, around)) + Ids(Plans(rest, prefix)) ==
            Ids(Entries(VisitsFrom(rest, siblings, prefix)))
    decreases rest
  {
    if rest != [] {
      var n, scoped := rest[0], Scope(prefix, rest[0].id);
      SameIds(rest[1..], siblings, prefix, around);
      LeavesIds(rest, siblings, prefix, around);
      PlansIds(rest, prefix);
      VisitsIds(rest, siblings, prefix);
      if n.nodeType.SubPlan? {
        SameIds(n.nodes, n.nodes, Some(scoped), LeafDeps(n, siblings, prefix, around));
      }
    }
  }

  lemma {:induction false} LeavesIds(rest: seq<DagNode>, siblings: seq<DagNode>, prefix: Option<Id>, around: seq<Id>)
    requires rest != []
    ensures var n, scoped := rest[0], Scope(prefix, rest[0].id);
            Ids(Leaves(rest, siblings, prefix, around)) ==
            (if n.nodeType.SubPlan?
             then Ids(Leaves(n.nodes, n.nodes, Some(scoped), LeafDeps(n, siblings, prefix, around)))
             else {scoped}) + Ids(Leaves(rest[1..], siblings, prefix, around))
  {
    var n, scoped := rest[0], Scope(prefix, rest[0].id);
    var deps := LeafDeps(n, siblings, prefix, around);
    var here := if n.nodeType.SubPlan? then Leaves(n.nodes, n.nodes, Some(scoped), deps) else [Entry(scoped, deps)];
    IdsAppend(here, Leaves(rest[1..], siblings, prefix, around));
  }

  lemma {:induction false} PlansIds(rest: seq<DagNode>, prefix: Option<Id>)
    requires rest != []
    ensures var n, scoped := rest[0], Scope(prefix, rest[0].id);
            Ids(Plans(rest, prefix)) ==
            (if n.nodeType.SubPlan? then {scoped} + Ids(Plans(n.nodes, Some(scoped))) else {})
            + Ids(Plans(rest[1..], prefix))
  {
    var n, scoped := rest[0], Scope(prefix, rest[0].id);
    var own := Entry(scoped, Children(n, scoped));
    var here := if n.nodeType.SubPlan? then [own] + Plans(n.nodes, Some(scoped)) else [];
    IdsAppend(here, Plans(rest[1..], prefix));
    IdsAppend([own], Plans(n.nodes, Some(scoped)));
  }

  lemma {:induction false} VisitsIds(rest: seq<DagNode>, siblings: seq<DagNode>, prefix: Option<Id>)
    requires rest != []
    ensures var n, scoped := rest[0], Scope(prefix, rest[0].id);
            Ids(Entries(VisitsFrom(rest, siblings, prefix))) ==
            {scoped} + (if n.nodeType.SubPlan? then Ids(Entries(VisitsFrom(n.nodes, n.nodes, Some(scoped)))) else {})
            + Ids(Entries(VisitsFrom(rest[1..], siblings, prefix)))
  {
    var n, scoped := rest[0], Scope(prefix, rest[0].id);
    var below := if n.nodeType.SubPlan? then VisitsFrom(n.nodes, n.nodes, Some(scoped)) else [];
    VisitIds(VisitOf(n, siblings, prefix), below, VisitsFrom(rest[1..], siblings, prefix));
  }

  lemma {:induction false} SameCount(rest: seq<DagNode>, siblings: seq<DagNode>, prefix: Option<Id>, around: seq<Id>)
    ensures |Leaves(rest, siblings, prefix, around)| + |Plans(rest, prefix)| == |VisitsFrom(rest, siblings, prefix)|
    decreases rest
  {
    if rest != [] {
      var n, scoped := rest[0], Scope(prefix, rest[0].id);
      SameCount(rest[1..], siblings, prefix, around);
      if n.nodeType.SubPlan? {
        SameCount(n.nodes, n.nodes, Some(scoped), LeafDeps(n, siblings, prefix, around));
      }
    }
  }

  lemma {:induction false} VisitIds(v: Visit, below: seq<Visit>, after: seq<Visit>)
    ensures Ids(Entries([v] + below + after)) == {v.entry.id} + Ids(Entries(below)) + Ids(Entries(after))
  {
    EntriesConcat([v] + below, after);
    EntriesConcat([v], below);
    assert Entries([v]) == [v.entry];
    IdsAppend([v.entry] + Entries(below), Entries(after));
    IdsAppend([v.entry], Entries(below));
  }

  lemma {:induction false} DepsAreNodes(rest: seq<DagNode>, siblings: seq<DagNode>, prefix: Option<Id>, around: seq<Id>,
                                        all: set<Id>, e: Entry)
    requires e in Leaves(rest, siblings, prefix, around) || e in Plans(rest, prefix)
    requires forall d :: d in around ==> d in all
    requires forall v :: v in VisitsFrom(rest, siblings, prefix) ==>
               v.entry.id in all && forall d :: d in v.entry.deps ==> d in all
    ensures forall d :: d in e.deps ==> d in all
    decreases rest
  {
    LeavesByLevel(rest, siblings, prefix, around, e);
    PlansByLevel(rest, prefix, e);
    var i :| 0 <= i < |rest| && (LeafFrom(rest[i], siblings, prefix, around, e) || PlanFrom(rest[i], prefix, e));
    var n, scoped := rest[i], Scope(prefix, rest[i].id);
    var deps := LeafDeps(n, siblings, prefix, around);
    assert n in rest;
    VisitsByLevel(rest, siblings, prefix, VisitOf(n, siblings, prefix));
    assert VisitOf(n, siblings, prefix) in VisitsFrom(rest, siblings, prefix);
    if n.nodeType.SubPlan? {
      forall v | v in Visits(n.nodes, Some(scoped)) ensures v in VisitsFrom(rest, siblings, prefix) {
        VisitsByLevel(rest, siblings, prefix, v);
      }
      if e.id == scoped && e == Entry(scoped, Children(n, scoped)) {
        forall c | c in n.nodes ensures Scope(Some(scoped), c.id) in all {
          VisitsByLevel(n.nodes, n.nodes, Some(scoped), VisitOf(c, n.nodes, Some(scoped)));
          assert VisitOf(c, n.nodes, Some(scoped)) in Visits(n.nodes, Some(scoped));
        }
      } else {
        DepsAreNodes(n.nodes, n.nodes, Some(scoped), deps, all, e);
      }
    }
  }
}
