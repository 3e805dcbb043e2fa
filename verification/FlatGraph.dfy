/** Flat graphs of (scoped id, dependencies) pairs and what an order of one is: the specification of
    `validate_flat_graph` in server-rs/src/dag.rs. Dependencies first; ranks, closed walks, and the sets of nodes
    waiting on one another; and the orders that serve first come first, with ties as declared. Then the edges of a
    graph counted with multiplicity, as in-degrees count them, and the small facts about ranks, stuck sets and walks
    that the algorithm's proof rests on. */
module FlatGraph {
  import opened Util

  type Id = string

  datatype Entry = Entry(id: Id, deps: seq<Id>)

  // ---------------------------------------------------------------- the specification

  ghost function Ids(nodes: seq<Entry>): set<Id> {
    set e | e in nodes :: e.id
  }

  /** Node `a` lists `b` among its dependencies. */
  ghost predicate DependsOn(nodes: seq<Entry>, a: Id, b: Id) {
    exists e :: e in nodes && e.id == a && b in e.deps
  }

  ghost predicate Closed(nodes: seq<Entry>) {
    forall a, b :: DependsOn(nodes, a, b) ==> b in Ids(nodes)
  }

  ghost predicate DistinctIds(nodes: seq<Entry>) {
    forall i, j :: 0 <= i < j < |nodes| ==> nodes[i].id != nodes[j].id
  }

  ghost predicate Ranked(nodes: seq<Entry>, rank: map<Id, nat>) {
    && Ids(nodes) <= rank.Keys
    && forall a, b :: DependsOn(nodes, a, b) && b in rank ==> a in rank && rank[b] < rank[a]
  }

  ghost predicate Acyclic(nodes: seq<Entry>) {
    exists rank :: Ranked(nodes, rank)
  }

  ghost predicate DepsBefore(nodes: seq<Entry>, order: seq<Id>) {
    forall i, b :: 0 <= i < |order| && DependsOn(nodes, order[i], b) ==> b in order[..i]
  }

  /** A permutation of the ids in which every dependency precedes its dependents. */
  ghost predicate TopoOrder(nodes: seq<Entry>, order: seq<Id>) {
    && |order| == |nodes|
    && NoDup(order)
    && Elems(order) == Ids(nodes)
    && DepsBefore(nodes, order)
  }

  /** Some dependency of `a` is in `s`. */
  ghost predicate WaitsOn(nodes: seq<Entry>, a: Id, s: set<Id>) {
    exists b :: b in s && DependsOn(nodes, a, b)
  }

  /** Every member has a dependency inside the set, so none can ever be ordered. */
  ghost predicate Stuck(nodes: seq<Entry>, s: set<Id>) {
    && s <= Ids(nodes)
    && forall a {:trigger WaitsOn(nodes, a, s)} :: a in s ==> WaitsOn(nodes, a, s)
  }

  ghost predicate GreatestStuck(nodes: seq<Entry>, s: set<Id>) {
    && Stuck(nodes, s)
    && forall t :: Stuck(nodes, t) ==> t <= s
  }

  /** A closed walk along dependencies. */
  ghost predicate CycleWalk(nodes: seq<Entry>, walk: seq<Id>) {
    && |walk| >= 2
    && walk[0] == walk[|walk| - 1]
    && forall i :: 0 <= i < |walk| - 1 ==> DependsOn(nodes, walk[i], walk[i + 1])
  }

  // ---------------------------------------------------------------- orders that serve first come first

  /** All that node v depends on is done. */
  ghost predicate ReadyBy(nodes: seq<Entry>, v: Id, done: set<Id>) {
    forall b :: DependsOn(nodes, v, b) ==> b in done
  }

  ghost function Ready(nodes: seq<Entry>, done: set<Id>): set<Id> {
    set v | v in Ids(nodes) && ReadyBy(nodes, v, done)
  }

  /** Whoever stands behind another in the line was not ready earlier, as far as the first n have been served. */
  ghost predicate FirstCome(nodes: seq<Entry>, line: seq<Id>, n: nat) {
    forall i, j, k ::
      0 <= i < j < |line| && 0 <= k <= n <= |line| && ReadyBy(nodes, line[j], Elems(line[..k])) ==>
        ReadyBy(nodes, line[i], Elems(line[..k]))
  }

  ghost predicate Precedes(order: seq<Id>, a: Id, b: Id) {
    exists i, j :: 0 <= i < j < |order| && order[i] == a && order[j] == b
  }

  ghost predicate Before(nodes: seq<Entry>, a: Id, b: Id) {
    exists p, q :: 0 <= p < q < |nodes| && nodes[p].id == a && nodes[q].id == b
  }

  /** Serving the k-th in the line made v ready. */
  ghost predicate JustReady(nodes: seq<Entry>, line: seq<Id>, k: nat, v: Id)
    requires k < |line|
  {
    ReadyBy(nodes, v, Elems(line[..k + 1])) && !ReadyBy(nodes, v, Elems(line[..k]))
  }

  /** Those who get ready together stand in the order of their declaration. */
  ghost predicate TiesDeclared(nodes: seq<Entry>, line: seq<Id>, n: nat) {
    forall i, j, k ::
      0 <= i < j < |line| && 0 <= k < n <= |line|
      && JustReady(nodes, line, k, line[i]) && JustReady(nodes, line, k, line[j]) ==>
        Before(nodes, line[i], line[j])
  }

  /** The orders the queue yields: first come, first served, whatever the order among the nodes without dependencies. */
  ghost predicate FifoOrder(nodes: seq<Entry>, order: seq<Id>) {
    TopoOrder(nodes, order) && FirstCome(nodes, order, |order|) && TiesDeclared(nodes, order, |order|)
  }

  // ---------------------------------------------------------------- counting edges

  /** `src` has to come before `dst`. */
  datatype Edge = Edge(src: Id, dst: Id)

  /** Edges into `v` whose source has not been ordered yet, counted with multiplicity. */
  ghost function InCount(edges: seq<Edge>, v: Id, gone: set<Id>): nat {
    if edges == [] then 0
    else
      var e := edges[|edges| - 1];
      InCount(edges[..|edges| - 1], v, gone) + if e.dst == v && e.src !in gone then 1 else 0
  }

  /** The targets of the edges leaving `u`, in order and with multiplicity. */
  ghost function Succs(edges: seq<Edge>, u: Id): seq<Id> {
    if edges == [] then []
    else
      var e := edges[|edges| - 1];
      Succs(edges[..|edges| - 1], u) + if e.src == u then [e.dst] else []
  }

  ghost function Count(s: seq<Id>, v: Id): nat {
    if s == [] then 0
    else Count(s[..|s| - 1], v) + if s[|s| - 1] == v then 1 else 0
  }

  /** `edges` lists exactly the dependencies of `nodes`. */
  ghost predicate EdgesOf(nodes: seq<Entry>, edges: seq<Edge>) {
    forall a, b :: DependsOn(nodes, a, b) <==> Edge(b, a) in edges
  }

  lemma {:induction false} AppendEdge(edges: seq<Edge>, e: Edge)
    ensures forall u :: Succs(edges + [e], u) == Succs(edges, u) + if e.src == u then [e.dst] else []
    ensures forall v :: InCount(edges + [e], v, {}) == InCount(edges, v, {}) + if e.dst == v then 1 else 0
  {
    assert (edges + [e])[..|edges|] == edges;
  }

  lemma {:induction false} CountAppend(s: seq<Id>, v: Id, k: nat)
    requires k < |s|
    ensures Count(s[..k + 1], v) == Count(s[..k], v) + if s[k] == v then 1 else 0
    ensures Count(s[..k + 1], v) <= Count(s, v)
    decreases |s|
  {
    assert s[..k + 1][..k] == s[..k];
    if k + 1 < |s| {
      var front := s[..|s| - 1];
      CountAppend(front, v, k);
      assert front[..k + 1] == s[..k + 1] && front[..k] == s[..k];
    } else {
      assert s[..k + 1] == s;
    }
  }

  /** Ordering `u` removes exactly as many edges into `v` as `u` has edges to `v`. */
  lemma {:induction false} RemoveSource(edges: seq<Edge>, u: Id, v: Id, gone: set<Id>)
    requires u !in gone
    ensures InCount(edges, v, gone) == InCount(edges, v, gone + {u}) + Count(Succs(edges, u), v)
  {
    if edges != [] {
      var front, e := edges[..|edges| - 1], edges[|edges| - 1];
      RemoveSource(front, u, v, gone);
      if e.src == u {
        assert (Succs(front, u) + [e.dst])[..|Succs(front, u)|] == Succs(front, u);
      } else {
        assert Succs(front, u) + [] == Succs(front, u);
      }
    }
  }

  lemma {:induction false} InCountZero(edges: seq<Edge>, v: Id, gone: set<Id>)
    ensures InCount(edges, v, gone) == 0 <==> forall e :: e in edges && e.dst == v ==> e.src in gone
  {
    if edges != [] {
      var front, e := edges[..|edges| - 1], edges[|edges| - 1];
      InCountZero(front, v, gone);
      assert edges == front + [e];
    }
  }

  lemma {:induction false} SuccsAreTargets(edges: seq<Edge>, u: Id, v: Id)
    ensures v in Succs(edges, u) <==> Edge(u, v) in edges
  {
    if edges != [] {
      var front, e := edges[..|edges| - 1], edges[|edges| - 1];
      SuccsAreTargets(front, u, v);
      assert edges == front + [e];
    }
  }

  lemma {:induction false} DependsOnNext(nodes: seq<Entry>, i: nat)
    requires i < |nodes| && Closed(nodes)
    ensures nodes[..i + 1] == nodes[..i] + [nodes[i]]
    ensures forall a, b :: DependsOn(nodes[..i] + [nodes[i]], a, b) <==>
                           DependsOn(nodes[..i], a, b) || (a == nodes[i].id && b in nodes[i].deps)
    ensures nodes[i].id in Ids(nodes)
    ensures forall d :: d in nodes[i].deps ==> d in Ids(nodes)
  {
    forall d | d in nodes[i].deps ensures d in Ids(nodes) {
      assert DependsOn(nodes, nodes[i].id, d);
    }
    assert nodes[i] in nodes;
  }

  // ---------------------------------------------------------------- ranks, stuck sets and walks

  /** A rank function descends along dependencies, so no node of a stuck set can have one. */
  lemma {:induction false} NoRankOnStuck(nodes: seq<Entry>, s: set<Id>, rank: map<Id, nat>, a: Id)
    requires Stuck(nodes, s) && Ranked(nodes, rank) && a in s
    ensures false
    decreases rank[a]
  {
    assert WaitsOn(nodes, a, s);
    var b :| b in s && DependsOn(nodes, a, b);
    NoRankOnStuck(nodes, s, rank, b);
  }

  lemma {:induction false} RankLeavesNothing(nodes: seq<Entry>, rest: set<Id>)
    requires Stuck(nodes, rest) && Acyclic(nodes)
    ensures rest == {}
  {
    var rank :| Ranked(nodes, rank);
    if v :| v in rest {
      NoRankOnStuck(nodes, rest, rank, v);
    }
  }

  /** No member of a stuck set can be ordered. */
  lemma {:induction false} StuckAvoidsOrder(nodes: seq<Entry>, order: seq<Id>, t: set<Id>, n: nat)
    requires DepsBefore(nodes, order) && Stuck(nodes, t) && n <= |order|
    ensures forall i :: 0 <= i < n ==> order[i] !in t
  {
    if n > 0 {
      StuckAvoidsOrder(nodes, order, t, n - 1);
      forall b | DependsOn(nodes, order[n - 1], b) ensures b !in t {
        assert b in order[..n - 1];
      }
      assert !WaitsOn(nodes, order[n - 1], t);
    }
  }

  lemma {:induction false} GreatestIsRest(nodes: seq<Entry>, order: seq<Id>, rest: set<Id>)
    requires DepsBefore(nodes, order) && Stuck(nodes, rest) && rest == Ids(nodes) - Elems(order)
    ensures GreatestStuck(nodes, rest)
  {
    forall t | Stuck(nodes, t) ensures t <= rest {
      StuckAvoidsOrder(nodes, order, t, |order|);
    }
  }

  lemma {:induction false} IdsCardinality(nodes: seq<Entry>)
    ensures |Ids(nodes)| <= |nodes|
    ensures |Ids(nodes)| == |nodes| <==> DistinctIds(nodes)
  {
    var names := seq(|nodes|, i requires 0 <= i < |nodes| => nodes[i].id);
    assert forall i :: 0 <= i < |nodes| ==> names[i] == nodes[i].id;
    forall x ensures x in Elems(names) <==> x in Ids(nodes) {
      if x in Ids(nodes) {
        var e :| e in nodes && e.id == x;
        var i :| 0 <= i < |nodes| && nodes[i] == e;
        assert names[i] == x;
      }
    }
    assert Elems(names) == Ids(nodes);
    ElemsCardinality(names);
    if DistinctIds(nodes) {
      NoDupCardinality(names);
    }
  }

  lemma {:induction false} Sizes(nodes: seq<Entry>, order: seq<Id>, rest: set<Id>)
    requires NoDup(order) && Elems(order) <= Ids(nodes) && rest == Ids(nodes) - Elems(order)
    ensures |order| == |nodes| <==> DistinctIds(nodes) && rest == {}
    ensures rest == {} ==> Elems(order) == Ids(nodes)
  {
    NoDupCardinality(order);
    IdsCardinality(nodes);
    assert Ids(nodes) == Elems(order) + rest;
    assert |Ids(nodes)| == |order| + |rest|;
  }

  /** Following dependencies inside a stuck set for n steps. */
  lemma {:induction false} WalkInside(nodes: seq<Entry>, s: set<Id>, start: Id, n: nat) returns (walk: seq<Id>)
    requires Stuck(nodes, s) && start in s
    ensures |walk| == n + 1 && walk[0] == start && Elems(walk) <= s
    ensures forall i :: 0 <= i < n ==> DependsOn(nodes, walk[i], walk[i + 1])
  {
    walk := [start];
    while |walk| < n + 1
      invariant 1 <= |walk| <= n + 1 && walk[0] == start && Elems(walk) <= s
      invariant forall i :: 0 <= i < |walk| - 1 ==> DependsOn(nodes, walk[i], walk[i + 1])
    {
      var a := walk[|walk| - 1];
      assert a in Elems(walk) && WaitsOn(nodes, a, s);
      var b :| b in s && DependsOn(nodes, a, b);
      walk := walk + [b];
    }
  }

  lemma {:induction false} CycleIsStuck(nodes: seq<Entry>, walk: seq<Id>)
    requires Closed(nodes) && CycleWalk(nodes, walk)
    ensures Stuck(nodes, Elems(walk)) && walk[0] in Elems(walk)
  {
    forall a | a in Elems(walk)
      ensures a in Ids(nodes) && WaitsOn(nodes, a, Elems(walk))
    {
      var i :| 0 <= i < |walk| && walk[i] == a;
      var k := if i == |walk| - 1 then 0 else i;
      assert DependsOn(nodes, walk[k], walk[k + 1]);
      assert walk[k + 1] in Elems(walk);
    }
  }
}
