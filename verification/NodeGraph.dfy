/** Which nodes of a plan can get done: some at any time, since somebody may approve or report them, some once all they
    need is done, the held ones not at all unless they can at any time. A node can get done exactly when it occurs in an
    order in which that holds of each; such orders append, so one order serves any set of nodes; and without cycles
    everything before a node can get done without it. The wake-up protocol uses this to say which End gates can run
    without the approval of an Init gate. */
module NodeGraph {
  import opened Util

  /** Who needs whom, and the nodes that do not get done just because their needs are. */
  datatype Graph = Graph(needs: map<string, set<string>>, held: set<string>)

  function NeedsOf(g: Graph, n: string): set<string> {
    if n in g.needs then g.needs[n] else {}
  }

  /** The nodes can get done in this order: each is free, or it is not held and all it needs came before. */
  ghost predicate Feasible(g: Graph, free: set<string>, order: seq<string>) {
    if order == [] then true
    else
      var front, n := order[..|order| - 1], order[|order| - 1];
      Feasible(g, free, front) && (n in free || (n in g.needs && n !in g.held && g.needs[n] <= Elems(front)))
  }

  ghost predicate Can(g: Graph, free: set<string>, n: string) {
    exists order :: Feasible(g, free, order) && n in order
  }

  ghost predicate AllCan(g: Graph, free: set<string>, all: set<string>) {
    forall d :: d in all ==> Can(g, free, d)
  }

  /** Node n can start, without being done before. */
  ghost predicate CanStart(g: Graph, free: set<string>, n: string) {
    n !in NeedsOf(g, n) && AllCan(g, free, NeedsOf(g, n))
  }

  lemma {:induction false} FreeCan(g: Graph, free: set<string>, n: string)
    requires n in free
    ensures Can(g, free, n)
  {
    assert [n][..0] == [];
    assert Feasible(g, free, [n]);
  }

  lemma {:induction false} NeedingCan(g: Graph, free: set<string>, n: string)
    requires n in g.needs && n !in g.held && AllCan(g, free, g.needs[n])
    ensures Can(g, free, n)
  {
    var order := OneOrder(g, free, g.needs[n]);
    assert (order + [n])[..|order|] == order;
    assert Feasible(g, free, order + [n]);
  }

  /** What can get done at all can get done in one order. */
  lemma {:induction false} OneOrder(g: Graph, free: set<string>, all: set<string>) returns (order: seq<string>)
    requires AllCan(g, free, all)
    ensures Feasible(g, free, order) && all <= Elems(order)
    decreases |all|
  {
    if all == {} {
      order := [];
    } else {
      var n :| n in all;
      var before := OneOrder(g, free, all - {n});
      var more :| Feasible(g, free, more) && n in more;
      Append(g, free, before, more);
      order := before + more;
      forall d | d in all ensures d in Elems(order) {
        assert d == n || d in Elems(before);
      }
    }
  }

  lemma {:induction false} Append(g: Graph, free: set<string>, a: seq<string>, b: seq<string>)
    requires Feasible(g, free, a) && Feasible(g, free, b)
    ensures Feasible(g, free, a + b)
    decreases |b|
  {
    if b == [] {
      assert a + b == a;
    } else {
      var front := b[..|b| - 1];
      Append(g, free, a, front);
      assert (a + b)[..|a + b| - 1] == a + front;
    }
  }

  /** No cycles, and all that is needed exists. */
  ghost predicate Ranked(g: Graph, rank: map<string, nat>) {
    forall n :: n in g.needs ==>
      n in rank && forall d :: d in g.needs[n] ==> d in g.needs && d in rank && rank[d] < rank[n]
  }

  /** Then everything that does not come after node v can get done without it, if the other held nodes are free. */
  lemma {:induction false} BelowCan(g: Graph, rank: map<string, nat>, free: set<string>, v: string, n: string)
    requires Ranked(g, rank) && g.held - {v} <= free && v in g.needs && n in g.needs && rank[n] < rank[v]
    ensures Can(g, free, n)
    decreases rank[n]
  {
    if n in g.held {
      FreeCan(g, free, n);
    } else {
      forall d | d in g.needs[n] ensures Can(g, free, d) {
        BelowCan(g, rank, free, v, d);
      }
      NeedingCan(g, free, n);
    }
  }

  /** So a node without cycles can start without getting done. */
  lemma {:induction false} RankedCanStart(g: Graph, rank: map<string, nat>, free: set<string>, v: string)
    requires Ranked(g, rank) && g.held - {v} <= free && v in g.needs
    ensures CanStart(g, free, v)
  {
    forall d | d in g.needs[v] ensures Can(g, free, d) {
      BelowCan(g, rank, free, v, d);
    }
  }
}
