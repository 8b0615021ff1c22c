/** The directed graph the traversals and the shortest-path search run on:
    a networkx DiGraph reduced to what they read, namely the node set, the
    out-neighbours of each node in insertion order, and the optional
    'weight' attribute of each edge. */
module Graphs {
  import opened Wrappers

  /** Nodes are company identifiers. */
  type Node = string

  /** An out-edge; `weight` is the edge's 'weight' attribute, None when absent. */
  datatype Edge = Edge(target: Node, weight: Option<nat>)

  /** Every node of the graph maps to its out-edges. */
  datatype Graph = Graph(adj: map<Node, seq<Edge>>)

  /** The weight read for an edge whose attribute is absent. */
  const DefaultWeight: nat := 1

  /** A DiGraph: edge targets are nodes, and a node has at most one edge to
      any given target. */
  ghost predicate Valid(g: Graph)
  {
    forall u | u in g.adj ::
      forall i | 0 <= i < |g.adj[u]| ::
        g.adj[u][i].target in g.adj
        && forall j | 0 <= j < i :: g.adj[u][j].target != g.adj[u][i].target
  }

  /** G.neighbors(u): the successors of u, in insertion order. In a DiGraph
      they are nodes of the graph and none is listed twice. */
  function Neighbors(g: Graph, u: Node): (ns: seq<Node>)
    requires u in g.adj
    ensures |ns| == |g.adj[u]|
    ensures forall i :: 0 <= i < |ns| ==> ns[i] == g.adj[u][i].target
    ensures Valid(g) ==> forall i :: 0 <= i < |ns| ==> ns[i] in g.adj
    ensures Valid(g) ==> forall i, j :: 0 <= i < j < |ns| ==> ns[i] != ns[j]
  {
    seq(|g.adj[u]|, i requires 0 <= i < |g.adj[u]| => g.adj[u][i].target)
  }

  /** G.out_degree(u): zero exactly when u has no successor. */
  function OutDegree(g: Graph, u: Node): (n: nat)
    requires u in g.adj
    ensures n == 0 <==> forall v :: !IsEdge(g, u, v)
  {
    assert |g.adj[u]| > 0 ==> IsEdge(g, u, Neighbors(g, u)[0]);
    |g.adj[u]|
  }

  predicate IsEdge(g: Graph, u: Node, v: Node)
  {
    u in g.adj && v in Neighbors(g, u)
  }

  /** G[u][v].get('weight', 1) for one edge record. */
  function WeightOf(e: Edge): nat
  {
    match e.weight
    case Some(w) => w
    case None => DefaultWeight
  }

  /** The weight of the first edge of `edges` that leads to v. */
  function WeightTo(edges: seq<Edge>, v: Node): (w: nat)
    requires exists i :: 0 <= i < |edges| && edges[i].target == v
    ensures exists i :: 0 <= i < |edges| && edges[i].target == v && w == WeightOf(edges[i])
                        && forall j :: 0 <= j < i ==> edges[j].target != v
  {
    if edges[0].target == v then WeightOf(edges[0])
    else
      assert exists i :: 1 <= i < |edges| && edges[i].target == v;
      assert exists i :: 0 <= i < |edges[1..]| && edges[1..][i].target == v by {
        var i :| 1 <= i < |edges| && edges[i].target == v;
        assert edges[1..][i - 1].target == v;
      }
      WeightTo(edges[1..], v)
  }

  /** The weight of edge u -> v, as G[u][v].get('weight', 1) reads it: that
      of the first out-edge record of u that targets v. */
  function EdgeWeight(g: Graph, u: Node, v: Node): (w: nat)
    requires IsEdge(g, u, v)
    ensures exists i :: 0 <= i < |g.adj[u]| && g.adj[u][i].target == v && w == WeightOf(g.adj[u][i])
                        && forall j :: 0 <= j < i ==> g.adj[u][j].target != v
  {
    assert exists i :: 0 <= i < |g.adj[u]| && g.adj[u][i].target == v by {
      var i :| 0 <= i < |Neighbors(g, u)| && Neighbors(g, u)[i] == v;
    }
    WeightTo(g.adj[u], v)
  }

  /** A walk: a non-empty node sequence, each consecutive pair an edge. */
  ghost predicate IsWalk(g: Graph, p: seq<Node>)
  {
    |p| >= 1 && p[0] in g.adj
    && forall i :: 0 <= i < |p| - 1 ==> IsEdge(g, p[i], p[i + 1])
  }

  ghost predicate IsWalkFromTo(g: Graph, p: seq<Node>, s: Node, t: Node)
  {
    IsWalk(g, p) && p[0] == s && p[|p| - 1] == t
  }

  /** The sum of the edge weights along a walk. */
  ghost function PathWeight(g: Graph, p: seq<Node>): nat
    requires IsWalk(g, p)
    decreases |p|
  {
    if |p| == 1 then 0
    else PathWeight(g, p[..|p| - 1]) + EdgeWeight(g, p[|p| - 2], p[|p| - 1])
  }

  /** t can be reached from s in zero or more steps. */
  ghost predicate Reachable(g: Graph, s: Node, t: Node)
  {
    exists p :: IsWalkFromTo(g, p, s, t)
  }

  /** In a DiGraph, the weight of edge u -> v is the weight stored on the
      (only) edge record of u that targets v. */
  lemma {:induction false} EdgeWeightAt(g: Graph, u: Node, i: nat)
    requires Valid(g) && u in g.adj && i < |g.adj[u]|
    ensures IsEdge(g, u, g.adj[u][i].target)
    ensures EdgeWeight(g, u, g.adj[u][i].target) == WeightOf(g.adj[u][i])
  {
    var edges := g.adj[u];
    assert Neighbors(g, u)[i] == edges[i].target;
    WeightToAt(edges, i);
  }

  lemma {:induction false} WeightToAt(edges: seq<Edge>, i: nat)
    requires i < |edges|
    requires forall j :: 0 <= j < i ==> edges[j].target != edges[i].target
    ensures WeightTo(edges, edges[i].target) == WeightOf(edges[i])
  {
    if i > 0 {
      assert edges[1..][i - 1] == edges[i];
      WeightToAt(edges[1..], i - 1);
    }
  }

  /** In a DiGraph every node of a walk is a node of the graph. */
  lemma WalkNodes(g: Graph, p: seq<Node>)
    requires Valid(g) && IsWalk(g, p)
    ensures forall i :: 0 <= i < |p| ==> p[i] in g.adj
  {
    forall i | 0 < i < |p| ensures p[i] in g.adj {
      assert IsEdge(g, p[i - 1], p[i]);
    }
  }

  /** A prefix of a walk is a walk, and weighs no more than the walk. */
  lemma {:induction false} PrefixWeight(g: Graph, p: seq<Node>, k: nat)
    requires IsWalk(g, p) && 1 <= k <= |p|
    ensures IsWalk(g, p[..k])
    ensures PathWeight(g, p[..k]) <= PathWeight(g, p)
    decreases |p|
  {
    assert IsWalk(g, p[..k]) by {
      assert forall i :: 0 <= i < k ==> p[..k][i] == p[i];
    }
    if k < |p| {
      var q := p[..|p| - 1];
      assert IsWalk(g, q) by {
        assert forall i :: 0 <= i < |q| ==> q[i] == p[i];
      }
      PrefixWeight(g, q, k);
      assert q[..k] == p[..k];
    } else {
      assert p[..k] == p;
    }
  }

  /** Putting an edge u -> p[0] in front of a walk adds that edge's weight. */
  lemma {:induction false} PrependWeight(g: Graph, u: Node, p: seq<Node>)
    requires IsWalk(g, p) && IsEdge(g, u, p[0])
    ensures IsWalk(g, [u] + p)
    ensures PathWeight(g, [u] + p) == EdgeWeight(g, u, p[0]) + PathWeight(g, p)
    decreases |p|
  {
    var q := [u] + p;
    assert IsWalk(g, q) by {
      forall i | 0 <= i < |q| - 1 ensures IsEdge(g, q[i], q[i + 1]) {
        if i > 0 {
          assert q[i] == p[i - 1] && q[i + 1] == p[i];
        }
      }
    }
    if |p| == 1 {
      assert q[..1] == [u];
    } else {
      var p' := p[..|p| - 1];
      assert IsWalk(g, p') by {
        assert forall i :: 0 <= i < |p'| ==> p'[i] == p[i];
      }
      PrependWeight(g, u, p');
      assert PathWeight(g, q) == PathWeight(g, [u] + p') + EdgeWeight(g, p[|p| - 2], p[|p| - 1]) by {
        assert q[..|q| - 1] == [u] + p';
        assert q[|q| - 2] == p[|p| - 2] && q[|q| - 1] == p[|p| - 1];
      }
    }
  }

  /** Adding a node to a set of handled nodes (visited, or settled) leaves
      fewer unhandled nodes: the termination measure of both searches. */
  lemma FewerOutside(nodes: set<Node>, inside: set<Node>, x: Node)
    requires x in nodes && x !in inside
    ensures |nodes - (inside + {x})| < |nodes - inside|
  {
    assert nodes - (inside + {x}) == (nodes - inside) - {x};
  }
}
