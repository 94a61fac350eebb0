/** Directed graphs as maps from a node to its neighbours, as the two dictionaries of outgoing and incoming
    edges are. Reaching is by paths; two nodes are connected when each reaches the other, and a strong
    component is a set of nodes that are all connected with each other and with no other node. The two
    searches of the program are about these notions. */
module Digraphs {

  type NodeId = string

  /** Adjacency: the keys are the nodes of the graph. */
  type Digraph = map<NodeId, set<NodeId>>

  predicate Closed(g: Digraph) {
    forall v <- g.Keys :: g[v] <= g.Keys
  }

  /** Every edge of `g`, turned round, is an edge of `t`, and conversely. */
  ghost predicate Transposed(g: Digraph, t: Digraph) {
    && g.Keys == t.Keys
    && forall u, v :: u in g.Keys && v in g.Keys ==> (v in g[u] <==> u in t[v])
  }

  ghost predicate IsWalk(g: Digraph, p: seq<NodeId>) {
    && |p| > 0
    && (forall i :: 0 <= i < |p| ==> p[i] in g)
    && (forall i :: 0 <= i < |p| - 1 ==> p[i + 1] in g[p[i]])
  }

  ghost predicate WalkBetween(g: Digraph, u: NodeId, v: NodeId, p: seq<NodeId>) {
    IsWalk(g, p) && p[0] == u && p[|p| - 1] == v
  }

  ghost predicate Reaches(g: Digraph, u: NodeId, v: NodeId) {
    exists p :: WalkBetween(g, u, v, p)
  }

  ghost predicate Connected(g: Digraph, u: NodeId, v: NodeId) {
    Reaches(g, u, v) && Reaches(g, v, u)
  }

  ghost predicate StronglyConnected(g: Digraph) {
    forall u, v :: u in g && v in g ==> Reaches(g, u, v)
  }

  /** A strongly connected component: a non-empty set of nodes that holds, with any node, exactly the
      nodes that reach it and that it reaches. */
  ghost predicate IsComponent(g: Digraph, c: set<NodeId>) {
    && c != {} && c <= g.Keys
    && forall u, v :: u in c && v in g ==> (v in c <==> Connected(g, u, v))
  }

  /** `comps` partitions the nodes into strongly connected components. */
  ghost predicate AreStrongComponents(g: Digraph, comps: seq<set<NodeId>>) {
    PartitionInto(g, comps, g.Keys)
  }

  ghost predicate PartitionInto(g: Digraph, comps: seq<set<NodeId>>, nodes: set<NodeId>) {
    && (forall k :: 0 <= k < |comps| ==> IsComponent(g, comps[k]) && comps[k] <= nodes)
    && (forall j, k :: 0 <= j < k < |comps| ==> comps[j] !! comps[k])
    && (forall v <- nodes :: InSome(comps, v))
  }

  ghost predicate InSome(comps: seq<set<NodeId>>, v: NodeId) {
    exists k :: 0 <= k < |comps| && v in comps[k]
  }

  lemma ReachesSelf(g: Digraph, u: NodeId)
    requires u in g
    ensures Reaches(g, u, u)
  {
    assert WalkBetween(g, u, u, [u]);
  }

  lemma ReachesByEdge(g: Digraph, u: NodeId, v: NodeId)
    requires u in g && v in g && v in g[u]
    ensures Reaches(g, u, v)
  {
    assert WalkBetween(g, u, v, [u, v]);
  }

  lemma ReachesTransitive(g: Digraph, u: NodeId, v: NodeId, w: NodeId)
    requires Reaches(g, u, v) && Reaches(g, v, w)
    ensures Reaches(g, u, w)
  {
    var p :| WalkBetween(g, u, v, p);
    var q :| WalkBetween(g, v, w, q);
    assert WalkBetween(g, u, w, p + q[1..]);
  }

  lemma ConnectedTransitive(g: Digraph, u: NodeId, v: NodeId, w: NodeId)
    requires Connected(g, u, v) && Connected(g, v, w)
    ensures Connected(g, u, w)
  {
    ReachesTransitive(g, u, v, w);
    ReachesTransitive(g, w, v, u);
  }

  /** A walk that leaves a set does so along an edge. */
  lemma {:induction false} LeavingEdge(g: Digraph, X: set<NodeId>, u: NodeId, v: NodeId)
    returns (a: NodeId, b: NodeId)
    requires Reaches(g, u, v) && u in X && v !in X
    ensures a in g && b in g && b in g[a]
    ensures a in X && b !in X
    ensures Reaches(g, u, a) && Reaches(g, b, v)
  {
    var p :| WalkBetween(g, u, v, p);
    var k := 0;
    while p[k + 1] in X
      invariant 0 <= k < |p| - 1 && p[k] in X
      decreases |p| - k
    {
      k := k + 1;
    }
    a, b := p[k], p[k + 1];
    assert WalkBetween(g, u, a, p[..k + 1]);
    assert WalkBetween(g, b, v, p[k + 1..]);
  }

  /** A component is strongly connected on its own: the walks between its nodes stay inside it. */
  lemma WalkStaysInComponent(g: Digraph, u: NodeId, v: NodeId, p: seq<NodeId>, k: nat)
    requires WalkBetween(g, u, v, p) && Reaches(g, v, u) && k < |p|
    ensures Connected(g, u, p[k])
  {
    assert WalkBetween(g, u, p[k], p[..k + 1]);
    assert WalkBetween(g, p[k], v, p[k..]);
    ReachesTransitive(g, p[k], v, u);
  }

  lemma {:induction false} TransposedReaches(g: Digraph, t: Digraph, u: NodeId, v: NodeId)
    requires Transposed(g, t) && Reaches(t, u, v)
    ensures Reaches(g, v, u)
  {
    var p :| WalkBetween(t, u, v, p);
    var q := seq(|p|, i requires 0 <= i < |p| => p[|p| - 1 - i]);
    forall i | 0 <= i < |q| - 1 ensures q[i + 1] in g[q[i]] {
      var j := |p| - 2 - i;
      assert q[i] == p[j + 1] && q[i + 1] == p[j];
      assert p[j + 1] in t[p[j]];
    }
    assert WalkBetween(g, v, u, q);
  }

  /** Reaching everything from one node, forwards and backwards, is strong connection. */
  lemma ReachesBothWays(g: Digraph, t: Digraph, start: NodeId)
    requires Transposed(g, t) && start in g
    ensures StronglyConnected(g) <==>
              (forall v :: v in g ==> Reaches(g, start, v)) && (forall v :: v in t ==> Reaches(t, start, v))
  {
    if (forall v :: v in g ==> Reaches(g, start, v)) && (forall v :: v in t ==> Reaches(t, start, v)) {
      forall u, v | u in g && v in g ensures Reaches(g, u, v) {
        TransposedReaches(g, t, start, u);
        ReachesTransitive(g, u, start, v);
      }
    } else if StronglyConnected(g) {
      forall v | v in t ensures Reaches(t, start, v) {
        assert Transposed(t, g);
        TransposedReaches(t, g, v, start);
      }
    }
  }
}
