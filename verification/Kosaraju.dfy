/** The two-pass search for strongly connected components, with the explicit stacks of both passes. */
module Kosaraju {
  import opened Digraphs
  import opened Orders

  /** A node on the first pass's stack, with the neighbours it has still to offer. */
  datatype Frame = Frame(node: NodeId, neighbors: seq<NodeId>)

  /** What a depth-first finishing order guarantees. Cut the order anywhere: whenever a node before the
      cut reaches a node after it, the first node's component also extends beyond the cut. */
  ghost predicate RespectsComponents(g: Digraph, order: seq<NodeId>) {
    forall n, x, w :: 0 <= n <= |order| && x in order[..n] && w in g && w !in order[..n] && Reaches(g, x, w) ==>
                        ExtendsBeyond(g, order[..n], x)
  }

  ghost predicate ExtendsBeyond(g: Digraph, prefix: seq<NodeId>, x: NodeId) {
    exists z :: z in g && z !in prefix && Connected(g, x, z)
  }

  ghost predicate OnStack(pending: seq<Frame>, v: NodeId) {
    exists i :: 0 <= i < |pending| && pending[i].node == v
  }

  ghost predicate StackIsChain(g: Digraph, pending: seq<Frame>) {
    forall i, j :: 0 <= i < j < |pending| ==> Reaches(g, pending[i].node, pending[j].node)
  }

  /** Finishing the node on top of the stack keeps the order's guarantee: all its neighbours have been
      seen, so a walk out of the finished nodes leaves through a node still on the stack. */
  lemma FinishTop(g: Digraph, order: seq<NodeId>, pending: seq<Frame>, visited: set<NodeId>)
    requires Closed(g) && RespectsComponents(g, order)
    requires |pending| > 0 && StackIsChain(g, pending)
    requires forall v <- visited :: v in order || OnStack(pending, v)
    requires forall x <- order + [pending[|pending| - 1].node] :: x in g && g[x] <= visited
    ensures RespectsComponents(g, order + [pending[|pending| - 1].node])
  {
    var top := pending[|pending| - 1].node;
    var order' := order + [top];
    forall n, x, w | 0 <= n <= |order'| && x in order'[..n] && w in g && w !in order'[..n] && Reaches(g, x, w)
      ensures ExtendsBeyond(g, order'[..n], x)
    {
      if n <= |order| {
        assert order'[..n] == order[..n];
      } else {
        assert order'[..n] == order';
        if x == top {
          TopExtends(g, order, pending, visited, w);
        } else {
          assert order[..|order|] == order;
          assert x in order[..|order|] && w !in order[..|order|];
          var z :| z in g && z !in order[..|order|] && Connected(g, x, z);
          if z == top {
            ReachesTransitive(g, top, x, w);
            TopExtends(g, order, pending, visited, w);
            var b :| b in g && b !in order' && Connected(g, top, b);
            ConnectedTransitive(g, x, top, b);
          }
        }
      }
    }
  }

  lemma TopExtends(g: Digraph, order: seq<NodeId>, pending: seq<Frame>, visited: set<NodeId>, w: NodeId)
    requires Closed(g) && |pending| > 0 && StackIsChain(g, pending)
    requires forall v <- visited :: v in order || OnStack(pending, v)
    requires forall x <- order + [pending[|pending| - 1].node] :: x in g && g[x] <= visited
    requires w in g && w !in order + [pending[|pending| - 1].node]
    requires Reaches(g, pending[|pending| - 1].node, w)
    ensures ExtendsBeyond(g, order + [pending[|pending| - 1].node], pending[|pending| - 1].node)
  {
    var top := pending[|pending| - 1].node;
    var a, b := LeavingEdge(g, Elements(order + [top]), top, w);
    assert b in visited;
    var i :| 0 <= i < |pending| && pending[i].node == b;
    ReachesByEdge(g, a, b);
    ReachesTransitive(g, top, a, b);
    assert Connected(g, top, b);
  }

  /** Pushing an unseen neighbour of the top extends the chain. */
  lemma PushKeepsChain(g: Digraph, pending: seq<Frame>, frame: Frame)
    requires Closed(g) && |pending| > 0 && StackIsChain(g, pending)
    requires pending[|pending| - 1].node in g && frame.node in g[pending[|pending| - 1].node]
    ensures StackIsChain(g, pending + [frame])
  {
    var top := pending[|pending| - 1].node;
    ReachesByEdge(g, top, frame.node);
    forall i, j | 0 <= i < j < |pending + [frame]|
      ensures Reaches(g, (pending + [frame])[i].node, (pending + [frame])[j].node)
    {
      if j == |pending| && i < |pending| - 1 {
        ReachesTransitive(g, pending[i].node, top, frame.node);
      }
    }
  }

  /** Everything the first pass keeps: each seen node is finished or on the stack, and the neighbours of
      a finished node have all been seen. */
  ghost predicate FirstPass(g: Digraph, order: seq<NodeId>, pending: seq<Frame>, visited: set<NodeId>) {
    && visited <= g.Keys
    && Distinct(order)
    && (forall x <- order :: x in visited && g[x] <= visited)
    && (forall i :: 0 <= i < |pending| ==> FrameOpen(g, pending[i], order, visited))
    && (forall i, j :: 0 <= i < j < |pending| ==> pending[i].node != pending[j].node)
    && (forall v <- visited :: v in order || OnStack(pending, v))
    && StackIsChain(g, pending)
    && RespectsComponents(g, order)
  }

  ghost predicate FrameOpen(g: Digraph, frame: Frame, order: seq<NodeId>, visited: set<NodeId>) {
    && frame.node in g && frame.node in visited && frame.node !in order
    && (forall v <- g[frame.node] :: v in visited || v in frame.neighbors)
    && (forall v <- frame.neighbors :: v in g[frame.node])
  }

  lemma StartStep(g: Digraph, order: seq<NodeId>, visited: set<NodeId>, start: NodeId, neighbors: seq<NodeId>)
    requires Closed(g) && FirstPass(g, order, [], visited)
    requires start in g && start !in visited && Elements(neighbors) == g[start]
    ensures FirstPass(g, order, [Frame(start, neighbors)], visited + {start})
  {
    var pending := [Frame(start, neighbors)];
    assert forall v <- g[start] :: v in Elements(neighbors);
    assert forall v <- neighbors :: v in Elements(neighbors);
    assert pending[0].node == start;
  }

  lemma FinishStep(g: Digraph, order: seq<NodeId>, pending: seq<Frame>, visited: set<NodeId>)
    requires Closed(g) && FirstPass(g, order, pending, visited)
    requires |pending| > 0 && pending[|pending| - 1].neighbors == []
    ensures FirstPass(g, order + [pending[|pending| - 1].node], pending[..|pending| - 1], visited)
  {
    hide RespectsComponents;
    var last := |pending| - 1;
    assert FrameOpen(g, pending[last], order, visited);
    FinishTop(g, order, pending, visited);
    forall v <- visited ensures v in order + [pending[last].node] || OnStack(pending[..last], v) {
      if v !in order && v != pending[last].node {
        assert OnStack(pending, v);
        var i :| 0 <= i < |pending| && pending[i].node == v;
        assert pending[..last][i].node == v;
      }
    }
    forall i | 0 <= i < last ensures FrameOpen(g, pending[..last][i], order + [pending[last].node], visited) {
      assert FrameOpen(g, pending[i], order, visited);
    }
  }

  /** The stack after the node at `k` has offered its next neighbour. */
  function Offered(pending: seq<Frame>, k: nat): seq<Frame>
    requires k < |pending| && pending[k].neighbors != []
  {
    pending[k := Frame(pending[k].node, pending[k].neighbors[1..])]
  }

  lemma OfferStep(g: Digraph, order: seq<NodeId>, pending: seq<Frame>, visited: set<NodeId>, k: nat)
    requires FirstPass(g, order, pending, visited)
    requires k < |pending| && pending[k].neighbors != [] && pending[k].neighbors[0] in visited
    ensures FirstPass(g, order, Offered(pending, k), visited)
  {
    hide RespectsComponents;
    var offered := Offered(pending, k);
    assert pending[k].neighbors == [pending[k].neighbors[0]] + pending[k].neighbors[1..];
    assert forall i :: 0 <= i < |pending| ==> offered[i].node == pending[i].node;
    forall i | 0 <= i < |pending| ensures FrameOpen(g, offered[i], order, visited) {
      assert FrameOpen(g, pending[i], order, visited);
    }
    forall v <- visited ensures v in order || OnStack(offered, v) {
      if v !in order {
        assert OnStack(pending, v);
        var i :| 0 <= i < |pending| && pending[i].node == v;
        assert offered[i].node == v;
      }
    }
  }

  lemma PushStep(g: Digraph, order: seq<NodeId>, pending: seq<Frame>, visited: set<NodeId>, next: Frame)
    requires Closed(g) && FirstPass(g, order, pending, visited)
    requires |pending| > 0 && next.node in g && next.node !in visited
    requires next.node in g[pending[|pending| - 1].node]
    requires Elements(next.neighbors) == g[next.node]
    ensures FirstPass(g, order, pending + [next], visited + {next.node})
  {
    var seen, pushed := visited + {next.node}, pending + [next];
    PushKeepsChain(g, pending, next);
    forall i | 0 <= i < |pushed| ensures FrameOpen(g, pushed[i], order, seen) {
      if i < |pending| {
        assert FrameOpen(g, pending[i], order, visited);
      } else {
        assert forall v :: v in next.neighbors <==> v in Elements(next.neighbors);
      }
    }
    forall v <- seen ensures v in order || OnStack(pushed, v) {
      if v == next.node {
        assert pushed[|pending|].node == v;
      } else if v !in order {
        assert OnStack(pending, v);
        var i :| 0 <= i < |pending| && pending[i].node == v;
        assert pushed[i].node == v;
      }
    }
  }

  /** Depth-first search from one start node, by the explicit stack. */
  method Explore(outgoing: Digraph, start: NodeId, finished: seq<NodeId>, seen: set<NodeId>)
    returns (order: seq<NodeId>, visited: set<NodeId>)
    requires Closed(outgoing) && FirstPass(outgoing, finished, [], seen)
    requires start in outgoing && start !in seen
    ensures FirstPass(outgoing, order, [], visited)
    ensures seen + {start} <= visited
  {
    TextOrder();
    order := finished;
    var neighbors := SortedSet(outgoing[start], TextLeq);
    var pending := [Frame(start, neighbors)];
    StartStep(outgoing, order, seen, start, neighbors);
    visited := seen + {start};
    while pending != []
      invariant FirstPass(outgoing, order, pending, visited)
      invariant seen + {start} <= visited
      decreases outgoing.Keys - visited, |pending|, if pending == [] then 0 else |pending[|pending| - 1].neighbors|
    {
      var Frame(current, rest) := pending[|pending| - 1];
      if rest == [] {
        FinishStep(outgoing, order, pending, visited);
        order := order + [current];
        pending := pending[..|pending| - 1];
      } else {
        var top, neighbor := |pending| - 1, rest[0];
        assert FrameOpen(outgoing, pending[top], order, visited);
        if neighbor in visited {
          OfferStep(outgoing, order, pending, visited, top);
          pending := Offered(pending, top);
        } else {
          var onward := SortedSet(outgoing[neighbor], TextLeq);
          PushStep(outgoing, order, pending, visited, Frame(neighbor, onward));
          visited := visited + {neighbor};
          pending := pending + [Frame(neighbor, onward)];
          OfferStep(outgoing, order, pending, visited, top);
          pending := Offered(pending, top);
        }
      }
    }
  }

  lemma NothingFinished(g: Digraph)
    ensures FirstPass(g, [], [], {})
  {}

  lemma AllFinished(g: Digraph, order: seq<NodeId>, visited: set<NodeId>)
    requires FirstPass(g, order, [], visited)
    ensures Distinct(order) && Elements(order) == visited <= g.Keys && RespectsComponents(g, order)
  {}

  /** First pass: every node once, in an order that respects the components. */
  method FinishOrder(outgoing: Digraph) returns (order: seq<NodeId>)
    requires Closed(outgoing)
    ensures Distinct(order) && Elements(order) == outgoing.Keys
    ensures RespectsComponents(outgoing, order)
  {
    hide TextLeq, Preorder, Ascending, FirstPass, Sorted, RespectsComponents, Distinct;
    TextOrder();
    var starts := SortedSet(outgoing.Keys, TextLeq);
    var visited: set<NodeId> := {};
    order := [];
    NothingFinished(outgoing);
    for k := 0 to |starts|
      invariant FirstPass(outgoing, order, [], visited)
      invariant forall i :: 0 <= i < k ==> starts[i] in visited
    {
      if starts[k] !in visited {
        order, visited := Explore(outgoing, starts[k], order, visited);
      }
    }
    AllFinished(outgoing, order, visited);
    assert forall v <- starts :: v in visited;
  }

  /** `seen` holds whole components only. */
  ghost predicate WholeComponents(g: Digraph, seen: set<NodeId>) {
    && seen <= g.Keys
    && forall u, v :: u in seen && v in g && Connected(g, u, v) ==> v in seen
  }

  /** Among the nodes not yet seen, the last one to finish reaches back to every node that reaches it. */
  lemma {:induction false} LastFinishedReachesBack(g: Digraph, order: seq<NodeId>, i: nat, k: nat)
    requires Distinct(order) && Elements(order) == g.Keys && RespectsComponents(g, order)
    requires k <= i < |order| && Reaches(g, order[k], order[i])
    requires forall v :: v in g && Connected(g, order[k], v) ==> v in order[..i + 1]
    ensures Connected(g, order[k], order[i])
    decreases i - k
  {
    assert order[k] in Elements(order) && order[i] in Elements(order);
    if k < i {
      assert order[k] in order[..k + 1] && order[i] !in order[..k + 1];
      assert ExtendsBeyond(g, order[..k + 1], order[k]);
      var z :| z in g && z !in order[..k + 1] && Connected(g, order[k], z);
      var m :| 0 <= m < i + 1 && order[..i + 1][m] == z;
      assert z == order[m] && k < m;
      ReachesTransitive(g, z, order[k], order[i]);
      forall v | v in g && Connected(g, z, v) ensures v in order[..i + 1] {
        ConnectedTransitive(g, order[k], z, v);
      }
      LastFinishedReachesBack(g, order, i, m);
      ConnectedTransitive(g, order[k], z, order[i]);
    }
  }

  /** What the backward search from `start` keeps: it has only seen new nodes that reach `start`, and
      every incoming neighbour of a node it has dealt with. */
  ghost predicate Gathering(g: Digraph, start: NodeId, before: set<NodeId>, component: set<NodeId>,
                            pending: seq<NodeId>, visited: set<NodeId>) {
    && before <= visited <= g.Keys && start in visited && start !in before
    && (forall x <- visited - before :: Reaches(g, x, start) && (x in component || x in pending))
    && component <= visited - before
    && (forall x <- pending :: x in visited && x !in before && x !in component)
    && Distinct(pending)
  }

  ghost predicate IncomingSeen(g: Digraph, component: set<NodeId>, visited: set<NodeId>) {
    forall x <- component, y <- g.Keys :: x in g[y] ==> y in visited
  }

  /** No node finishing after `order[i]` is left among the unseen. */
  lemma UnseenFinishEarlier(g: Digraph, order: seq<NodeId>, i: nat, before: set<NodeId>, v: NodeId)
    requires Elements(order) == g.Keys && i < |order| && Elements(order[i + 1..]) <= before
    requires v in g && v !in before
    ensures exists k :: 0 <= k <= i && order[k] == v
  {
    assert v in Elements(order);
    var k: nat :| k < |order| && order[k] == v;
    if k > i {
      LaterElement(order, i, k);
    }
  }

  lemma LaterElement(order: seq<NodeId>, i: nat, k: nat)
    requires i < k < |order|
    ensures order[k] in Elements(order[i + 1..])
  {
    assert order[i + 1..][k - i - 1] == order[k];
  }

  /** When the backward search runs dry it has gathered the whole component of `start` and no more. */
  lemma GatheredComponent(g: Digraph, order: seq<NodeId>, i: nat, before: set<NodeId>, component: set<NodeId>)
    requires Closed(g) && Distinct(order) && Elements(order) == g.Keys && RespectsComponents(g, order)
    requires i < |order| && WholeComponents(g, before) && Elements(order[i + 1..]) <= before
    requires Gathering(g, order[i], before, component, [], before + component)
    requires IncomingSeen(g, component, before + component)
    ensures IsComponent(g, component) && order[i] in component
    ensures WholeComponents(g, before + component)
  {
    var start := order[i];
    assert start in component;
    forall x | x in component ensures Connected(g, start, x) {
      GatheredReachBack(g, order, i, before, component, x);
    }
    forall v | v in g && Connected(g, start, v) ensures v in component {
      ComponentGathered(g, start, before, component, v);
    }
    forall u, v | u in component && v in g ensures v in component <==> Connected(g, u, v) {
      if v in component {
        ConnectedTransitive(g, u, start, v);
      } else if Connected(g, u, v) {
        ConnectedTransitive(g, start, u, v);
      }
    }
  }

  lemma GatheredReachBack(g: Digraph, order: seq<NodeId>, i: nat, before: set<NodeId>, component: set<NodeId>,
                          x: NodeId)
    requires Closed(g) && Distinct(order) && Elements(order) == g.Keys && RespectsComponents(g, order)
    requires i < |order| && WholeComponents(g, before) && Elements(order[i + 1..]) <= before
    requires Gathering(g, order[i], before, component, [], before + component)
    requires x in component
    ensures Connected(g, order[i], x)
  {
    UnseenFinishEarlier(g, order, i, before, x);
    var k :| 0 <= k <= i && order[k] == x;
    forall v | v in g && Connected(g, x, v) ensures v in order[..i + 1] {
      UnseenFinishEarlier(g, order, i, before, v);
      var m :| 0 <= m <= i && order[m] == v;
      assert v == order[..i + 1][m];
    }
    LastFinishedReachesBack(g, order, i, k);
  }

  lemma ComponentGathered(g: Digraph, start: NodeId, before: set<NodeId>, component: set<NodeId>, v: NodeId)
    requires Closed(g) && WholeComponents(g, before) && start in component
    requires Gathering(g, start, before, component, [], before + component)
    requires IncomingSeen(g, component, before + component)
    requires v in g && Connected(g, start, v)
    ensures v in component
  {
    if v !in component {
      var a, b := LeavingEdge(g, g.Keys - component, v, start);
      ReachesByEdge(g, a, b);
      ReachesTransitive(g, a, b, start);
      ReachesTransitive(g, start, v, a);
      assert a in before;
      assert Connected(g, a, start);
    }
  }

  /** Second pass, one component: everything that reaches `start` through nodes not seen before. */
  method Gather(outgoing: Digraph, incoming: Digraph, start: NodeId, before: set<NodeId>)
    returns (component: set<NodeId>, visited: set<NodeId>)
    requires Closed(outgoing) && Closed(incoming) && Transposed(outgoing, incoming)
    requires start in outgoing && start !in before && before <= outgoing.Keys
    ensures visited == before + component
    ensures Gathering(outgoing, start, before, component, [], visited)
    ensures IncomingSeen(outgoing, component, visited)
  {
    hide Gathering, IncomingSeen, TextLeq, Preorder, Ascending, Distinct, Sorted, Elements, Closed;
    TextOrder();
    component := {};
    var pending := [start];
    visited := before + {start};
    GatherStart(outgoing, start, before);
    while pending != []
      invariant Gathering(outgoing, start, before, component, pending, visited)
      invariant IncomingSeen(outgoing, component, visited)
      decreases outgoing.Keys - component
    {
      var last := |pending| - 1;
      var current := pending[last];
      PopStep(outgoing, start, before, component, pending, visited);
      pending := pending[..last];
      ghost var others := component;
      component := component + {current};
      IncomingOf(outgoing, incoming, current);
      var neighbors := SortedSet(incoming[current], TextLeq);
      for k := 0 to |neighbors|
        invariant Gathering(outgoing, start, before, component, pending, visited)
        invariant IncomingSeen(outgoing, others, visited)
        invariant forall i :: 0 <= i < k ==> neighbors[i] in visited
      {
        var neighbor := neighbors[k];
        if neighbor !in visited {
          AddStep(outgoing, start, before, component, pending, visited, current, neighbor);
          SeenMore(outgoing, others, visited, neighbor);
          visited := visited + {neighbor};
          pending := pending + [neighbor];
        }
      }
      SeenAll(outgoing, incoming, others, current, neighbors, visited);
    }
    GatherEnd(outgoing, start, before, component, visited);
  }

  lemma GatherStart(g: Digraph, start: NodeId, before: set<NodeId>)
    requires start in g && start !in before && before <= g.Keys
    ensures Gathering(g, start, before, {}, [start], before + {start}) && IncomingSeen(g, {}, before + {start})
  {
    ReachesSelf(g, start);
  }

  lemma GatherEnd(g: Digraph, start: NodeId, before: set<NodeId>, component: set<NodeId>, visited: set<NodeId>)
    requires Gathering(g, start, before, component, [], visited)
    ensures visited == before + component
  {}

  /** The incoming neighbours of a node are the nodes with an edge to it. */
  lemma IncomingOf(outgoing: Digraph, incoming: Digraph, current: NodeId)
    requires Closed(outgoing) && Closed(incoming) && Transposed(outgoing, incoming) && current in outgoing
    ensures current in incoming && forall y <- incoming[current] :: y in outgoing && current in outgoing[y]
  {}

  lemma SeenMore(g: Digraph, component: set<NodeId>, visited: set<NodeId>, neighbor: NodeId)
    requires IncomingSeen(g, component, visited)
    ensures IncomingSeen(g, component, visited + {neighbor})
  {}

  lemma SeenAll(outgoing: Digraph, incoming: Digraph, others: set<NodeId>, current: NodeId, neighbors: seq<NodeId>,
                visited: set<NodeId>)
    requires Transposed(outgoing, incoming) && current in incoming && IncomingSeen(outgoing, others, visited)
    requires (forall y <- incoming[current] :: y in neighbors) && forall y <- neighbors :: y in visited
    ensures IncomingSeen(outgoing, others + {current}, visited)
  {}

  lemma PopStep(g: Digraph, start: NodeId, before: set<NodeId>, component: set<NodeId>, pending: seq<NodeId>,
                visited: set<NodeId>)
    requires Gathering(g, start, before, component, pending, visited) && pending != []
    ensures var current := pending[|pending| - 1];
            current in visited && current !in component && current in g && Reaches(g, current, start) &&
            Gathering(g, start, before, component + {current}, pending[..|pending| - 1], visited)
  {
    assert pending == pending[..|pending| - 1] + [pending[|pending| - 1]];
  }

  lemma AddStep(g: Digraph, start: NodeId, before: set<NodeId>, component: set<NodeId>, pending: seq<NodeId>,
                visited: set<NodeId>, current: NodeId, neighbor: NodeId)
    requires Gathering(g, start, before, component, pending, visited)
    requires current in component && current in g && neighbor in g && current in g[neighbor] && neighbor !in visited
    ensures Gathering(g, start, before, component, pending + [neighbor], visited + {neighbor})
  {
    ReachesByEdge(g, neighbor, current);
    ReachesTransitive(g, neighbor, current, start);
  }

  /** The components in the order the second pass finds them. */
  method Components(outgoing: Digraph, incoming: Digraph) returns (components: seq<set<NodeId>>)
    requires Closed(outgoing) && Closed(incoming) && Transposed(outgoing, incoming)
    ensures AreStrongComponents(outgoing, components)
  {
    var order := FinishOrder(outgoing);
    components := [];
    var visited: set<NodeId> := {};
    var i := |order|;
    while i > 0
      invariant 0 <= i <= |order|
      invariant WholeComponents(outgoing, visited) && Elements(order[i..]) <= visited
      invariant PartitionInto(outgoing, components, visited)
    {
      i := i - 1;
      var start := order[i];
      assert start in Elements(order);
      assert order[i..] == [start] + order[i + 1..];
      if start !in visited {
        var component, seen := Gather(outgoing, incoming, start, visited);
        GatheredComponent(outgoing, order, i, visited, component);
        AddComponent(outgoing, components, visited, component);
        components := components + [component];
        visited := seen;
      }
    }
    assert order[0..] == order;
  }

  lemma AddComponent(g: Digraph, components: seq<set<NodeId>>, visited: set<NodeId>, component: set<NodeId>)
    requires PartitionInto(g, components, visited) && IsComponent(g, component) && component !! visited
    ensures PartitionInto(g, components + [component], visited + component)
  {
    hide IsComponent;
    var more := components + [component];
    forall v | v in visited + component ensures InSome(more, v) {
      if v in component {
        assert v in more[|components|];
      } else {
        assert InSome(components, v);
        var k :| 0 <= k < |components| && v in components[k];
        assert v in more[k];
      }
    }
  }
}
