/** Road segments of both city-pack schemas, the street graph they span, and the choice of the largest
    component. */
module Roads {
  import opened Orders
  import opened Digraphs
  import opened Kosaraju

  datatype RoadKind = Motorway | Trunk | Primary | Secondary | Tertiary | Residential | Service

  /** A schema-1 segment: two-way, or from source to target only. */
  datatype Road = Road(roadId: string, source: NodeId, target: NodeId, kind: RoadKind, oneWay: bool)

  datatype Direction = Forward | Backward

  /** A schema-2 segment keeps the drawn end points and lists the directions it may be travelled. */
  datatype RoadV2 = RoadV2(roadId: string, source: NodeId, target: NodeId, kind: RoadKind, directions: seq<Direction>)

  type Edge = (NodeId, NodeId)

  // --- The travel relation of a road list ---

  function Ends(r: Road): Edge { (r.source, r.target) }

  function EndsV2(r: RoadV2): Edge { (r.source, r.target) }

  function Travel(r: Road): set<Edge> {
    {(r.source, r.target)} + if r.oneWay then {} else {(r.target, r.source)}
  }

  function TravelV2(r: RoadV2): set<Edge> {
    (if Forward in r.directions then {(r.source, r.target)} else {}) +
    (if Backward in r.directions then {(r.target, r.source)} else {})
  }

  function Edges<R>(roads: seq<R>, travel: R -> set<Edge>): set<Edge> {
    if roads == [] then {} else Edges(roads[..|roads| - 1], travel) + travel(roads[|roads| - 1])
  }

  ghost function GraphOf(edges: set<Edge>, nodes: set<NodeId>): Digraph {
    map u | u in nodes :: set v | v in nodes && (u, v) in edges
  }

  ghost function Reversed(edges: set<Edge>): set<Edge> {
    set e | e in edges :: (e.1, e.0)
  }

  ghost predicate EndpointsIn<R>(roads: seq<R>, ends: R -> Edge, nodes: set<NodeId>) {
    forall r <- roads :: ends(r).0 in nodes && ends(r).1 in nodes
  }

  lemma ReversedEdge(edges: set<Edge>, u: NodeId, v: NodeId)
    ensures (u, v) in edges <==> (v, u) in Reversed(edges)
  {
    var e: Edge := (u, v);
    assert (e.1, e.0) == (v, u);
  }

  lemma ReversedGraphIsTransposed(edges: set<Edge>, nodes: set<NodeId>)
    ensures Transposed(GraphOf(edges, nodes), GraphOf(Reversed(edges), nodes))
    ensures Closed(GraphOf(edges, nodes)) && Closed(GraphOf(Reversed(edges), nodes))
  {
    forall u, v ensures (u, v) in edges <==> (v, u) in Reversed(edges) {
      ReversedEdge(edges, u, v);
    }
  }

  lemma NoStreets(nodes: set<NodeId>)
    ensures GraphOf({}, nodes) == GraphOf(Reversed({}), nodes) == map u | u in nodes :: {}
  {
    var empty: Digraph := map u | u in nodes :: {};
    assert forall u <- nodes :: GraphOf({}, nodes)[u] == empty[u];
    var none: set<Edge> := {};
    assert Reversed(none) == none;
  }

  // --- Adjacency, built road by road ---

  /** `outgoing` and `incoming` after one more street from `u` to `v`. */
  function WithStreet(g: Digraph, u: NodeId, v: NodeId): Digraph
    requires u in g
  {
    g[u := g[u] + {v}]
  }

  /** The two adjacency maps hold exactly these edges. */
  ghost predicate Adjacency(outgoing: Digraph, incoming: Digraph, edges: set<Edge>, nodes: set<NodeId>) {
    outgoing == GraphOf(edges, nodes) && incoming == GraphOf(Reversed(edges), nodes)
  }

  lemma AddStreet(outgoing: Digraph, incoming: Digraph, edges: set<Edge>, nodes: set<NodeId>, u: NodeId, v: NodeId)
    requires Adjacency(outgoing, incoming, edges, nodes) && u in nodes && v in nodes
    ensures Adjacency(WithStreet(outgoing, u, v), WithStreet(incoming, v, u), edges + {(u, v)}, nodes)
  {
    WithStreetAddsOutgoing(edges, nodes, u, v);
    WithStreetAddsOutgoing(Reversed(edges), nodes, v, u);
    var e: Edge := (u, v);
    assert Reversed(edges + {e}) == Reversed(edges) + {(e.1, e.0)};
  }

  lemma WithStreetAddsOutgoing(edges: set<Edge>, nodes: set<NodeId>, u: NodeId, v: NodeId)
    requires u in nodes && v in nodes
    ensures WithStreet(GraphOf(edges, nodes), u, v) == GraphOf(edges + {(u, v)}, nodes)
  {
    var g, more := GraphOf(edges, nodes), GraphOf(edges + {(u, v)}, nodes);
    forall w <- nodes ensures WithStreet(g, u, v)[w] == more[w] {}
  }

  lemma OneMoreRoad<R>(roads: seq<R>, travel: R -> set<Edge>, k: nat)
    requires k < |roads|
    ensures Edges(roads[..k + 1], travel) == Edges(roads[..k], travel) + travel(roads[k])
  {
    assert roads[..k + 1][..k] == roads[..k];
  }

  /** One schema-1 segment added to both adjacency maps. */
  method AddRoad(road: Road, before: Digraph, into: Digraph, ghost edges: set<Edge>, ghost nodes: set<NodeId>)
    returns (outgoing: Digraph, incoming: Digraph)
    requires Adjacency(before, into, edges, nodes) && road.source in nodes && road.target in nodes
    ensures Adjacency(outgoing, incoming, edges + Travel(road), nodes)
  {
    AddStreet(before, into, edges, nodes, road.source, road.target);
    outgoing := WithStreet(before, road.source, road.target);
    incoming := WithStreet(into, road.target, road.source);
    ghost var there := edges + {(road.source, road.target)};
    if !road.oneWay {
      AddStreet(outgoing, incoming, there, nodes, road.target, road.source);
      outgoing := WithStreet(outgoing, road.target, road.source);
      incoming := WithStreet(incoming, road.source, road.target);
      assert there + {(road.target, road.source)} == edges + Travel(road);
    } else {
      assert there == edges + Travel(road);
    }
  }

  /** One schema-2 segment added to both adjacency maps. */
  method AddRoadV2(road: RoadV2, before: Digraph, into: Digraph, ghost edges: set<Edge>, ghost nodes: set<NodeId>)
    returns (outgoing: Digraph, incoming: Digraph)
    requires Adjacency(before, into, edges, nodes) && road.source in nodes && road.target in nodes
    ensures Adjacency(outgoing, incoming, edges + TravelV2(road), nodes)
  {
    outgoing, incoming := before, into;
    ghost var seen := edges;
    if Forward in road.directions {
      AddStreet(outgoing, incoming, seen, nodes, road.source, road.target);
      outgoing := WithStreet(outgoing, road.source, road.target);
      incoming := WithStreet(incoming, road.target, road.source);
      seen := seen + {(road.source, road.target)};
    }
    if Backward in road.directions {
      AddStreet(outgoing, incoming, seen, nodes, road.target, road.source);
      outgoing := WithStreet(outgoing, road.target, road.source);
      incoming := WithStreet(incoming, road.source, road.target);
      seen := seen + {(road.target, road.source)};
    }
    assert seen == edges + TravelV2(road);
  }

  method BuildAdjacency(roads: seq<Road>, nodeIds: set<NodeId>) returns (outgoing: Digraph, incoming: Digraph)
    requires EndpointsIn(roads, Ends, nodeIds)
    ensures Adjacency(outgoing, incoming, Edges(roads, Travel), nodeIds)
  {
    outgoing := map u | u in nodeIds :: {};
    incoming := map u | u in nodeIds :: {};
    NoStreets(nodeIds);
    for k := 0 to |roads|
      invariant Adjacency(outgoing, incoming, Edges(roads[..k], Travel), nodeIds)
    {
      assert Ends(roads[k]).0 in nodeIds && Ends(roads[k]).1 in nodeIds;
      OneMoreRoad(roads, Travel, k);
      outgoing, incoming := AddRoad(roads[k], outgoing, incoming, Edges(roads[..k], Travel), nodeIds);
    }
    assert roads[..|roads|] == roads;
  }

  /** Schema 1: the strongly connected components of the street graph. */
  method StrongComponents(roads: seq<Road>, nodeIds: set<NodeId>) returns (components: seq<set<NodeId>>)
    requires EndpointsIn(roads, Ends, nodeIds)
    ensures AreStrongComponents(GraphOf(Edges(roads, Travel), nodeIds), components)
  {
    var outgoing, incoming := BuildAdjacency(roads, nodeIds);
    ReversedGraphIsTransposed(Edges(roads, Travel), nodeIds);
    components := Components(outgoing, incoming);
  }

  method BuildAdjacencyV2(roads: seq<RoadV2>, nodeIds: set<NodeId>) returns (outgoing: Digraph, incoming: Digraph)
    requires EndpointsIn(roads, EndsV2, nodeIds)
    ensures Adjacency(outgoing, incoming, Edges(roads, TravelV2), nodeIds)
  {
    outgoing := map u | u in nodeIds :: {};
    incoming := map u | u in nodeIds :: {};
    NoStreets(nodeIds);
    for k := 0 to |roads|
      invariant Adjacency(outgoing, incoming, Edges(roads[..k], TravelV2), nodeIds)
    {
      assert EndsV2(roads[k]).0 in nodeIds && EndsV2(roads[k]).1 in nodeIds;
      OneMoreRoad(roads, TravelV2, k);
      outgoing, incoming := AddRoadV2(roads[k], outgoing, incoming, Edges(roads[..k], TravelV2), nodeIds);
    }
    assert roads[..|roads|] == roads;
  }

  /** Schema 2: the strongly connected components of the street graph. */
  method StrongComponentsV2(roads: seq<RoadV2>, nodeIds: set<NodeId>) returns (components: seq<set<NodeId>>)
    requires EndpointsIn(roads, EndsV2, nodeIds)
    ensures AreStrongComponents(GraphOf(Edges(roads, TravelV2), nodeIds), components)
  {
    var outgoing, incoming := BuildAdjacencyV2(roads, nodeIds);
    ReversedGraphIsTransposed(Edges(roads, TravelV2), nodeIds);
    components := Components(outgoing, incoming);
  }

  // --- The largest component, ties to the least identifier ---

  ghost predicate IsLeastId(c: set<NodeId>, v: NodeId) {
    v in c && forall u <- c :: TextLeq(v, u)
  }

  /** `c` is at least as large as `d`, and on equal size holds the smaller least identifier. */
  ghost predicate Preferred(c: set<NodeId>, d: set<NodeId>) {
    || |c| > |d|
    || (|c| == |d| && forall v, w :: IsLeastId(c, v) && IsLeastId(d, w) ==> TextLeq(v, w))
  }

  ghost predicate IsSelected(g: Digraph, c: set<NodeId>) {
    IsComponent(g, c) && forall d :: IsComponent(g, d) ==> Preferred(c, d)
  }

  method LeastId(c: set<NodeId>) returns (least: NodeId)
    requires c != {}
    ensures IsLeastId(c, least)
  {
    TextOrder();
    var listed := SortedSet(c, TextLeq);
    least := listed[0];
    assert least in Elements(listed);
    forall u | u in c ensures TextLeq(least, u) {
      assert u in Elements(listed);
    }
  }

  method SelectComponent(components: seq<set<NodeId>>) returns (selected: set<NodeId>)
    requires components != [] && forall k :: 0 <= k < |components| ==> components[k] != {}
    ensures selected in components
    ensures forall k :: 0 <= k < |components| ==> Preferred(selected, components[k])
  {
    selected := components[0];
    var least := LeastId(selected);
    PreferredSelf(selected);
    for k := 1 to |components|
      invariant selected in components && IsLeastId(selected, least)
      invariant forall j :: 0 <= j < k ==> Preferred(selected, components[j])
    {
      var candidate := LeastId(components[k]);
      if |components[k]| > |selected| || (|components[k]| == |selected| && !TextLeq(least, candidate)) {
        forall j | 0 <= j < k ensures Preferred(components[k], components[j]) {
          PreferredTransitive(components[k], candidate, selected, least, components[j]);
        }
        PreferredSelf(components[k]);
        selected, least := components[k], candidate;
      } else {
        LeastIdUnique(selected, least);
        LeastIdUnique(components[k], candidate);
      }
    }
  }

  lemma PreferredIsSelected(g: Digraph, components: seq<set<NodeId>>, selected: set<NodeId>)
    requires AreStrongComponents(g, components) && selected in components
    requires forall k :: 0 <= k < |components| ==> Preferred(selected, components[k])
    ensures IsSelected(g, selected)
  {
    forall d | IsComponent(g, d) ensures Preferred(selected, d) {
      ComponentListed(g, components, d);
    }
  }

  lemma LeastIdUnique(c: set<NodeId>, v: NodeId)
    requires IsLeastId(c, v)
    ensures forall w :: IsLeastId(c, w) ==> w == v
  {
    TextOrder();
  }

  lemma PreferredSelf(c: set<NodeId>)
    ensures Preferred(c, c)
  {
    TextOrder();
  }

  lemma PreferredTransitive(c: set<NodeId>, v: NodeId, d: set<NodeId>, w: NodeId, e: set<NodeId>)
    requires IsLeastId(c, v) && IsLeastId(d, w) && Preferred(d, e)
    requires |c| > |d| || (|c| == |d| && !TextLeq(w, v))
    ensures Preferred(c, e)
  {
    TextOrder();
    LeastIdUnique(c, v);
  }

  /** The list of components misses none. */
  lemma ComponentListed(g: Digraph, components: seq<set<NodeId>>, d: set<NodeId>)
    requires AreStrongComponents(g, components) && IsComponent(g, d)
    ensures d in components
  {
    var v :| v in d;
    assert InSome(components, v);
    var k :| 0 <= k < |components| && v in components[k];
    SharedMember(g, components[k], d, v);
  }

  /** Components with a common node are the same. */
  lemma SharedMember(g: Digraph, c: set<NodeId>, d: set<NodeId>, v: NodeId)
    requires IsComponent(g, c) && IsComponent(g, d) && v in c && v in d
    ensures c == d
  {
    forall u ensures u in c <==> u in d {}
  }

  /** Only one component can be selected: two candidates would share their least identifier. */
  lemma SelectedUnique(g: Digraph, c: set<NodeId>, d: set<NodeId>)
    requires IsSelected(g, c) && IsSelected(g, d)
    ensures c == d
  {
    var v := LeastIdExists(c);
    var w := LeastIdExists(d);
    TextOrder();
    assert v == w;
    SharedMember(g, c, d, v);
  }

  lemma {:induction false} LeastIdExists(c: set<NodeId>) returns (v: NodeId)
    requires c != {}
    ensures IsLeastId(c, v)
    decreases c
  {
    TextOrder();
    v :| v in c;
    if c != {v} {
      assert c == {v} + (c - {v});
      var w := LeastIdExists(c - {v});
      v := if TextLeq(v, w) then v else w;
    }
  }

  ghost function ComponentOf(g: Digraph, v: NodeId): set<NodeId> {
    set u | u in g && Connected(g, v, u)
  }

  lemma ComponentOfIsComponent(g: Digraph, v: NodeId)
    requires v in g
    ensures IsComponent(g, ComponentOf(g, v)) && v in ComponentOf(g, v)
  {
    ReachesSelf(g, v);
    var c := ComponentOf(g, v);
    assert v in c;
    forall u, w | u in c && w in g ensures w in c <==> Connected(g, u, w) {
      if w in c {
        ConnectedTransitive(g, u, v, w);
      } else if Connected(g, u, w) {
        ConnectedTransitive(g, v, u, w);
      }
    }
  }

  lemma {:induction false} BestExists(g: Digraph, nodes: set<NodeId>) returns (v: NodeId)
    requires nodes != {} && nodes <= g.Keys
    ensures v in nodes && forall u <- nodes :: Preferred(ComponentOf(g, v), ComponentOf(g, u))
    decreases nodes
  {
    v :| v in nodes;
    PreferredSelf(ComponentOf(g, v));
    var rest := nodes - {v};
    assert nodes == rest + {v};
    if rest != {} {
      var w := BestExists(g, rest);
      ComponentOfIsComponent(g, v);
      ComponentOfIsComponent(g, w);
      var c, d := ComponentOf(g, v), ComponentOf(g, w);
      var x := LeastIdExists(c);
      var y := LeastIdExists(d);
      TextOrder();
      if |c| > |d| || (|c| == |d| && !TextLeq(y, x)) {
        forall u | u in rest ensures Preferred(c, ComponentOf(g, u)) {
          PreferredTransitive(c, x, d, y, ComponentOf(g, u));
        }
      } else {
        LeastIdUnique(c, x);
        LeastIdUnique(d, y);
        v := w;
      }
    }
  }

  lemma SelectedExists(g: Digraph)
    requires g.Keys != {}
    ensures exists c :: IsSelected(g, c)
  {
    var v := BestExists(g, g.Keys);
    ComponentOfIsComponent(g, v);
    forall d | IsComponent(g, d) ensures Preferred(ComponentOf(g, v), d) {
      var u := MemberOf(g, d);
      assert u in g.Keys;
    }
    assert IsSelected(g, ComponentOf(g, v));
  }

  lemma MemberOf(g: Digraph, d: set<NodeId>) returns (u: NodeId)
    requires IsComponent(g, d)
    ensures u in g && d == ComponentOf(g, u)
  {
    u :| u in d;
    ComponentOfIsComponent(g, u);
    SharedMember(g, d, ComponentOf(g, u), u);
  }

  /** The component a conversion keeps. */
  ghost function Selected(g: Digraph): set<NodeId>
    requires g.Keys != {}
    ensures IsSelected(g, Selected(g))
  {
    SelectedExists(g);
    var c :| IsSelected(g, c);
    c
  }

  // --- What stays after the choice ---

  function Retained<R>(roads: seq<R>, ends: R -> Edge, selected: set<NodeId>): seq<R> {
    if roads == [] then []
    else
      var r := roads[|roads| - 1];
      Retained(roads[..|roads| - 1], ends, selected) +
      if ends(r).0 in selected && ends(r).1 in selected then [r] else []
  }

  ghost function Within(edges: set<Edge>, nodes: set<NodeId>): set<Edge> {
    set e | e in edges && e.0 in nodes && e.1 in nodes
  }

  /** A road is only travelled between its own end points, and in some direction. */
  ghost predicate TravelsOwnEnds<R>(roads: seq<R>, ends: R -> Edge, travel: R -> set<Edge>) {
    forall r <- roads :: travel(r) != {} && forall e <- travel(r) :: e == ends(r) || e == (ends(r).1, ends(r).0)
  }

  /** The retained roads are travelled exactly as before within the selected nodes. */
  lemma {:induction false} RetainedEdges<R>(roads: seq<R>, ends: R -> Edge, travel: R -> set<Edge>,
                                            selected: set<NodeId>)
    requires TravelsOwnEnds(roads, ends, travel)
    ensures Edges(Retained(roads, ends, selected), travel) == Within(Edges(roads, travel), selected)
    ensures EndpointsIn(Retained(roads, ends, selected), ends, selected)
    ensures forall r <- Retained(roads, ends, selected) :: r in roads
  {
    if roads != [] {
      var front, r := roads[..|roads| - 1], roads[|roads| - 1];
      var kept := Retained(front, ends, selected);
      RetainedEdges(front, ends, travel, selected);
      if ends(r).0 in selected && ends(r).1 in selected {
        assert (kept + [r])[..|kept|] == kept;
        assert Edges(kept + [r], travel) == Within(Edges(front, travel), selected) + travel(r);
        assert Within(travel(r), selected) == travel(r);
      } else {
        assert kept + [] == kept;
        assert Within(travel(r), selected) == {};
      }
      assert Within(Edges(roads, travel), selected) == Within(Edges(front, travel), selected)
             + Within(travel(r), selected);
    }
  }

  /** A component keeps its connections when everything outside it is dropped. */
  lemma ComponentStandsAlone(edges: set<Edge>, nodes: set<NodeId>, c: set<NodeId>)
    requires IsComponent(GraphOf(edges, nodes), c)
    ensures StronglyConnected(GraphOf(Within(edges, c), c))
  {
    var g, alone := GraphOf(edges, nodes), GraphOf(Within(edges, c), c);
    forall u, v | u in c && v in c ensures Reaches(alone, u, v) {
      assert Connected(g, u, v);
      var p :| WalkBetween(g, u, v, p);
      forall k | 0 <= k < |p| ensures p[k] in c {
        WalkStaysInComponent(g, u, v, p, k);
      }
      assert forall i :: 0 <= i < |p| - 1 ==> p[i + 1] in g[p[i]];
      assert WalkBetween(alone, u, v, p);
    }
  }

  /** In a strongly connected graph of two or more nodes every node has a street. */
  lemma NodeHasStreet(edges: set<Edge>, nodes: set<NodeId>, u: NodeId)
    requires StronglyConnected(GraphOf(edges, nodes)) && |nodes| >= 2 && u in nodes
    ensures exists v :: (u, v) in edges && v in nodes
  {
    var others := nodes - {u};
    assert |others| >= 1;
    var v :| v in others;
    var g := GraphOf(edges, nodes);
    assert Reaches(g, u, v);
    var a, b := LeavingEdge(g, {u}, u, v);
    assert (u, b) in edges;
  }

  // --- The connectivity check of the city-pack schemas ---

  /** What the check keeps: it has only stacked nodes it can reach, and every neighbour of a visited node
      is visited or stacked. */
  ghost predicate Reaching(g: Digraph, start: NodeId, visited: set<NodeId>, pending: seq<NodeId>) {
    && visited <= g.Keys
    && (forall v <- pending :: v in g && Reaches(g, start, v))
    && (forall v <- visited :: Reaches(g, start, v))
    && (forall v <- visited, w <- g[v] :: w in visited || w in pending)
    && (start in visited || start in pending)
  }

  lemma VisitStep(g: Digraph, start: NodeId, visited: set<NodeId>, pending: seq<NodeId>, onward: seq<NodeId>)
    requires Closed(g) && Reaching(g, start, visited, pending) && pending != []
    requires var current := pending[|pending| - 1];
             if current in visited then onward == [] else Elements(onward) == g[current] - (visited + {current})
    ensures Reaching(g, start, visited + {pending[|pending| - 1]}, pending[..|pending| - 1] + onward)
  {
    var current, rest := pending[|pending| - 1], pending[..|pending| - 1];
    assert pending == rest + [current];
    forall w | w in onward ensures w in g && Reaches(g, start, w) {
      assert w in Elements(onward);
      ReachesByEdge(g, current, w);
      ReachesTransitive(g, start, current, w);
    }
    forall v, w | v in visited + {current} && w in g[v] ensures w in visited + {current} || w in rest + onward {
      if v == current && current !in visited {
        assert w in visited + {current} || w in Elements(onward);
      }
    }
  }

  /** Whether every node can be reached from `start`. The source leaves open in which order a set's
      members are stacked; the answer does not depend on it. */
  method ReachesAll(start: NodeId, adjacency: Digraph) returns (all: bool)
    requires Closed(adjacency) && start in adjacency
    ensures all <==> forall v :: v in adjacency ==> Reaches(adjacency, start, v)
  {
    var visited: set<NodeId> := {};
    var pending := [start];
    ReachesSelf(adjacency, start);
    TextOrder();
    while pending != []
      invariant Reaching(adjacency, start, visited, pending)
      decreases adjacency.Keys - visited, |pending|
    {
      var current := pending[|pending| - 1];
      if current in visited {
        VisitStep(adjacency, start, visited, pending, []);
        assert visited + {current} == visited && pending[..|pending| - 1] + [] == pending[..|pending| - 1];
        pending := pending[..|pending| - 1];
      } else {
        var onward := SortedSet(adjacency[current] - (visited + {current}), TextLeq);
        VisitStep(adjacency, start, visited, pending, onward);
        pending := pending[..|pending| - 1] + onward;
        visited := visited + {current};
      }
    }
    AllReached(adjacency, start, visited);
    all := |visited| == |adjacency|;
  }

  lemma AllReached(g: Digraph, start: NodeId, visited: set<NodeId>)
    requires Reaching(g, start, visited, [])
    ensures |visited| == |g| <==> forall v :: v in g ==> Reaches(g, start, v)
  {
    assert |g| == |g.Keys|;
    if |visited| == |g| {
      SubsetSameSize(visited, g.Keys);
    } else if forall v :: v in g ==> Reaches(g, start, v) {
      assert g.Keys - visited != {} by { assert visited + (g.Keys - visited) == g.Keys; }
      var v :| v in g.Keys - visited;
      var a, b := LeavingEdge(g, visited, start, v);
    }
  }

  lemma SubsetSameSize<T>(a: set<T>, b: set<T>)
    requires a <= b && |a| == |b|
    ensures a == b
  {
    assert b == a + (b - a) && |b| == |a| + |b - a|;
  }
}
