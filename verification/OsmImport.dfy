/** The conversion of an extract into a city pack: which part of the street graph is kept, and what the
    finished pack guarantees. */
module OsmImport {
  import opened Results
  import opened Orders
  import opened Decimals
  import opened Digraphs
  import opened Roads
  import opened OsmTags
  import opened OsmExtract
  import opened OsmDraft

  const MAX_CITY_NODES := 10_000
  const MAX_CITY_ROADS := 20_000

  // --- Node names read back ---

  function ReadNodeName(name: NodeId): int {
    if |name| < 9 then 0 else ReadDecimal(name[9..])
  }

  lemma NodeNameReadsBack(id: int)
    requires PositiveId(id)
    ensures ReadNodeName(NodeName(id)) == id
  {
    ReadDecimalUndoesDecimal(id);
    assert NodeName(id)[9..] == Decimal(id);
  }

  function ReadIds(names: set<NodeId>): set<int> {
    set name | name in names :: ReadNodeName(name)
  }

  lemma NameReadsBack(used: set<int>, name: NodeId)
    requires forall id <- used :: PositiveId(id)
    requires name in NodeNames(used)
    ensures ReadNodeName(name) in used && NodeName(ReadNodeName(name)) == name
  {
    hide ReadNodeName, NodeName, PositiveId;
    var id :| id in used && NodeName(id) == name;
    NodeNameReadsBack(id);
  }

  /** The identifiers of some of the used nodes, recovered from their names. */
  lemma IdsOfNames(used: set<int>, names: set<NodeId>)
    requires forall id <- used :: PositiveId(id)
    requires names <= NodeNames(used)
    ensures ReadIds(names) <= used && NodeNames(ReadIds(names)) == names && |ReadIds(names)| == |names|
  {
    hide ReadNodeName, NodeName, PositiveId, NodeNames;
    forall name | name in names ensures ReadNodeName(name) in used && NodeName(ReadNodeName(name)) == name {
      NameReadsBack(used, name);
    }
    NamesOfReadIds(names);
    InjectiveImage(names, ReadIds(names), ReadNodeName);
  }

  lemma NamesOfReadIds(names: set<NodeId>)
    requires forall name <- names :: NodeName(ReadNodeName(name)) == name
    ensures NodeNames(ReadIds(names)) == names
  {
    hide ReadNodeName, NodeName;
    forall name | name in names ensures name in NodeNames(ReadIds(names)) {
      assert ReadNodeName(name) in ReadIds(names);
    }
  }

  lemma {:induction false} InjectiveImage<A, B>(a: set<A>, b: set<B>, f: A -> B)
    requires b == set x | x in a :: f(x)
    requires forall x, y :: x in a && y in a && f(x) == f(y) ==> x == y
    ensures |b| == |a|
    decreases a
  {
    if a != {} {
      var x :| x in a;
      var rest := a - {x};
      InjectiveImage(rest, set y | y in rest :: f(y), f);
      assert b == (set y | y in rest :: f(y)) + {f(x)};
      assert a == rest + {x};
    }
  }

  // --- Which nodes are kept ---

  /** Everything, when the graph is strongly connected; otherwise, on request, its selected component. */
  ghost function KeptNodes(g: Digraph, largest: bool): Result<set<NodeId>, ImportError>
    requires g.Keys != {}
  {
    if StronglyConnected(g) then Success(g.Keys)
    else if !largest then Failure(Disconnected)
    else if |Selected(g)| < 2 then Failure(NoComponent)
    else Success(Selected(g))
  }

  lemma OneComponentMeansConnected(g: Digraph, components: seq<set<NodeId>>)
    requires AreStrongComponents(g, components) && g.Keys != {}
    ensures |components| == 1 <==> StronglyConnected(g)
    ensures components != [] && forall k :: 0 <= k < |components| ==> components[k] != {}
  {
    hide StronglyConnected, Connected;
    var v :| v in g.Keys;
    assert InSome(components, v);
    if |components| == 1 {
      OneComponentConnects(g, components[0]);
    } else if StronglyConnected(g) {
      ConnectedLeavesNoOther(g, components[0], components[1]);
    }
  }

  lemma OneComponentConnects(g: Digraph, c: set<NodeId>)
    requires IsComponent(g, c) && g.Keys <= c
    ensures StronglyConnected(g)
  {
    forall u, w | u in g && w in g ensures Reaches(g, u, w) {
      assert Connected(g, u, w);
    }
  }

  lemma ConnectedLeavesNoOther(g: Digraph, c: set<NodeId>, d: set<NodeId>)
    requires StronglyConnected(g) && IsComponent(g, c) && IsComponent(g, d)
    ensures !(c !! d)
  {
    var a :| a in c;
    var b :| b in d;
    assert Connected(g, a, b);
    assert b in c && b in d;
  }

  method ChooseNodes(components: seq<set<NodeId>>, nodeIds: set<NodeId>, largest: bool, ghost g: Digraph)
    returns (r: Result<set<NodeId>, ImportError>)
    requires g.Keys == nodeIds != {} && AreStrongComponents(g, components)
    ensures r == KeptNodes(g, largest)
  {
    OneComponentMeansConnected(g, components);
    if |components| != 1 {
      if !largest {
        return Failure(Disconnected);
      }
      var selected := SelectComponent(components);
      PreferredIsSelected(g, components, selected);
      SelectedUnique(g, selected, Selected(g));
      if |selected| < 2 {
        return Failure(NoComponent);
      }
      return Success(selected);
    }
    r := Success(nodeIds);
  }

  /** What is kept, whichever way it was chosen: strongly connected on its own, and touching a road at
      every node. In particular some road is always kept. */
  lemma KeptGraph<R>(roads: seq<R>, ends: R -> Edge, travel: R -> set<Edge>, nodes: set<NodeId>, largest: bool)
    requires nodes != {} && EndpointsIn(roads, ends, nodes) && TravelsOwnEnds(roads, ends, travel)
    requires forall v <- nodes :: Touched(roads, ends, v)
    requires KeptNodes(GraphOf(Edges(roads, travel), nodes), largest).Success?
    ensures var kept := KeptNodes(GraphOf(Edges(roads, travel), nodes), largest).value;
            var retained := Retained(roads, ends, kept);
            && kept != {} && kept <= nodes
            && StronglyConnected(GraphOf(Edges(retained, travel), kept))
            && EndpointsIn(retained, ends, kept)
            && (forall v <- kept :: Touched(retained, ends, v))
            && retained != []
  {
    var g := GraphOf(Edges(roads, travel), nodes);
    assert g.Keys == nodes;
    hide StronglyConnected, GraphOf, Edges, TravelsOwnEnds;
    var kept := KeptNodes(g, largest).value;
    var retained := Retained(roads, ends, kept);
    RetainedEdges(roads, ends, travel, kept);
    RetainedTravel(roads, ends, travel, retained);
    if StronglyConnected(g) {
      RetainedAll(roads, ends, nodes);
    } else {
      ComponentStandsAlone(Edges(roads, travel), nodes, kept);
      forall v | v in kept ensures Touched(retained, ends, v) {
        TouchedInConnected(retained, ends, travel, kept, v);
      }
    }
    var v :| v in kept;
    assert Touched(retained, ends, v);
  }

  lemma RetainedTravel<R>(roads: seq<R>, ends: R -> Edge, travel: R -> set<Edge>, retained: seq<R>)
    requires TravelsOwnEnds(roads, ends, travel) && forall r <- retained :: r in roads
    ensures TravelsOwnEnds(retained, ends, travel)
  {}

  lemma TouchedInConnected<R>(roads: seq<R>, ends: R -> Edge, travel: R -> set<Edge>, nodes: set<NodeId>, v: NodeId)
    requires StronglyConnected(GraphOf(Edges(roads, travel), nodes)) && |nodes| >= 2 && v in nodes
    requires TravelsOwnEnds(roads, ends, travel)
    ensures Touched(roads, ends, v)
  {
    NodeHasStreet(Edges(roads, travel), nodes, v);
    var w :| (v, w) in Edges(roads, travel);
    EdgeHasRoad(roads, travel, (v, w));
  }

  lemma {:induction false} RetainedAll<R>(roads: seq<R>, ends: R -> Edge, nodes: set<NodeId>)
    requires EndpointsIn(roads, ends, nodes)
    ensures Retained(roads, ends, nodes) == roads
  {
    if roads != [] {
      var front, r := roads[..|roads| - 1], roads[|roads| - 1];
      assert forall s <- front :: s in roads;
      RetainedAll(front, ends, nodes);
      assert r in roads;
      assert roads == front + [r];
    }
  }

  lemma {:induction false} EdgeHasRoad<R>(roads: seq<R>, travel: R -> set<Edge>, e: Edge)
    ensures e in Edges(roads, travel) <==> exists r :: r in roads && e in travel(r)
  {
    if roads != [] {
      var front, r := roads[..|roads| - 1], roads[|roads| - 1];
      EdgeHasRoad(front, travel, e);
      assert roads == front + [r];
    }
  }

  /** The travel relation of a road list does not depend on its order. */
  lemma EdgesIgnoreOrder<R>(roads: seq<R>, sorted: seq<R>, travel: R -> set<Edge>)
    requires multiset(roads) == multiset(sorted)
    ensures Edges(roads, travel) == Edges(sorted, travel)
    ensures forall r :: r in roads <==> r in sorted
  {
    SameMultisetSameElements(roads, sorted);
    forall r ensures r in roads <==> r in sorted {
      assert r in Elements(roads) <==> r in Elements(sorted);
    }
    forall e ensures e in Edges(roads, travel) <==> e in Edges(sorted, travel) {
      EdgeHasRoad(roads, travel, e);
      EdgeHasRoad(sorted, travel, e);
    }
  }

  // --- The finished pack ---

  datatype CityNode = CityNode(nodeId: NodeId, place: Place)

  datatype City<R> = City(nodes: seq<CityNode>, roads: seq<R>)

  /** The caller's choices. City name, licence and source fields are checked elsewhere; `metadataAccepted`
      is the verdict on them. */
  datatype Request = Request(largest: bool, metadataAccepted: bool)

  datatype Imported<P> = Imported(pack: P, droppedNodes: int, droppedRoads: int)

  function NodeIdsOf(nodes: seq<CityNode>): set<NodeId> {
    set n | n in nodes :: n.nodeId
  }

  function Places(nodes: seq<CityNode>): map<NodeId, Place> {
    if nodes == [] then map[] else Places(nodes[..|nodes| - 1])[nodes[|nodes| - 1].nodeId := nodes[|nodes| - 1].place]
  }

  function RoadName(r: Road): string { r.roadId }

  function RoadNameV2(r: RoadV2): string { r.roadId }

  /** What the pack schemas read off a road: its end points, the travel it allows and its name. */
  datatype RoadShape<!R> = RoadShape(ends: R -> Edge, travel: R -> set<Edge>, name: R -> string)

  const SHAPE: RoadShape<Road> := RoadShape(Ends, Travel, RoadName)
  const SHAPE_V2: RoadShape<RoadV2> := RoadShape(EndsV2, TravelV2, RoadNameV2)

  function ByName<R>(shape: RoadShape<R>): (R, R) -> bool {
    (a, b) => TextLeq(shape.name(a), shape.name(b))
  }

  lemma ByNameOrders<R(!new)>(shape: RoadShape<R>)
    ensures Preorder(ByName(shape))
  {
    TextOrder();
  }

  /** The nodes in name order. */
  ghost function CityNodes(ids: set<int>, nodes: map<int, Place>): seq<CityNode>
    requires forall name <- NodeNames(ids) :: ReadNodeName(name) in nodes
  {
    TextOrder();
    var names := Sorted(NodeNames(ids), TextLeq);
    seq(|names|, i requires 0 <= i < |names| =>
      assert names[i] in Elements(names);
      CityNode(names[i], nodes[ReadNodeName(names[i])]))
  }

  /** The bounded and geometric checks of the pack schema. */
  predicate ShapeAccepted<R(==)>(city: City<R>, shape: RoadShape<R>) {
    var places := Places(city.nodes);
    && 2 <= |city.nodes| <= MAX_CITY_NODES && 1 <= |city.roads| <= MAX_CITY_ROADS
    && |NodeIdsOf(city.nodes)| == |city.nodes|
    && |set r | r in city.roads :: shape.name(r)| == |city.roads|
    && forall r <- city.roads ::
         var (s, t) := shape.ends(r);
         && s in places && t in places && places[s] != places[t]
         && -180.0 <= places[s].longitude - places[t].longitude <= 180.0
  }

  ghost function StreetGraph<R>(city: City<R>, shape: RoadShape<R>): Digraph {
    GraphOf(Edges(city.roads, shape.travel), NodeIdsOf(city.nodes))
  }

  // --- From draft to city, for either schema ---

  /** The drafted roads are sound, and travelled only between their own end points. */
  ghost predicate Drafted<R>(roads: seq<R>, shape: RoadShape<R>, used: set<int>, nodes: map<int, Place>) {
    RoadsSound(roads, shape.ends, used, nodes) && TravelsOwnEnds(roads, shape.ends, shape.travel) && roads != []
  }

  ghost function DraftGraph<R>(roads: seq<R>, shape: RoadShape<R>, used: set<int>): Digraph {
    GraphOf(Edges(roads, shape.travel), NodeNames(used))
  }

  /** The city made of what is kept, with the numbers of nodes and roads left behind. */
  ghost function KeptCity<R(!new)>(roads: seq<R>, shape: RoadShape<R>, used: set<int>, nodes: map<int, Place>,
                                   largest: bool)
    : Result<Imported<City<R>>, ImportError>
    requires Drafted(roads, shape, used, nodes)
  {
    KeptSound(roads, shape, used, nodes, largest);
    var kept :- KeptNodes(DraftGraph(roads, shape, used), largest);
    var retained := Retained(roads, shape.ends, kept);
    Success(Imported(City(CityNodes(ReadIds(kept), nodes), SortBy(retained, ByName(shape))),
                     |used| - |kept|, |roads| - |retained|))
  }

  /** Everything known of the kept part of a sound draft. */
  lemma KeptSound<R>(roads: seq<R>, shape: RoadShape<R>, used: set<int>, nodes: map<int, Place>, largest: bool)
    requires Drafted(roads, shape, used, nodes)
    ensures DraftGraph(roads, shape, used).Keys == NodeNames(used) != {}
    ensures var r := KeptNodes(DraftGraph(roads, shape, used), largest);
            r.Success? ==>
              var retained := Retained(roads, shape.ends, r.value);
              && r.value <= NodeNames(used) && NodeNames(ReadIds(r.value)) == r.value && ReadIds(r.value) <= used
              && |ReadIds(r.value)| == |r.value|
              && (forall name <- r.value :: ReadNodeName(name) in nodes)
              && StronglyConnected(GraphOf(Edges(retained, shape.travel), r.value))
              && (forall v <- r.value :: Touched(retained, shape.ends, v))
              && EndpointsIn(retained, shape.ends, r.value)
              && retained != [] && |retained| <= |roads|
  {
    hide StronglyConnected, Touched, EndpointsIn, TravelsOwnEnds, NodeName, ReadNodeName, IsSelected;
    DraftFacts(roads, shape.ends, used, nodes);
    var r := KeptNodes(DraftGraph(roads, shape, used), largest);
    if r.Success? {
      KeptGraph(roads, shape.ends, shape.travel, NodeNames(used), largest);
      IdsOfNames(used, r.value);
      RetainedNotMore(roads, shape.ends, r.value);
      forall name | name in r.value ensures ReadNodeName(name) in nodes {
        NameReadsBack(used, name);
      }
    }
  }

  lemma DraftFacts<R>(roads: seq<R>, ends: R -> Edge, used: set<int>, nodes: map<int, Place>)
    requires RoadsSound(roads, ends, used, nodes) && roads != []
    ensures NodeNames(used) != {} && EndpointsIn(roads, ends, NodeNames(used))
    ensures forall v <- NodeNames(used) :: Touched(roads, ends, v)
    ensures used <= nodes.Keys && forall id <- used :: PositiveId(id)
  {
    assert ends(roads[0]).0 in NodeNames(used);
  }

  lemma {:induction false} RetainedNotMore<R>(roads: seq<R>, ends: R -> Edge, kept: set<NodeId>)
    ensures |Retained(roads, ends, kept)| <= |roads|
  {
    if roads != [] {
      RetainedNotMore(roads[..|roads| - 1], ends, kept);
    }
  }
}
