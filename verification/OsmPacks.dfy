/** What a finished pack holds, told by the elements of the extract alone. */
module OsmPacks {
  import opened Results
  import opened Orders
  import opened Decimals
  import opened Digraphs
  import opened Roads
  import opened OsmTags
  import opened OsmExtract
  import opened OsmDraft
  import opened OsmImport
  import opened OsmConvert
  import opened OsmStreets

  // --- The kept city, node by node and road by road ---

  /** The listed texts run upwards, none twice. */
  ghost predicate TextsAscend(texts: seq<string>) {
    forall i, j :: 0 <= i < j < |texts| ==> TextBefore(texts[i], texts[j]) && texts[i] != texts[j]
  }

  lemma {:induction false} RetainedExactly<R>(roads: seq<R>, ends: R -> Edge, kept: set<NodeId>, r: R)
    ensures r in Retained(roads, ends, kept) <==> r in roads && ends(r).0 in kept && ends(r).1 in kept
  {
    if roads != [] {
      var front, last := roads[..|roads| - 1], roads[|roads| - 1];
      assert roads == front + [last];
      RetainedExactly(front, ends, kept, r);
    }
  }

  lemma ListedNode(ids: set<int>, nodes: map<int, Place>, n: CityNode)
    requires (forall name <- NodeNames(ids) :: ReadNodeName(name) in nodes) && n in CityNodes(ids, nodes)
    requires forall id <- ids :: PositiveId(id)
    ensures exists id :: id in ids && id in nodes && n.nodeId == NodeName(id) && n.place == nodes[id]
  {
    hide NodeName, ReadNodeName, PositiveId;
    TextOrder();
    var names, listed := Sorted(NodeNames(ids), TextLeq), CityNodes(ids, nodes);
    var i :| 0 <= i < |listed| && listed[i] == n;
    assert names[i] in Elements(names);
    var id :| id in ids && names[i] == NodeName(id);
    NodeNameReadsBack(id);
  }

  lemma ListedInOrder(ids: set<int>, nodes: map<int, Place>)
    requires forall name <- NodeNames(ids) :: ReadNodeName(name) in nodes
    ensures TextsAscend(NamesOf(CityNodes(ids, nodes)))
  {
    hide NodeName, ReadNodeName, NodeNames, TextBefore, TextLeq;
    TextOrder();
    var names, listed := Sorted(NodeNames(ids), TextLeq), CityNodes(ids, nodes);
    forall i, j | 0 <= i < j < |listed|
      ensures TextBefore(listed[i].nodeId, listed[j].nodeId) && listed[i].nodeId != listed[j].nodeId
    {
      TextLeqRead(names[i], names[j]);
    }
  }

  function NamesOf(nodes: seq<CityNode>): seq<string> {
    seq(|nodes|, i requires 0 <= i < |nodes| => nodes[i].nodeId)
  }

  function RoadNames<R>(roads: seq<R>, name: R -> string): seq<string> {
    seq(|roads|, i requires 0 <= i < |roads| => name(roads[i]))
  }

  ghost predicate TextsDoNotDescend(texts: seq<string>) {
    forall i, j :: 0 <= i < j < |texts| ==> TextBefore(texts[i], texts[j])
  }

  lemma RoadsInOrder<R(!new)>(roads: seq<R>, shape: RoadShape<R>)
    ensures TextsDoNotDescend(RoadNames(SortBy(roads, ByName(shape)), shape.name))
  {
    hide TextBefore, TextLeq, SortBy;
    ByNameOrders(shape);
    SortBySorts(roads, ByName(shape));
    var sorted := SortBy(roads, ByName(shape));
    forall i, j | 0 <= i < j < |sorted| ensures TextBefore(shape.name(sorted[i]), shape.name(sorted[j])) {
      assert ByName(shape)(sorted[i], sorted[j]);
      TextLeqRead(shape.name(sorted[i]), shape.name(sorted[j]));
    }
  }

  /** The kept city, member by member: nodes and roads by name, each node where it was, and of the drafted roads
      exactly those between kept nodes. */
  ghost predicate KeepsExactly<R(!new)>(city: City<R>, roads: seq<R>, shape: RoadShape<R>, used: set<int>,
                                        nodes: map<int, Place>)
  {
    var kept := NodeIdsOf(city.nodes);
    && TextsAscend(NamesOf(city.nodes)) && TextsDoNotDescend(RoadNames(city.roads, shape.name))
    && (forall n <- city.nodes ::
          exists id :: id in used && id in nodes && n.nodeId == NodeName(id) && n.place == nodes[id])
    && (forall r :: r in city.roads <==> r in roads && shape.ends(r).0 in kept && shape.ends(r).1 in kept)
    && (forall e :: e in Edges(city.roads, shape.travel) <==>
          e in Edges(roads, shape.travel) && e.0 in kept && e.1 in kept)
  }

  lemma KeptCityExactly<R(!new)>(roads: seq<R>, shape: RoadShape<R>, used: set<int>, nodes: map<int, Place>,
                                 largest: bool)
    requires Drafted(roads, shape, used, nodes) && KeptCity(roads, shape, used, nodes, largest).Success?
    ensures KeepsExactly(KeptCity(roads, shape, used, nodes, largest).value.pack, roads, shape, used, nodes)
  {
    hide StronglyConnected, NodeNames, Touched, ReadNodeName, EndpointsIn, IsSelected, Retained, SortBy, Edges;
    hide GraphOf, CityNodes, NodeIdsOf, TextsAscend, TextsDoNotDescend, TravelsOwnEnds, DraftGraph, NodeName;
    KeptSound(roads, shape, used, nodes, largest);
    var kept := KeptNodes(DraftGraph(roads, shape, used), largest).value;
    var ids, retained := ReadIds(kept), Retained(roads, shape.ends, kept);
    var city := KeptCity(roads, shape, used, nodes, largest).value.pack;
    CityNodesFacts(ids, nodes);
    ListedInOrder(ids, nodes);
    RoadsInOrder(retained, shape);
    SortedRoads(retained, shape);
    RetainedEdges(roads, shape.ends, shape.travel, kept);
    forall n | n in city.nodes
      ensures exists id :: id in used && id in nodes && n.nodeId == NodeName(id) && n.place == nodes[id]
    {
      ListedNode(ids, nodes, n);
    }
    forall r ensures r in city.roads <==> r in roads && shape.ends(r).0 in kept && shape.ends(r).1 in kept {
      RetainedExactly(roads, shape.ends, kept, r);
    }
  }

  // --- Which nodes the streets use ---

  lemma {:induction false} SegmentsUse(d: Draft, id: int, members: seq<int>, street: Screening, k: nat, m: int)
    requires street.Street? && 0 < k < |members| && WithSegments(d, id, members, street, k).Success?
    ensures m in WithSegments(d, id, members, street, k).value.used <==> m in d.used || m in members[..k + 1]
  {
    hide Segment;
    assert members[..k + 1] == members[..k] + [members[k]];
    if k > 1 {
      SegmentsUse(d, id, members, street, k - 1, m);
    } else {
      assert WithSegments(d, id, members, street, 0) == Success(d);
    }
  }

  lemma WayUses(d: Draft, id: int, way: Way, nodes: map<int, Place>, m: int)
    requires WithWay(d, id, way, nodes).Success?
    ensures m in WithWay(d, id, way, nodes).value.used <==> m in d.used || (IsStreet(way.tags) && m in way.members)
  {
    hide Screen, WithSegments, IsStreet;
    StreetRead(way, nodes, d.references);
    var street := Screen(way, nodes, d.references).value;
    if street.Street? {
      var last: nat := |way.members| - 1;
      assert way.members[..last + 1] == way.members;
      SegmentsUse(d.(references := d.references + |way.members|), id, way.members, street, last, m);
    }
  }

  lemma {:induction false} DraftUses(ids: seq<int>, x: Extract, m: int)
    requires (forall id <- ids :: id in x.ways) && DraftOf(ids, x).Success?
    ensures m in DraftOf(ids, x).value.used <==>
            exists id :: id in ids && IsStreet(x.ways[id].tags) && m in x.ways[id].members
  {
    hide WithWay, IsStreet;
    if ids != [] {
      var front, last := ids[..|ids| - 1], ids[|ids| - 1];
      assert ids == front + [last];
      DraftUses(front, x, m);
      WayUses(DraftOf(front, x).value, last, x.ways[last], x.nodes, m);
    }
  }

  lemma {:induction false} SegmentsUseV2(d: DraftV2, id: int, members: seq<int>, street: Screening, k: nat, m: int)
    requires street.Street? && 0 < k < |members| && WithSegmentsV2(d, id, members, street, k).Success?
    ensures m in WithSegmentsV2(d, id, members, street, k).value.used <==> m in d.used || m in members[..k + 1]
  {
    hide SegmentV2;
    assert members[..k + 1] == members[..k] + [members[k]];
    if k > 1 {
      SegmentsUseV2(d, id, members, street, k - 1, m);
    } else {
      assert WithSegmentsV2(d, id, members, street, 0) == Success(d);
    }
  }

  lemma WayUsesV2(d: DraftV2, id: int, way: Way, nodes: map<int, Place>, m: int)
    requires WithWayV2(d, id, way, nodes).Success?
    ensures m in WithWayV2(d, id, way, nodes).value.used <==> m in d.used || (IsStreet(way.tags) && m in way.members)
  {
    hide Screen, WithSegmentsV2, IsStreet, RelevantTags;
    StreetRead(way, nodes, d.references);
    var street := Screen(way, nodes, d.references).value;
    if street.Street? {
      var last: nat := |way.members| - 1;
      assert way.members[..last + 1] == way.members;
      SegmentsUseV2(Recorded(d, id, way).(eligible := d.eligible + 1), id, way.members, street, last, m);
    }
  }

  lemma {:induction false} DraftUsesV2(ids: seq<int>, x: Extract, m: int)
    requires (forall id <- ids :: id in x.ways) && DraftOfV2(ids, x).Success?
    ensures m in DraftOfV2(ids, x).value.used <==>
            exists id :: id in ids && IsStreet(x.ways[id].tags) && m in x.ways[id].members
  {
    hide WithWayV2, IsStreet;
    if ids != [] {
      var front, last := ids[..|ids| - 1], ids[|ids| - 1];
      assert ids == front + [last];
      DraftUsesV2(front, x, m);
      WayUsesV2(DraftOfV2(front, x).value, last, x.ways[last], x.nodes, m);
    }
  }

  // --- Told by the elements ---

  /** The place a node element gives. */
  ghost predicate NodeAt(elements: seq<Element>, id: int, place: Place) {
    exists e :: e in elements && e.NodeElement? && e.id == id
                && e.latitude == place.latitude && e.longitude == place.longitude
  }

  ghost predicate WayListing(elements: seq<Element>, id: int, way: Way) {
    exists e :: e in elements && e.WayElement? && e.id == id && e.members == way.members && e.tags == way.tags
  }

  lemma ElementsRead(elements: seq<Element>, schema: Schema)
    requires CollectAll(elements, schema).Success?
    ensures var x := CollectAll(elements, schema).value;
            && (forall id, p :: id in x.nodes && x.nodes[id] == p <==> NodeAt(elements, id, p))
            && (forall id, w :: id in x.ways && x.ways[id] == w <==> WayListing(elements, id, w))
  {
    hide CollectAll;
    CollectsAcceptable(elements, schema);
    var x, es := CollectAll(elements, schema).value, multiset(elements);
    forall id, p ensures id in x.nodes && x.nodes[id] == p <==> NodeAt(elements, id, p) {
      KeyedRead(x.nodes, NodeElements(es), PlaceOf, id, p);
      if e :| e in elements && e.NodeElement? && e.id == id && e.latitude == p.latitude && e.longitude == p.longitude {
        assert e in NodeElements(es) && PlaceOf(e) == p;
      }
    }
    forall id, w ensures id in x.ways && x.ways[id] == w <==> WayListing(elements, id, w) {
      KeyedRead(x.ways, WayElements(es), WayOf, id, w);
      if e :| e in elements && e.WayElement? && e.id == id && e.members == w.members && e.tags == w.tags {
        assert e in WayElements(es) && WayOf(e) == w;
      }
    }
  }

  lemma KeyedRead<V>(m: map<int, V>, s: set<Element>, value: Element -> V, id: int, v: V)
    requires Keyed(m, s, value)
    ensures id in m && m[id] == v <==> exists e :: e in s && Id(e) == id && value(e) == v
  {
    if id in m {
      assert HasId(s, id);
    }
  }

  /** Some way element of the extract lets a car pass along the edge. */
  ghost predicate Passes(elements: seq<Element>, e: Edge) {
    exists id, way, i: nat :: WayListing(elements, id, way) && Permits(way, i, e)
  }

  /** Some street of the extract has a node of this name. */
  ghost predicate OnStreet(elements: seq<Element>, v: NodeId) {
    exists m, id, way :: v == Node(m) && WayListing(elements, id, way) && IsStreet(way.tags) && m in way.members
  }

  ghost predicate DrawnFrom(elements: seq<Element>, r: Road) {
    exists id, way, i: nat :: WayListing(elements, id, way) && Draws(r, id, way, i)
  }

  ghost predicate DrawnFromV2(elements: seq<Element>, r: RoadV2) {
    exists id, way, i: nat :: WayListing(elements, id, way) && DrawsV2(r, id, way, i)
  }

  lemma WaysListed(x: Extract)
    ensures forall id :: id in WayOrder(x) <==> id in x.ways
  {
    var ids := WayOrder(x);
    forall id ensures id in ids <==> id in x.ways {
      assert id in Elements(ids) <==> id in x.ways.Keys;
    }
  }

  lemma NamesUsed(used: set<int>, v: NodeId)
    ensures v in NodeNames(used) <==> exists m :: m in used && v == Node(m)
  {
    hide IntText;
    if m :| m in used && v == Node(m) {
      assert NodeName(m) == Node(m);
    }
    if m :| m in used && v == NodeName(m) {
      assert NodeName(m) == Node(m);
    }
  }

  lemma DraftTravel(elements: seq<Element>, e: Edge)
    requires CollectAll(elements, V1).Success?
    ensures var x := CollectAll(elements, V1).value;
            var draft := DraftOf(WayOrder(x), x);
            draft.Success? ==> (e in Edges(draft.value.roads, Travel) <==> Passes(elements, e))
  {
    hide CollectAll, DraftOf, WayOrder, Edges, WayListing, Permits, NodeAt;
    var x := CollectAll(elements, V1).value;
    var ids := WayOrder(x);
    ElementsRead(elements, V1);
    WaysListed(x);
    if DraftOf(ids, x).Success? {
      TravelExact(ids, x, e);
      if id, i: nat :| id in ids && Permits(x.ways[id], i, e) {
        assert WayListing(elements, id, x.ways[id]);
      }
    }
  }

  lemma DraftUsesListed(elements: seq<Element>, v: NodeId)
    requires CollectAll(elements, V1).Success?
    ensures var x := CollectAll(elements, V1).value;
            var draft := DraftOf(WayOrder(x), x);
            draft.Success? ==> (v in NodeNames(draft.value.used) <==> OnStreet(elements, v))
  {
    hide CollectAll, DraftOf, WayOrder, WayListing, NodeAt, IsStreet, IntText;
    var x := CollectAll(elements, V1).value;
    var ids := WayOrder(x);
    ElementsRead(elements, V1);
    WaysListed(x);
    if DraftOf(ids, x).Success? {
      var used := DraftOf(ids, x).value.used;
      forall m ensures m in used <==>
        exists id, way :: WayListing(elements, id, way) && IsStreet(way.tags) && m in way.members {
        DraftUses(ids, x, m);
        if id :| id in ids && IsStreet(x.ways[id].tags) && m in x.ways[id].members {
          assert WayListing(elements, id, x.ways[id]);
        }
      }
      NamesUsed(used, v);
    }
  }

  lemma DraftRoadsListed(elements: seq<Element>, r: Road)
    requires CollectAll(elements, V1).Success?
    ensures var x := CollectAll(elements, V1).value;
            var draft := DraftOf(WayOrder(x), x);
            draft.Success? ==> (r in draft.value.roads <==> DrawnFrom(elements, r))
  {
    hide CollectAll, DraftOf, WayOrder, WayListing, Draws, NodeAt;
    var x := CollectAll(elements, V1).value;
    var ids := WayOrder(x);
    ElementsRead(elements, V1);
    WaysListed(x);
    if DraftOf(ids, x).Success? {
      DraftedRoadsExact(ids, x, r);
      if id, i: nat :| id in ids && Draws(r, id, x.ways[id], i) {
        assert WayListing(elements, id, x.ways[id]);
      }
    }
  }

  lemma DraftTravelV2(elements: seq<Element>, e: Edge)
    requires CollectAll(elements, V2).Success?
    ensures var x := CollectAll(elements, V2).value;
            var draft := DraftOfV2(WayOrder(x), x);
            draft.Success? ==> (e in Edges(draft.value.roads, TravelV2) <==> Passes(elements, e))
  {
    hide CollectAll, DraftOfV2, WayOrder, Edges, WayListing, Permits, NodeAt;
    var x := CollectAll(elements, V2).value;
    var ids := WayOrder(x);
    ElementsRead(elements, V2);
    WaysListed(x);
    if DraftOfV2(ids, x).Success? {
      TravelExactV2(ids, x, e);
      if id, i: nat :| id in ids && Permits(x.ways[id], i, e) {
        assert WayListing(elements, id, x.ways[id]);
      }
    }
  }

  lemma DraftUsesListedV2(elements: seq<Element>, v: NodeId)
    requires CollectAll(elements, V2).Success?
    ensures var x := CollectAll(elements, V2).value;
            var draft := DraftOfV2(WayOrder(x), x);
            draft.Success? ==> (v in NodeNames(draft.value.used) <==> OnStreet(elements, v))
  {
    hide CollectAll, DraftOfV2, WayOrder, WayListing, NodeAt, IsStreet, IntText;
    var x := CollectAll(elements, V2).value;
    var ids := WayOrder(x);
    ElementsRead(elements, V2);
    WaysListed(x);
    if DraftOfV2(ids, x).Success? {
      var used := DraftOfV2(ids, x).value.used;
      forall m ensures m in used <==>
        exists id, way :: WayListing(elements, id, way) && IsStreet(way.tags) && m in way.members {
        DraftUsesV2(ids, x, m);
        if id :| id in ids && IsStreet(x.ways[id].tags) && m in x.ways[id].members {
          assert WayListing(elements, id, x.ways[id]);
        }
      }
      NamesUsed(used, v);
    }
  }

  lemma DraftRoadsListedV2(elements: seq<Element>, r: RoadV2)
    requires CollectAll(elements, V2).Success?
    ensures var x := CollectAll(elements, V2).value;
            var draft := DraftOfV2(WayOrder(x), x);
            draft.Success? ==> (r in draft.value.roads <==> DrawnFromV2(elements, r))
  {
    hide CollectAll, DraftOfV2, WayOrder, WayListing, DrawsV2, NodeAt;
    var x := CollectAll(elements, V2).value;
    var ids := WayOrder(x);
    ElementsRead(elements, V2);
    WaysListed(x);
    if DraftOfV2(ids, x).Success? {
      DraftedRoadsExactV2(ids, x, r);
      if id, i: nat :| id in ids && DrawsV2(r, id, x.ways[id], i) {
        assert WayListing(elements, id, x.ways[id]);
      }
    }
  }

  /** The streets of the extract as a graph: their nodes, and the directions cars may take between them. */
  ghost predicate IsStreetGraph(g: Digraph, elements: seq<Element>) {
    && (forall v :: v in g <==> OnStreet(elements, v))
    && (forall u, v :: u in g ==> (v in g[u] <==> v in g && Passes(elements, (u, v))))
  }

  /** The pack lists nodes of the extract by name, each at its place. It keeps all nodes of a strongly connected
      street graph and otherwise its selected component, and between kept nodes exactly the travel the extract
      permits. */
  ghost predicate PackTells<R(!new)>(city: City<R>, shape: RoadShape<R>, elements: seq<Element>, largest: bool) {
    var kept := NodeIdsOf(city.nodes);
    && TextsAscend(NamesOf(city.nodes)) && TextsDoNotDescend(RoadNames(city.roads, shape.name))
    && (forall n <- city.nodes :: exists id :: n.nodeId == Node(id) && NodeAt(elements, id, n.place))
    && (exists g :: IsStreetGraph(g, elements)
                    && (if StronglyConnected(g) then kept == g.Keys else largest && IsSelected(g, kept)))
    && (forall e :: e in Edges(city.roads, shape.travel) <==> e.0 in kept && e.1 in kept && Passes(elements, e))
  }

  lemma KeptPlaced<R(!new)>(city: City<R>, roads: seq<R>, shape: RoadShape<R>, used: set<int>, nodes: map<int, Place>,
                            elements: seq<Element>)
    requires KeepsExactly(city, roads, shape, used, nodes)
    requires forall id, p :: id in nodes && nodes[id] == p <==> NodeAt(elements, id, p)
    ensures forall n <- city.nodes :: exists id :: n.nodeId == Node(id) && NodeAt(elements, id, n.place)
  {
    hide IntText, NodeAt, Edges, NodeIdsOf, TextsAscend;
    forall n | n in city.nodes ensures exists id :: n.nodeId == Node(id) && NodeAt(elements, id, n.place) {
      var id :| id in used && id in nodes && n.nodeId == NodeName(id) && n.place == nodes[id];
      assert n.nodeId == Node(id) && NodeAt(elements, id, nodes[id]);
    }
  }

  lemma KeptTold<R(!new)>(imported: Imported<City<R>>, roads: seq<R>, shape: RoadShape<R>, used: set<int>,
                          nodes: map<int, Place>, largest: bool, elements: seq<Element>)
    requires KeepsExactly(imported.pack, roads, shape, used, nodes)
    requires KeepsSoundly(imported, roads, shape, used, largest)
    requires IsStreetGraph(DraftGraph(roads, shape, used), elements)
    requires forall e :: e in Edges(roads, shape.travel) <==> Passes(elements, e)
    requires forall id, p :: id in nodes && nodes[id] == p <==> NodeAt(elements, id, p)
    ensures PackTells(imported.pack, shape, elements, largest)
  {
    hide StronglyConnected, IsSelected, Touched, Passes, Edges, TextsAscend, TextsDoNotDescend, NodeAt, NodeNames;
    hide IsStreetGraph, NodeIdsOf, GraphOf;
    var g := DraftGraph(roads, shape, used);
    assert g.Keys == NodeNames(used) by { GraphKeys(Edges(roads, shape.travel), NodeNames(used)); }
    KeptPlaced(imported.pack, roads, shape, used, nodes, elements);
  }

  lemma GraphKeys(edges: set<Edge>, nodes: set<NodeId>)
    ensures GraphOf(edges, nodes).Keys == nodes
  {}

  /** The street graph of what schema 1 drafts is the one the elements describe. */
  lemma DraftGraphRead(elements: seq<Element>)
    requires CollectAll(elements, V1).Success?
    ensures var x := CollectAll(elements, V1).value;
            var draft := DraftOf(WayOrder(x), x);
            draft.Success? ==>
              IsStreetGraph(DraftGraph(draft.value.roads, SHAPE, draft.value.used), elements)
  {
    hide CollectAll, DraftOf, WayOrder, OnStreet, Passes, Edges, NodeNames;
    var x := CollectAll(elements, V1).value;
    if DraftOf(WayOrder(x), x).Success? {
      forall v ensures v in NodeNames(DraftOf(WayOrder(x), x).value.used) <==> OnStreet(elements, v) {
        DraftUsesListed(elements, v);
      }
      forall e ensures e in Edges(DraftOf(WayOrder(x), x).value.roads, Travel) <==> Passes(elements, e) {
        DraftTravel(elements, e);
      }
    }
  }

  lemma RoadsTold(city: City<Road>, used: set<int>, nodes: map<int, Place>, elements: seq<Element>)
    requires CollectAll(elements, V1).Success?
    requires var x := CollectAll(elements, V1).value;
             DraftOf(WayOrder(x), x).Success? &&
             KeepsExactly(city, DraftOf(WayOrder(x), x).value.roads, SHAPE, used, nodes)
    ensures forall r :: r in city.roads <==>
              DrawnFrom(elements, r) && r.source in NodeIdsOf(city.nodes) && r.target in NodeIdsOf(city.nodes)
  {
    hide CollectAll, DraftOf, WayOrder, DrawnFrom, NodeIdsOf, Edges, TextsAscend, TextsDoNotDescend;
    var x := CollectAll(elements, V1).value;
    forall r ensures r in DraftOf(WayOrder(x), x).value.roads <==> DrawnFrom(elements, r) {
      DraftRoadsListed(elements, r);
    }
  }

  /** Schema 1: a converted pack holds what the elements of the extract call for. */
  lemma PackFromElements(elements: seq<Element>, request: Request, fits: City<Road> -> bool)
    requires Conversion(elements, request, fits).Success?
    ensures var city := Conversion(elements, request, fits).value.pack;
            && PackTells(city, SHAPE, elements, request.largest)
            && forall r :: r in city.roads <==>
                 DrawnFrom(elements, r) && r.source in NodeIdsOf(city.nodes) && r.target in NodeIdsOf(city.nodes)
  {
    hide CollectAll, DraftOf, WayOrder, KeptCity, Drafted, PackAccepted, DraftGraph, KeepsExactly, IsStreetGraph;
    hide KeepsSoundly, PackTells, Passes, DrawnFrom, NodeIdsOf, Edges;
    var x := CollectAll(elements, V1).value;
    var draft := DraftOf(WayOrder(x), x).value;
    DraftedRoads(x);
    var imported := KeptCity(draft.roads, SHAPE, draft.used, x.nodes, request.largest).value;
    KeptCitySound(draft.roads, SHAPE, draft.used, x.nodes, request.largest);
    KeptCityExactly(draft.roads, SHAPE, draft.used, x.nodes, request.largest);
    DraftGraphRead(elements);
    ElementsRead(elements, V1);
    forall e ensures e in Edges(draft.roads, Travel) <==> Passes(elements, e) {
      DraftTravel(elements, e);
    }
    KeptTold(imported, draft.roads, SHAPE, draft.used, x.nodes, request.largest, elements);
    RoadsTold(imported.pack, draft.used, x.nodes, elements);
  }

  /** The street graph of what schema 2 drafts is the one the elements describe. */
  lemma DraftGraphReadV2(elements: seq<Element>)
    requires CollectAll(elements, V2).Success?
    ensures var x := CollectAll(elements, V2).value;
            var draft := DraftOfV2(WayOrder(x), x);
            draft.Success? ==>
              IsStreetGraph(DraftGraph(draft.value.roads, SHAPE_V2, draft.value.used), elements)
  {
    hide CollectAll, DraftOfV2, WayOrder, OnStreet, Passes, Edges, NodeNames;
    var x := CollectAll(elements, V2).value;
    if DraftOfV2(WayOrder(x), x).Success? {
      forall v ensures v in NodeNames(DraftOfV2(WayOrder(x), x).value.used) <==> OnStreet(elements, v) {
        DraftUsesListedV2(elements, v);
      }
      forall e ensures e in Edges(DraftOfV2(WayOrder(x), x).value.roads, TravelV2) <==> Passes(elements, e) {
        DraftTravelV2(elements, e);
      }
    }
  }

  lemma RoadsToldV2(city: City<RoadV2>, used: set<int>, nodes: map<int, Place>, elements: seq<Element>)
    requires CollectAll(elements, V2).Success?
    requires var x := CollectAll(elements, V2).value;
             DraftOfV2(WayOrder(x), x).Success? &&
             KeepsExactly(city, DraftOfV2(WayOrder(x), x).value.roads, SHAPE_V2, used, nodes)
    ensures forall r :: r in city.roads <==>
              DrawnFromV2(elements, r) && r.source in NodeIdsOf(city.nodes) && r.target in NodeIdsOf(city.nodes)
  {
    hide CollectAll, DraftOfV2, WayOrder, DrawnFromV2, NodeIdsOf, Edges, TextsAscend, TextsDoNotDescend;
    var x := CollectAll(elements, V2).value;
    forall r ensures r in DraftOfV2(WayOrder(x), x).value.roads <==> DrawnFromV2(elements, r) {
      DraftRoadsListedV2(elements, r);
    }
  }

  /** Schema 2: a converted pack holds what the elements of the extract call for. */
  lemma PackFromElementsV2(elements: seq<Element>, request: Request, fits: PackV2 -> bool)
    requires ConversionV2(elements, request, fits).Success?
    ensures var city := ConversionV2(elements, request, fits).value.pack.city;
            && PackTells(city, SHAPE_V2, elements, request.largest)
            && forall r :: r in city.roads <==>
                 DrawnFromV2(elements, r) && r.source in NodeIdsOf(city.nodes) && r.target in NodeIdsOf(city.nodes)
  {
    hide CollectAll, DraftOfV2, WayOrder, KeptCity, Drafted, PackAccepted, DraftGraph, KeepsExactly, IsStreetGraph;
    hide KeepsSoundly, PackTells, Passes, DrawnFromV2, NodeIdsOf, Edges, BoundsAccepted, BoundsOf, ProvenanceOf;
    var x := CollectAll(elements, V2).value;
    var draft := DraftOfV2(WayOrder(x), x).value;
    DraftedRoadsV2(x);
    var imported := KeptCity(draft.roads, SHAPE_V2, draft.used, x.nodes, request.largest).value;
    KeptCitySound(draft.roads, SHAPE_V2, draft.used, x.nodes, request.largest);
    KeptCityExactly(draft.roads, SHAPE_V2, draft.used, x.nodes, request.largest);
    DraftGraphReadV2(elements);
    ElementsRead(elements, V2);
    forall e ensures e in Edges(draft.roads, TravelV2) <==> Passes(elements, e) {
      DraftTravelV2(elements, e);
    }
    KeptTold(imported, draft.roads, SHAPE_V2, draft.used, x.nodes, request.largest, elements);
    RoadsToldV2(imported.pack, draft.used, x.nodes, elements);
  }
}
