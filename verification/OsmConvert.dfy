/** The two conversions from extract to city pack, and what they promise. */
module OsmConvert {
  import opened Results
  import opened Orders
  import opened Digraphs
  import opened Roads
  import opened OsmTags
  import opened OsmExtract
  import opened OsmDraft
  import opened OsmImport

  // --- Schema 1 ---

  /** The conversion as a value. `fits` is the size check on the serialised pack. */
  ghost function Conversion(elements: seq<Element>, request: Request, fits: City<Road> -> bool)
    : Result<Imported<City<Road>>, ImportError>
  {
    if |elements| > MAX_ELEMENTS then Failure(TooManyElements)
    else
      var x :- CollectAll(elements, V1);
      ConversionOf(x, request, fits)
  }

  ghost function ConversionOf(x: Extract, request: Request, fits: City<Road> -> bool)
    : Result<Imported<City<Road>>, ImportError>
  {
    var draft :- DraftOf(WayOrder(x), x);
    DraftSound(WayOrder(x), x);
    OwnEnds(draft.roads);
    if draft.roads == [] then Failure(NoRoads)
    else
      var imported :- KeptCity(draft.roads, SHAPE, draft.used, x.nodes, request.largest);
      if !PackAccepted(imported.pack, SHAPE, request) then Failure(PackRefused)
      else if !fits(imported.pack) then Failure(PackTooLarge)
      else Success(imported)
  }

  ghost predicate PackAccepted<R>(city: City<R>, shape: RoadShape<R>, request: Request) {
    request.metadataAccepted && ShapeAccepted(city, shape) && StronglyConnected(StreetGraph(city, shape))
  }

  lemma OwnEnds(roads: seq<Road>)
    ensures TravelsOwnEnds(roads, Ends, Travel)
  {
    forall r | r in roads
      ensures Travel(r) != {} && forall e <- Travel(r) :: e == Ends(r) || e == (Ends(r).1, Ends(r).0) {
      assert Ends(r) in Travel(r);
    }
  }

  // --- Schema 2 ---

  datatype Bounds = Bounds(west: real, south: real, east: real, north: real)

  /** The document whose digest becomes the fingerprint a city carries. */
  datatype Provenance = Provenance(nodes: seq<(int, Place)>, ways: seq<SourceWay>)

  datatype Quality = Quality(inputNodes: nat, inputWays: nat, eligibleWays: int, excludedWays: int)

  datatype PackV2 = PackV2(city: City<RoadV2>, bounds: Bounds, source: Provenance, quality: Quality)

  function Longitude(n: CityNode): real { n.place.longitude }

  function Latitude(n: CityNode): real { n.place.latitude }

  function LeastBy(nodes: seq<CityNode>, f: CityNode -> real): real
    requires nodes != []
  {
    if |nodes| == 1 then f(nodes[0])
    else
      var least := LeastBy(nodes[..|nodes| - 1], f);
      if f(nodes[|nodes| - 1]) < least then f(nodes[|nodes| - 1]) else least
  }

  function MostBy(nodes: seq<CityNode>, f: CityNode -> real): real
    requires nodes != []
  {
    if |nodes| == 1 then f(nodes[0])
    else
      var most := MostBy(nodes[..|nodes| - 1], f);
      if f(nodes[|nodes| - 1]) > most then f(nodes[|nodes| - 1]) else most
  }

  function BoundsOf(nodes: seq<CityNode>): Bounds
    requires nodes != []
  {
    Bounds(LeastBy(nodes, Longitude), LeastBy(nodes, Latitude), MostBy(nodes, Longitude), MostBy(nodes, Latitude))
  }

  predicate BoundsAccepted(nodes: seq<CityNode>)
    requires nodes != []
  {
    var b := BoundsOf(nodes);
    (forall n <- nodes :: -85.0 <= n.place.latitude <= 85.0) && b.west < b.east && b.south < b.north
  }

  ghost function ProvenanceOf(draft: DraftV2, nodes: map<int, Place>): Provenance
    requires draft.sourceNodes <= nodes.Keys
  {
    IntOrder();
    var ids := Sorted(draft.sourceNodes, IntLeq);
    Provenance(seq(|ids|, i requires 0 <= i < |ids| => assert ids[i] in Elements(ids); (ids[i], nodes[ids[i]])),
               draft.sourceWays)
  }

  ghost function ConversionV2(elements: seq<Element>, request: Request, fits: PackV2 -> bool)
    : Result<Imported<PackV2>, ImportError>
  {
    if |elements| > MAX_ELEMENTS then Failure(TooManyElements)
    else
      var x :- CollectAll(elements, V2);
      ConversionOfV2(x, request, fits)
  }

  ghost function ConversionOfV2(x: Extract, request: Request, fits: PackV2 -> bool)
    : Result<Imported<PackV2>, ImportError>
  {
    var draft :- DraftOfV2(WayOrder(x), x);
    DraftSoundV2(WayOrder(x), x);
    SourceNodesKnown(WayOrder(x), x);
    OwnEndsV2(WayOrder(x), x);
    if draft.roads == [] then Failure(NoRoads)
    else
      var imported :- KeptCity(draft.roads, SHAPE_V2, draft.used, x.nodes, request.largest);
      KeptCityNotEmpty(draft.roads, SHAPE_V2, draft.used, x.nodes, request.largest);
      var city := imported.pack;
      if !PackAccepted(city, SHAPE_V2, request) || !BoundsAccepted(city.nodes) then Failure(PackRefused)
      else
        var pack := PackV2(city, BoundsOf(city.nodes), ProvenanceOf(draft, x.nodes),
                           Quality(|x.nodes|, |x.ways|, draft.eligible, |x.ways| - draft.eligible));
        if !fits(pack) then Failure(PackTooLarge)
        else Success(Imported(pack, imported.droppedNodes, imported.droppedRoads))
  }

  /** Drafted schema-2 roads always allow travel one way or the other. */
  lemma OwnEndsV2(ids: seq<int>, x: Extract)
    requires (forall id <- ids :: id in x.ways) && DraftOfV2(ids, x).Success?
    ensures TravelsOwnEnds(DraftOfV2(ids, x).value.roads, EndsV2, TravelV2)
  {
    DraftsAgreeThroughout(ids, x);
    var roads, roadsV2 := DraftOf(ids, x).value.roads, DraftOfV2(ids, x).value.roads;
    forall s | s in roadsV2
      ensures TravelV2(s) != {} && forall e <- TravelV2(s) :: e == EndsV2(s) || e == (EndsV2(s).1, EndsV2(s).0) {
      var i :| 0 <= i < |roadsV2| && roadsV2[i] == s;
      assert SameStreet(roads[i], s);
      assert Ends(roads[i]) in Travel(roads[i]);
    }
  }

  lemma {:induction false} SegmentsKeepSources(d: DraftV2, id: int, members: seq<int>, street: Screening, k: nat)
    requires street.Street? && k < |members| && WithSegmentsV2(d, id, members, street, k).Success?
    ensures var r := WithSegmentsV2(d, id, members, street, k).value;
            r.sourceNodes == d.sourceNodes && r.sourceWays == d.sourceWays && r.eligible == d.eligible
  {
    hide SegmentV2;
    if k > 0 {
      SegmentsKeepSources(d, id, members, street, k - 1);
      var before := WithSegmentsV2(d, id, members, street, k - 1).value;
      var road := SegmentV2(id, members, street, k - 1);
      assert road.roadId !in before.roadIds && road.source != road.target;
    }
  }

  lemma WayKeepsSources(d: DraftV2, id: int, way: Way, nodes: map<int, Place>)
    requires d.sourceNodes <= nodes.Keys && WithWayV2(d, id, way, nodes).Success?
    ensures var r := WithWayV2(d, id, way, nodes).value;
            r.sourceNodes <= nodes.Keys && r.eligible <= d.eligible + 1
  {
    hide WithSegmentsV2, RelevantTags, FlowOf, RoadClass, AllowsCar;
    var screening := Screen(way, nodes, d.references).value;
    assert forall m <- way.members :: m in nodes;
    assert Elements(way.members) <= nodes.Keys;
    if screening.Street? {
      SegmentsKeepSources(Recorded(d, id, way).(eligible := d.eligible + 1), id, way.members, screening,
                          |way.members| - 1);
    }
  }

  lemma {:induction false} SourceNodesKnown(ids: seq<int>, x: Extract)
    requires (forall id <- ids :: id in x.ways) && DraftOfV2(ids, x).Success?
    ensures DraftOfV2(ids, x).value.sourceNodes <= x.nodes.Keys
    ensures DraftOfV2(ids, x).value.eligible <= |ids|
  {
    if ids != [] {
      hide WithWayV2;
      var front, id := ids[..|ids| - 1], ids[|ids| - 1];
      SourceNodesKnown(front, x);
      WayKeepsSources(DraftOfV2(front, x).value, id, x.ways[id], x.nodes);
    }
  }

  // --- What a kept city guarantees ---

  lemma CityNodesFacts(ids: set<int>, nodes: map<int, Place>)
    requires forall name <- NodeNames(ids) :: ReadNodeName(name) in nodes
    ensures NodeIdsOf(CityNodes(ids, nodes)) == NodeNames(ids)
    ensures |CityNodes(ids, nodes)| == |NodeNames(ids)|
  {
    hide NodeName, ReadNodeName, NodeNames;
    TextOrder();
    var names, listed := Sorted(NodeNames(ids), TextLeq), CityNodes(ids, nodes);
    forall name | name in NodeNames(ids) ensures name in NodeIdsOf(listed) {
      assert name in Elements(names);
      var i :| 0 <= i < |names| && names[i] == name;
      assert listed[i].nodeId == name;
    }
    forall n | n in listed ensures n.nodeId in NodeNames(ids) {
      var i :| 0 <= i < |listed| && listed[i] == n;
      assert names[i] in Elements(names);
    }
  }

  /** The kept city is strongly connected on its own and has a road at every node. It holds every used
      node when the whole graph is strongly connected, and otherwise exactly the selected component. With
      what was dropped it makes up the draft. */
  ghost predicate KeepsSoundly<R>(imported: Imported<City<R>>, roads: seq<R>, shape: RoadShape<R>, used: set<int>,
                                  largest: bool)
  {
    var g, city := DraftGraph(roads, shape, used), imported.pack;
    && StronglyConnected(StreetGraph(city, shape))
    && (forall v <- NodeIdsOf(city.nodes) :: Touched(city.roads, shape.ends, v))
    && |NodeIdsOf(city.nodes)| == |city.nodes| >= 1 && |city.roads| >= 1
    && (StronglyConnected(g) ==> NodeIdsOf(city.nodes) == NodeNames(used))
    && (!StronglyConnected(g) ==> largest && IsSelected(g, NodeIdsOf(city.nodes)) && |city.nodes| >= 2)
    && |city.nodes| + imported.droppedNodes == |used| && imported.droppedNodes >= 0
    && |city.roads| + imported.droppedRoads == |roads| && imported.droppedRoads >= 0
  }

  lemma KeptCitySound<R(!new)>(roads: seq<R>, shape: RoadShape<R>, used: set<int>, nodes: map<int, Place>,
                               largest: bool)
    requires Drafted(roads, shape, used, nodes)
    requires KeptCity(roads, shape, used, nodes, largest).Success?
    ensures KeepsSoundly(KeptCity(roads, shape, used, nodes, largest).value, roads, shape, used, largest)
  {
    hide StronglyConnected, NodeNames, ReadIds, Touched, ReadNodeName, EndpointsIn, IsSelected, Retained, SortBy, Edges;
    hide GraphOf, CityNodes, Drafted, NodeIdsOf;
    KeptSound(roads, shape, used, nodes, largest);
    var kept := KeptNodes(DraftGraph(roads, shape, used), largest).value;
    var retained := Retained(roads, shape.ends, kept);
    CityNodesFacts(ReadIds(kept), nodes);
    SortedRoads(retained, shape);
    forall v | v in kept ensures Touched(SortBy(retained, ByName(shape)), shape.ends, v) {
      TouchIgnoresOrder(retained, SortBy(retained, ByName(shape)), shape.ends, v);
    }
    SubsetNotLarger(ReadIds(kept), used);
  }

  lemma KeptCityNotEmpty<R(!new)>(roads: seq<R>, shape: RoadShape<R>, used: set<int>, nodes: map<int, Place>,
                                  largest: bool)
    requires Drafted(roads, shape, used, nodes)
    ensures var r := KeptCity(roads, shape, used, nodes, largest); r.Success? ==> r.value.pack.nodes != []
  {
    hide KeptCity, Drafted, StronglyConnected;
    if KeptCity(roads, shape, used, nodes, largest).Success? {
      KeptCitySound(roads, shape, used, nodes, largest);
    }
  }

  /** Sorting a road list by name changes neither its roads nor its travel. */
  lemma SortedRoads<R(!new)>(roads: seq<R>, shape: RoadShape<R>)
    ensures Edges(SortBy(roads, ByName(shape)), shape.travel) == Edges(roads, shape.travel)
    ensures |SortBy(roads, ByName(shape))| == |roads|
    ensures forall r :: r in SortBy(roads, ByName(shape)) <==> r in roads
  {
    ByNameOrders(shape);
    SortBySorts(roads, ByName(shape));
    EdgesIgnoreOrder(roads, SortBy(roads, ByName(shape)), shape.travel);
  }

  lemma TouchIgnoresOrder<R>(roads: seq<R>, sorted: seq<R>, ends: R -> Edge, v: NodeId)
    requires Touched(roads, ends, v) && forall r :: r in roads <==> r in sorted
    ensures Touched(sorted, ends, v)
  {}

  // --- The main results ---

  lemma DraftedRoads(x: Extract)
    requires DraftOf(WayOrder(x), x).Success? && DraftOf(WayOrder(x), x).value.roads != []
    ensures var d := DraftOf(WayOrder(x), x).value; Drafted(d.roads, SHAPE, d.used, x.nodes)
  {
    hide RoadsSound, TravelsOwnEnds;
    DraftSound(WayOrder(x), x);
    OwnEnds(DraftOf(WayOrder(x), x).value.roads);
  }

  lemma DraftedRoadsV2(x: Extract)
    requires DraftOfV2(WayOrder(x), x).Success? && DraftOfV2(WayOrder(x), x).value.roads != []
    ensures var d := DraftOfV2(WayOrder(x), x).value; Drafted(d.roads, SHAPE_V2, d.used, x.nodes)
  {
    hide RoadsSound, TravelsOwnEnds;
    DraftSoundV2(WayOrder(x), x);
    OwnEndsV2(WayOrder(x), x);
  }

  /** Schema 1: whenever conversion succeeds it keeps one sound city. */
  lemma ConversionSound(elements: seq<Element>, request: Request, fits: City<Road> -> bool)
    requires Conversion(elements, request, fits).Success?
    ensures var x := CollectAll(elements, V1).value;
            var draft := DraftOf(WayOrder(x), x).value;
            KeepsSoundly(Conversion(elements, request, fits).value, draft.roads, SHAPE, draft.used, request.largest)
  {
    hide CollectAll, DraftOf, WayOrder, KeptCity, KeepsSoundly, Drafted, PackAccepted;
    var x := CollectAll(elements, V1).value;
    var draft := DraftOf(WayOrder(x), x).value;
    DraftedRoads(x);
    KeptCitySound(draft.roads, SHAPE, draft.used, x.nodes, request.largest);
  }

  /** Schema 2: the same, the bounds enclose the kept nodes exactly, and no more ways are eligible than
      were read. */
  lemma ConversionSoundV2(elements: seq<Element>, request: Request, fits: PackV2 -> bool)
    requires ConversionV2(elements, request, fits).Success?
    ensures var x := CollectAll(elements, V2).value;
            var draft := DraftOfV2(WayOrder(x), x).value;
            var Imported(pack, droppedNodes, droppedRoads) := ConversionV2(elements, request, fits).value;
            && KeepsSoundly(Imported(pack.city, droppedNodes, droppedRoads), draft.roads, SHAPE_V2, draft.used,
                            request.largest)
            && Encloses(pack.bounds, pack.city.nodes)
            && pack.quality.excludedWays >= 0
  {
    hide CollectAll, DraftOfV2, KeptCity, Drafted, PackAccepted, BoundsAccepted, Encloses, BoundsOf, ProvenanceOf,
      StronglyConnected, Touched;
    var x := CollectAll(elements, V2).value;
    var draft := DraftOfV2(WayOrder(x), x).value;
    DraftedRoadsV2(x);
    KeptCitySound(draft.roads, SHAPE_V2, draft.used, x.nodes, request.largest);
    SourceNodesKnown(WayOrder(x), x);
    var nodes := KeptCity(draft.roads, SHAPE_V2, draft.used, x.nodes, request.largest).value.pack.nodes;
    assert nodes != [];
    BoundsEnclose(nodes);
    DistinctMultiset(WayOrder(x));
  }

  /** Every node lies within the bounds and each side of the bounds is some node's coordinate. */
  ghost predicate Encloses(b: Bounds, nodes: seq<CityNode>) {
    && (forall n <- nodes :: b.west <= n.place.longitude <= b.east && b.south <= n.place.latitude <= b.north)
    && (exists n :: n in nodes && n.place.longitude == b.west)
    && (exists n :: n in nodes && n.place.longitude == b.east)
    && (exists n :: n in nodes && n.place.latitude == b.south)
    && (exists n :: n in nodes && n.place.latitude == b.north)
  }

  lemma {:induction false} LeastByIsLeast(nodes: seq<CityNode>, f: CityNode -> real)
    requires nodes != []
    ensures forall n <- nodes :: LeastBy(nodes, f) <= f(n)
    ensures exists n :: n in nodes && f(n) == LeastBy(nodes, f)
  {
    var front, last := nodes[..|nodes| - 1], nodes[|nodes| - 1];
    assert nodes == front + [last];
    if |nodes| > 1 {
      LeastByIsLeast(front, f);
      var n :| n in front && f(n) == LeastBy(front, f);
      assert n in nodes && last in nodes;
    } else {
      assert last in nodes;
    }
  }

  lemma {:induction false} MostByIsMost(nodes: seq<CityNode>, f: CityNode -> real)
    requires nodes != []
    ensures forall n <- nodes :: f(n) <= MostBy(nodes, f)
    ensures exists n :: n in nodes && f(n) == MostBy(nodes, f)
  {
    var front, last := nodes[..|nodes| - 1], nodes[|nodes| - 1];
    assert nodes == front + [last];
    if |nodes| > 1 {
      MostByIsMost(front, f);
      var n :| n in front && f(n) == MostBy(front, f);
      assert n in nodes && last in nodes;
    } else {
      assert last in nodes;
    }
  }

  lemma BoundsEnclose(nodes: seq<CityNode>)
    requires nodes != []
    ensures Encloses(BoundsOf(nodes), nodes)
  {
    LeastByIsLeast(nodes, Longitude);
    LeastByIsLeast(nodes, Latitude);
    MostByIsMost(nodes, Longitude);
    MostByIsMost(nodes, Latitude);
  }

  /** The pack schema's own connectivity check never refuses what a conversion kept. */
  lemma ConnectivityNeverRefused<R(!new)>(roads: seq<R>, shape: RoadShape<R>, used: set<int>, nodes: map<int, Place>,
                                          largest: bool, request: Request)
    requires Drafted(roads, shape, used, nodes) && KeptCity(roads, shape, used, nodes, largest).Success?
    ensures var city := KeptCity(roads, shape, used, nodes, largest).value.pack;
            PackAccepted(city, shape, request) <==> request.metadataAccepted && ShapeAccepted(city, shape)
  {
    KeptCitySound(roads, shape, used, nodes, largest);
  }

  /** Permuting the elements of an extract changes neither whether schema-2 conversion succeeds nor any
      part of its result, the provenance document and the bounds included. */
  lemma ConversionIgnoresOrder(elements: seq<Element>, permuted: seq<Element>, request: Request, fits: PackV2 -> bool)
    requires multiset(elements) == multiset(permuted)
    ensures ConversionV2(elements, request, fits).Success? <==> ConversionV2(permuted, request, fits).Success?
    ensures ConversionV2(elements, request, fits).Success? ==>
              ConversionV2(elements, request, fits) == ConversionV2(permuted, request, fits)
  {
    hide ConversionOfV2, CollectAll;
    CollectionIgnoresOrder(elements, permuted, V2);
  }

  // --- The two schemas agree ---

  lemma {:induction false} SchemasCollectAlike(elements: seq<Element>)
    requires CollectAll(elements, V2).Success?
    ensures CollectAll(elements, V1) == CollectAll(elements, V2)
  {
    if elements != [] {
      hide RefusesNode, IsTurnRestriction;
      SchemasCollectAlike(elements[..|elements| - 1]);
    }
  }

  lemma {:induction false} SameStreetsSameEdges(roads: seq<Road>, roadsV2: seq<RoadV2>)
    requires SameStreets(roads, roadsV2)
    ensures Edges(roads, Travel) == Edges(roadsV2, TravelV2)
  {
    if roads != [] {
      var last := |roads| - 1;
      assert SameStreet(roads[last], roadsV2[last]);
      SameStreetsSameEdges(roads[..last], roadsV2[..last]);
    }
  }

  lemma {:induction false} RetainedAlike(roads: seq<Road>, roadsV2: seq<RoadV2>, kept: set<NodeId>)
    requires SameStreets(roads, roadsV2)
    ensures SameStreets(Retained(roads, Ends, kept), Retained(roadsV2, EndsV2, kept))
  {
    if roads != [] {
      hide SameStreet;
      var last := |roads| - 1;
      assert SameStreet(roads[last], roadsV2[last]);
      RetainedAlike(roads[..last], roadsV2[..last], kept);
      SameStreetSameChoice(roads[last], roadsV2[last], kept);
    }
  }

  lemma SameStreetsSameCount(roads: seq<Road>, roadsV2: seq<RoadV2>)
    requires SameStreets(roads, roadsV2)
    ensures |roads| == |roadsV2|
  {}

  lemma SameStreetSameChoice(r: Road, s: RoadV2, kept: set<NodeId>)
    requires SameStreet(r, s)
    ensures Ends(r).0 in kept && Ends(r).1 in kept <==> EndsV2(s).0 in kept && EndsV2(s).1 in kept
  {}

  lemma SameDraftGraph(d: Draft, e: DraftV2)
    requires DraftsAgree(d, e)
    ensures DraftGraph(d.roads, SHAPE, d.used) == DraftGraph(e.roads, SHAPE_V2, e.used)
  {
    SameStreetsSameEdges(d.roads, e.roads);
  }

  /** Kept and sorted, the same streets travel the same ways. */
  lemma KeptRoadsAgree(roads: seq<Road>, roadsV2: seq<RoadV2>, kept: set<NodeId>)
    requires SameStreets(roads, roadsV2)
    ensures var a, b := Retained(roads, SHAPE.ends, kept), Retained(roadsV2, SHAPE_V2.ends, kept);
            && |roads| == |roadsV2| && |a| == |b| == |SortBy(a, ByName(SHAPE))| == |SortBy(b, ByName(SHAPE_V2))|
            && Edges(SortBy(a, ByName(SHAPE)), Travel) == Edges(SortBy(b, ByName(SHAPE_V2)), TravelV2)
  {
    hide ByName, SameStreets, SameStreet, Retained, SortBy, Edges;
    RetainedAlike(roads, roadsV2, kept);
    var a, b := Retained(roads, SHAPE.ends, kept), Retained(roadsV2, SHAPE_V2.ends, kept);
    SameStreetsSameEdges(a, b);
    SameStreetsSameCount(a, b);
    SameStreetsSameCount(roads, roadsV2);
    SortedRoads(a, SHAPE);
    SortedRoads(b, SHAPE_V2);
  }

  lemma KeptCityAgrees(d: Draft, e: DraftV2, nodes: map<int, Place>, largest: bool,
                       a: Result<Imported<City<Road>>, ImportError>, b: Result<Imported<City<RoadV2>>, ImportError>)
    requires DraftsAgree(d, e) && Drafted(d.roads, SHAPE, d.used, nodes) && Drafted(e.roads, SHAPE_V2, e.used, nodes)
    requires a == KeptCity(d.roads, SHAPE, d.used, nodes, largest)
    requires b == KeptCity(e.roads, SHAPE_V2, e.used, nodes, largest)
    ensures a.Success? <==> b.Success?
    ensures a.Success? ==> CitiesAgree(a.value, b.value.pack, b.value.droppedNodes, b.value.droppedRoads)
  {
    hide Drafted, ByName, SameStreets, NodeNames, StronglyConnected, DraftGraph, KeptNodes, SameStreet, ReadIds;
    hide GraphOf, CityNodes, Retained, SortBy, Edges;
    SameDraftGraph(d, e);
    KeptSound(d.roads, SHAPE, d.used, nodes, largest);
    var r := KeptNodes(DraftGraph(d.roads, SHAPE, d.used), largest);
    if r.Success? {
      KeptRoadsAgree(d.roads, e.roads, r.value);
    }
  }

  /** From the same collected extract, whenever schema 2 drafts roads, schema 1 drafts them too, and the two
      keep the same nodes and as many roads with the same directed travel, and drop the same numbers. */
  lemma KeptCitiesAgree(x: Extract, largest: bool)
    requires DraftOfV2(WayOrder(x), x).Success? && DraftOfV2(WayOrder(x), x).value.roads != []
    ensures DraftOf(WayOrder(x), x).Success?
    ensures var d, e := DraftOf(WayOrder(x), x).value, DraftOfV2(WayOrder(x), x).value;
            && Drafted(d.roads, SHAPE, d.used, x.nodes) && Drafted(e.roads, SHAPE_V2, e.used, x.nodes)
            && var a := KeptCity(d.roads, SHAPE, d.used, x.nodes, largest);
               var b := KeptCity(e.roads, SHAPE_V2, e.used, x.nodes, largest);
               && (a.Success? <==> b.Success?)
               && (a.Success? ==> CitiesAgree(a.value, b.value.pack, b.value.droppedNodes, b.value.droppedRoads))
  {
    hide DraftOf, DraftOfV2, WayOrder, KeptCity, CitiesAgree, Drafted, SameStreet;
    DraftsAgreeThroughout(WayOrder(x), x);
    DraftedRoads(x);
    DraftedRoadsV2(x);
    var d, e := DraftOf(WayOrder(x), x).value, DraftOfV2(WayOrder(x), x).value;
    KeptCityAgrees(d, e, x.nodes, largest, KeptCity(d.roads, SHAPE, d.used, x.nodes, largest),
                   KeptCity(e.roads, SHAPE_V2, e.used, x.nodes, largest));
  }

  ghost predicate CitiesAgree(a: Imported<City<Road>>, city: City<RoadV2>, droppedNodes: int, droppedRoads: int) {
    && a.pack.nodes == city.nodes && |a.pack.roads| == |city.roads|
    && Edges(a.pack.roads, Travel) == Edges(city.roads, TravelV2)
    && a.droppedNodes == droppedNodes && a.droppedRoads == droppedRoads
  }

  /** Whenever both converters accept the same extract, they agree on what they keep and drop. */
  lemma ConvertersAgree(elements: seq<Element>, request: Request, fits: City<Road> -> bool, fitsV2: PackV2 -> bool)
    requires Conversion(elements, request, fits).Success? && ConversionV2(elements, request, fitsV2).Success?
    ensures var b := ConversionV2(elements, request, fitsV2).value;
            CitiesAgree(Conversion(elements, request, fits).value, b.pack.city, b.droppedNodes, b.droppedRoads)
  {
    hide CollectAll, DraftOf, DraftOfV2, WayOrder, KeptCity, CitiesAgree, Drafted, PackAccepted, BoundsAccepted;
    hide BoundsOf, ProvenanceOf;
    SchemasCollectAlike(elements);
    KeptCitiesAgree(CollectAll(elements, V1).value, request.largest);
  }

  // --- The converters ---

  method ListCityNodes(ids: set<int>, nodes: map<int, Place>) returns (listed: seq<CityNode>)
    requires forall name <- NodeNames(ids) :: ReadNodeName(name) in nodes
    ensures listed == CityNodes(ids, nodes)
  {
    hide NodeNames, ReadNodeName, TextLeq, Ascending, Preorder, Distinct, Elements;
    TextOrder();
    var names := SortedSet(NodeNames(ids), TextLeq);
    listed := [];
    for i := 0 to |names|
      invariant |listed| == i
      invariant forall j :: 0 <= j < i ==> ReadNodeName(names[j]) in nodes
      invariant forall j :: 0 <= j < i ==> listed[j] == CityNode(names[j], nodes[ReadNodeName(names[j])])
    {
      listed := listed + [CityNode(names[i], nodes[ReadNodeName(names[i])])];
    }
  }

  /** Both converters' common middle part: choose the nodes, drop the rest, list what is kept. */
  method KeepCity<R(!new)>(roads: seq<R>, shape: RoadShape<R>, used: set<int>, nodes: map<int, Place>, largest: bool,
                           components: seq<set<NodeId>>)
    returns (r: Result<Imported<City<R>>, ImportError>)
    requires Drafted(roads, shape, used, nodes)
    requires AreStrongComponents(DraftGraph(roads, shape, used), components)
    ensures r == KeptCity(roads, shape, used, nodes, largest)
  {
    hide Drafted, AreStrongComponents, DraftGraph, KeptNodes, NodeNames, ReadIds, StronglyConnected, Touched;
    hide EndpointsIn, GraphOf, Edges, CityNodes, SortBy, ReadNodeName;
    KeptSound(roads, shape, used, nodes, largest);
    var chosen := ChooseNodes(components, NodeNames(used), largest, DraftGraph(roads, shape, used));
    if chosen.Failure? {
      return Failure(chosen.error);
    }
    var kept := chosen.value;
    var retained := Retained(roads, shape.ends, kept);
    assert retained != [];
    var listed := ListCityNodes(ReadIds(kept), nodes);
    r := Success(Imported(City(listed, SortBy(retained, ByName(shape))), |used| - |kept|, |roads| - |retained|));
  }

  lemma AdjacencyTransposed(outgoing: Digraph, incoming: Digraph, edges: set<Edge>, nodes: set<NodeId>)
    requires Adjacency(outgoing, incoming, edges, nodes)
    ensures Transposed(outgoing, incoming) && Closed(outgoing) && Closed(incoming) && outgoing == GraphOf(edges, nodes)
    ensures outgoing.Keys == incoming.Keys == nodes
  {
    ReversedGraphIsTransposed(edges, nodes);
  }

  /** The pack schema's check, from the first node forwards and backwards. */
  method IsConnectedCity(start: NodeId, outgoing: Digraph, incoming: Digraph, ghost edges: set<Edge>,
                         ghost nodes: set<NodeId>)
    returns (connected: bool)
    requires Adjacency(outgoing, incoming, edges, nodes) && start in nodes
    ensures connected <==> StronglyConnected(GraphOf(edges, nodes))
  {
    AdjacencyTransposed(outgoing, incoming, edges, nodes);
    hide Adjacency, Transposed, Closed, GraphOf, StronglyConnected, Reaches;
    ReachesBothWays(outgoing, incoming, start);
    connected := ReachesAll(start, outgoing);
    if connected {
      connected := ReachesAll(start, incoming);
    }
  }

  method CheckCity(city: City<Road>, request: Request) returns (accepted: bool)
    ensures accepted <==> PackAccepted(city, SHAPE, request)
  {
    hide ShapeAccepted, StronglyConnected, GraphOf, Adjacency;
    if !request.metadataAccepted || !ShapeAccepted(city, SHAPE) {
      return false;
    }
    ShapeAcceptedFacts(city, SHAPE);
    var outgoing, incoming := BuildAdjacency(city.roads, NodeIdsOf(city.nodes));
    accepted := IsConnectedCity(city.nodes[0].nodeId, outgoing, incoming, Edges(city.roads, Travel),
                                NodeIdsOf(city.nodes));
  }

  method CheckCityV2(city: City<RoadV2>, request: Request) returns (accepted: bool)
    requires city.nodes != []
    ensures accepted <==> PackAccepted(city, SHAPE_V2, request) && BoundsAccepted(city.nodes)
  {
    hide ShapeAccepted, StronglyConnected, GraphOf, Adjacency, BoundsAccepted;
    if !request.metadataAccepted || !ShapeAccepted(city, SHAPE_V2) || !BoundsAccepted(city.nodes) {
      return false;
    }
    ShapeAcceptedFacts(city, SHAPE_V2);
    var outgoing, incoming := BuildAdjacencyV2(city.roads, NodeIdsOf(city.nodes));
    accepted := IsConnectedCity(city.nodes[0].nodeId, outgoing, incoming, Edges(city.roads, TravelV2),
                                NodeIdsOf(city.nodes));
  }

  method ConvertExtract(x: Extract, request: Request, fits: City<Road> -> bool)
    returns (r: Result<Imported<City<Road>>, ImportError>)
    ensures r == ConversionOf(x, request, fits)
  {
    hide DraftOf, KeptCity, ShapeAccepted, StronglyConnected, Drafted, AreStrongComponents, NodeNames,
      GraphOf, WayOrder, PackAccepted;
    var drafted := DraftRoads(x);
    if drafted.Failure? {
      return Failure(drafted.error);
    }
    var draft := drafted.value;
    if draft.roads == [] {
      return Failure(NoRoads);
    }
    DraftedRoads(x);
    DraftedFacts(draft.roads, SHAPE, draft.used, x.nodes);
    var components := StrongComponents(draft.roads, NodeNames(draft.used));
    var kept := KeepCity(draft.roads, SHAPE, draft.used, x.nodes, request.largest, components);
    if kept.Failure? {
      return Failure(kept.error);
    }
    var city := kept.value.pack;
    var accepted := CheckCity(city, request);
    if !accepted {
      return Failure(PackRefused);
    }
    if !fits(city) {
      return Failure(PackTooLarge);
    }
    r := kept;
  }

  /** Converts an extract to a schema-1 city. */
  method Convert(elements: seq<Element>, request: Request, fits: City<Road> -> bool)
    returns (r: Result<Imported<City<Road>>, ImportError>)
    ensures r == Conversion(elements, request, fits)
  {
    hide CollectAll, ConversionOf;
    var extract := ReadElements(elements, V1);
    if extract.Failure? {
      return Failure(extract.error);
    }
    r := ConvertExtract(extract.value, request, fits);
  }

  lemma DraftedFacts<R>(roads: seq<R>, shape: RoadShape<R>, used: set<int>, nodes: map<int, Place>)
    requires Drafted(roads, shape, used, nodes)
    ensures EndpointsIn(roads, shape.ends, NodeNames(used))
  {}

  lemma {:induction false} PlacesAreNodes(nodes: seq<CityNode>)
    ensures Places(nodes).Keys == NodeIdsOf(nodes)
  {
    if nodes != [] {
      var front, last := nodes[..|nodes| - 1], nodes[|nodes| - 1];
      PlacesAreNodes(front);
      assert nodes == front + [last];
      assert NodeIdsOf(nodes) == NodeIdsOf(front) + {last.nodeId};
    }
  }

  lemma ShapeAcceptedFacts<R>(city: City<R>, shape: RoadShape<R>)
    requires ShapeAccepted(city, shape)
    ensures |city.nodes| >= 2 && city.nodes[0].nodeId in NodeIdsOf(city.nodes)
    ensures EndpointsIn(city.roads, shape.ends, NodeIdsOf(city.nodes))
  {
    PlacesAreNodes(city.nodes);
  }

  method ListSources(draft: DraftV2, nodes: map<int, Place>) returns (source: Provenance)
    requires draft.sourceNodes <= nodes.Keys
    ensures source == ProvenanceOf(draft, nodes)
  {
    IntOrder();
    var ids := SortedSet(draft.sourceNodes, IntLeq);
    assert forall id <- ids :: id in Elements(ids);
    var listed := [];
    for i := 0 to |ids|
      invariant |listed| == i
      invariant forall j :: 0 <= j < i ==> ids[j] in nodes && listed[j] == (ids[j], nodes[ids[j]])
    {
      listed := listed + [(ids[i], nodes[ids[i]])];
    }
    source := Provenance(listed, draft.sourceWays);
  }

  method ConvertExtractV2(x: Extract, request: Request, fits: PackV2 -> bool)
    returns (r: Result<Imported<PackV2>, ImportError>)
    ensures r == ConversionOfV2(x, request, fits)
  {
    hide DraftOfV2, KeptCity, ShapeAccepted, StronglyConnected, Drafted, AreStrongComponents, NodeNames, GraphOf;
    hide WayOrder, BoundsAccepted, BoundsOf, ProvenanceOf, PackAccepted;
    var drafted := DraftRoadsV2(x);
    if drafted.Failure? {
      return Failure(drafted.error);
    }
    var draft := drafted.value;
    if draft.roads == [] {
      return Failure(NoRoads);
    }
    DraftedRoadsV2(x);
    DraftedFacts(draft.roads, SHAPE_V2, draft.used, x.nodes);
    SourceNodesKnown(WayOrder(x), x);
    var source := ListSources(draft, x.nodes);
    var components := StrongComponentsV2(draft.roads, NodeNames(draft.used));
    var kept := KeepCity(draft.roads, SHAPE_V2, draft.used, x.nodes, request.largest, components);
    if kept.Failure? {
      return Failure(kept.error);
    }
    var city := kept.value.pack;
    KeptCityNotEmpty(draft.roads, SHAPE_V2, draft.used, x.nodes, request.largest);
    var accepted := CheckCityV2(city, request);
    if !accepted {
      return Failure(PackRefused);
    }
    var pack := PackV2(city, BoundsOf(city.nodes), source,
                       Quality(|x.nodes|, |x.ways|, draft.eligible, |x.ways| - draft.eligible));
    if !fits(pack) {
      return Failure(PackTooLarge);
    }
    r := Success(Imported(pack, kept.value.droppedNodes, kept.value.droppedRoads));
  }

  /** Converts an extract to a schema-2 city. */
  method ConvertV2(elements: seq<Element>, request: Request, fits: PackV2 -> bool)
    returns (r: Result<Imported<PackV2>, ImportError>)
    ensures r == ConversionV2(elements, request, fits)
  {
    hide CollectAll, ConversionOfV2;
    var extract := ReadElements(elements, V2);
    if extract.Failure? {
      return Failure(extract.error);
    }
    r := ConvertExtractV2(extract.value, request, fits);
  }
}
