/** What the pack schema can still refuse of a kept city: its size, and roads that lead nowhere or too far. The
    schema also checks that no two nodes and no two roads have the same name, that there are not too many roads
    and that every road ends at a node of the city. These checks never fire on what a conversion keeps: the names
    of segments differ because identifiers are positive and written in digits only, so a name can be taken apart
    at its dashes in one way only. */
module OsmShapes {
  import opened Results
  import opened Orders
  import opened Decimals
  import opened Digraphs
  import opened Roads
  import opened OsmTags
  import opened OsmExtract
  import opened OsmDraft
  import opened OsmImport
  import opened OsmConvert
  import opened OsmAcceptance
  import opened OsmPacks

  // --- No two drafted roads have the same name ---

  ghost predicate NamesApart<R>(roads: seq<R>, name: R -> string) {
    forall i, j :: 0 <= i < j < |roads| ==> name(roads[i]) != name(roads[j])
  }

  lemma OneMoreApart<R>(roads: seq<R>, r: R, name: R -> string)
    requires NamesApart(roads, name) && forall s <- roads :: name(s) != name(r)
    ensures NamesApart(roads + [r], name)
  {}

  lemma {:induction false} RetainedApart<R>(roads: seq<R>, ends: R -> Edge, kept: set<NodeId>, name: R -> string)
    requires NamesApart(roads, name)
    ensures NamesApart(Retained(roads, ends, kept), name)
  {
    if roads != [] {
      var front, r := roads[..|roads| - 1], roads[|roads| - 1];
      RetainedApart(front, ends, kept, name);
      forall s | s in Retained(front, ends, kept) ensures name(s) != name(r) {
        RetainedExactly(front, ends, kept, s);
        var i :| 0 <= i < |front| && front[i] == s;
        assert roads[i] == s;
      }
      OneMoreApart(Retained(front, ends, kept), r, name);
    }
  }

  lemma {:induction false} ApartOnce<R>(roads: seq<R>, name: R -> string, r: R)
    requires NamesApart(roads, name)
    ensures multiset(roads)[r] <= 1
  {
    if roads != [] {
      var front, last := roads[..|roads| - 1], roads[|roads| - 1];
      assert roads == front + [last];
      ApartOnce(front, name, r);
      if last == r {
        assert forall i :: 0 <= i < |front| ==> front[i] == roads[i] && name(roads[i]) != name(last);
        assert r !in front;
      }
    }
  }

  lemma SortedApart<R>(roads: seq<R>, sorted: seq<R>, name: R -> string)
    requires NamesApart(roads, name) && multiset(sorted) == multiset(roads)
    ensures NamesApart(sorted, name)
  {
    forall i, j | 0 <= i < j < |sorted| ensures name(sorted[i]) != name(sorted[j]) {
      var a, b := sorted[i], sorted[j];
      assert a in multiset(sorted) && b in multiset(sorted);
      assert a in roads && b in roads;
      if a == b {
        assert sorted == sorted[..j] + [b] + sorted[j + 1..] && a in sorted[..j];
        ApartOnce(roads, name, a);
      } else {
        var k, l :| 0 <= k < |roads| && 0 <= l < |roads| && roads[k] == a && roads[l] == b;
      }
    }
  }

  lemma {:induction false} ApartCount<R>(roads: seq<R>, name: R -> string)
    requires NamesApart(roads, name)
    ensures |set r | r in roads :: name(r)| == |roads|
  {
    var names := set r | r in roads :: name(r);
    if roads == [] {
      assert names == {};
    } else {
      var front, last := roads[..|roads| - 1], roads[|roads| - 1];
      assert roads == front + [last];
      ApartCount(front, name);
      var before := set r | r in front :: name(r);
      assert names == before + {name(last)};
      assert name(last) !in before by {
        forall r | r in front ensures name(r) != name(last) {
          var i :| 0 <= i < |front| && front[i] == r;
          assert roads[i] == r && roads[|front|] == last;
        }
      }
    }
  }

  // --- Schema 1 ---

  function SegmentNumber(id: int, i: nat): string {
    "osm-way-" + IntText(id) + "-" + IntText(i)
  }

  lemma NumbersDiffer(id: int, i: nat, jd: int, j: nat)
    requires PositiveId(id) && PositiveId(jd) && SegmentNumber(id, i) == SegmentNumber(jd, j)
    ensures id == jd && i == j
  {
    hide Decimal, ReadDecimal;
    PositiveText(id);
    PositiveText(jd);
    NoDash(i);
    NoDash(j);
    assert SegmentNumber(id, i) == "osm-way-" + (IntText(id) + "-" + IntText(i));
    assert SegmentNumber(jd, j) == "osm-way-" + (IntText(jd) + "-" + IntText(j));
    SameTail("osm-way-", IntText(id) + "-" + IntText(i), IntText(jd) + "-" + IntText(j));
    FirstDash(IntText(id), IntText(jd), IntText(i), IntText(j));
  }

  /** All names are numbers of segments of these ways. */
  ghost predicate Numbered(roads: seq<Road>, ids: set<int>) {
    forall r <- roads :: HasNumber(r, ids)
  }

  ghost predicate HasNumber(r: Road, ids: set<int>) {
    exists id, i: nat :: id in ids && r.roadId == SegmentNumber(id, i)
  }

  lemma SegmentNumbered(id: int, members: seq<int>, street: Screening, i: nat)
    requires street.Street? && i + 1 < |members|
    ensures Segment(id, members, street, i).roadId == SegmentNumber(id, i)
  {
    hide IntText, NodeName;
  }

  /** The roads of one way's first segments come after all others. */
  ghost predicate NumbersTo(roads: seq<Road>, ids: set<int>, id: int, k: nat) {
    forall r <- roads :: HasNumber(r, ids) || exists i: nat :: i < k && r.roadId == SegmentNumber(id, i)
  }

  lemma NextNumber(roads: seq<Road>, ids: set<int>, id: int, k: nat, r: Road)
    requires NamesApart(roads, RoadName) && NumbersTo(roads, ids, id, k) && r.roadId == SegmentNumber(id, k)
    requires PositiveId(id) && id !in ids && forall jd <- ids :: PositiveId(jd)
    ensures NamesApart(roads + [r], RoadName) && NumbersTo(roads + [r], ids, id, k + 1)
  {
    hide SegmentNumber, PositiveId;
    forall s | s in roads ensures RoadName(s) != RoadName(r) {
      if HasNumber(s, ids) {
        var jd, j: nat :| jd in ids && s.roadId == SegmentNumber(jd, j);
        if s.roadId == r.roadId {
          NumbersDiffer(id, k, jd, j);
        }
      } else {
        var i: nat :| i < k && s.roadId == SegmentNumber(id, i);
        if s.roadId == r.roadId {
          NumbersDiffer(id, k, id, i);
        }
      }
    }
    OneMoreApart(roads, r, RoadName);
  }

  lemma {:induction false} SegmentsApart(d: Draft, id: int, members: seq<int>, street: Screening, k: nat, ids: set<int>)
    requires street.Street? && k < |members| && WithSegments(d, id, members, street, k).Success?
    requires NamesApart(d.roads, RoadName) && Numbered(d.roads, ids)
    requires PositiveId(id) && id !in ids && forall jd <- ids :: PositiveId(jd)
    ensures var roads := WithSegments(d, id, members, street, k).value.roads;
            NamesApart(roads, RoadName) && NumbersTo(roads, ids, id, k)
    decreases k
  {
    hide NamesApart, NumbersTo, Segment, PositiveId, HasNumber, SegmentNumber;
    if k == 0 {
      NumbersStart(d.roads, ids, id);
    } else {
      LastSegment(d, id, members, street, k);
      SegmentsApart(d, id, members, street, k - 1, ids);
      SegmentNumbered(id, members, street, k - 1);
      NextNumber(WithSegments(d, id, members, street, k - 1).value.roads, ids, id, k - 1,
                 Segment(id, members, street, k - 1));
    }
  }

  lemma NumbersStart(roads: seq<Road>, ids: set<int>, id: int)
    requires Numbered(roads, ids)
    ensures NumbersTo(roads, ids, id, 0)
  {}

  lemma NumbersEnd(roads: seq<Road>, ids: set<int>, id: int, k: nat)
    requires NumbersTo(roads, ids, id, k)
    ensures Numbered(roads, ids + {id})
  {
    hide SegmentNumber;
    forall r | r in roads ensures HasNumber(r, ids + {id}) {
      if HasNumber(r, ids) {
        var jd, j: nat :| jd in ids && r.roadId == SegmentNumber(jd, j);
        assert jd in ids + {id};
      } else {
        var i: nat :| i < k && r.roadId == SegmentNumber(id, i);
        assert id in ids + {id};
      }
    }
  }

  lemma WayApart(d: Draft, id: int, way: Way, nodes: map<int, Place>, ids: set<int>)
    requires WithWay(d, id, way, nodes).Success? && NamesApart(d.roads, RoadName) && Numbered(d.roads, ids)
    requires PositiveId(id) && id !in ids && forall jd <- ids :: PositiveId(jd)
    ensures var roads := WithWay(d, id, way, nodes).value.roads;
            NamesApart(roads, RoadName) && Numbered(roads, ids + {id})
  {
    hide NamesApart, NumbersTo, Screen, WithSegments, PositiveId, Numbered;
    var street := Screen(way, nodes, d.references).value;
    if street.Street? {
      var counted := d.(references := d.references + |way.members|);
      SegmentsApart(counted, id, way.members, street, |way.members| - 1, ids);
      NumbersEnd(WithWay(d, id, way, nodes).value.roads, ids, id, |way.members| - 1);
    } else {
      NumbersStart(d.roads, ids, id);
      NumbersEnd(d.roads, ids, id, 0);
    }
  }

  lemma {:induction false} DraftApart(ids: seq<int>, x: Extract)
    requires (forall id <- ids :: id in x.ways && PositiveId(id)) && Distinct(ids) && DraftOf(ids, x).Success?
    ensures var roads := DraftOf(ids, x).value.roads; NamesApart(roads, RoadName) && Numbered(roads, Elements(ids))
  {
    hide WithWay, NamesApart, Numbered, PositiveId;
    if ids == [] {
      NothingApart();
    } else {
      var front, last := ids[..|ids| - 1], ids[|ids| - 1];
      assert ids == front + [last];
      assert Elements(ids) == Elements(front) + {last};
      DraftApart(front, x);
      WayApart(DraftOf(front, x).value, last, x.ways[last], x.nodes, Elements(front));
    }
  }

  lemma NothingApart()
    ensures NamesApart([], RoadName) && Numbered([], Elements<int>([]))
  {}

  // --- Schema 2 ---

  ghost predicate NamedAs(roads: seq<RoadV2>, names: set<string>) {
    NamesApart(roads, RoadNameV2) && forall r <- roads :: r.roadId in names
  }

  lemma NextName(roads: seq<RoadV2>, names: set<string>, r: RoadV2)
    requires NamedAs(roads, names) && r.roadId !in names
    ensures NamedAs(roads + [r], names + {r.roadId})
  {
    OneMoreApart(roads, r, RoadNameV2);
  }

  lemma {:induction false} SegmentsApartV2(d: DraftV2, id: int, members: seq<int>, street: Screening, k: nat)
    requires street.Street? && k < |members| && WithSegmentsV2(d, id, members, street, k).Success?
    requires NamedAs(d.roads, d.roadIds)
    ensures var r := WithSegmentsV2(d, id, members, street, k).value; NamedAs(r.roads, r.roadIds)
  {
    hide NamedAs, SegmentV2;
    if k > 0 {
      SegmentsApartV2(d, id, members, street, k - 1);
      var before := WithSegmentsV2(d, id, members, street, k - 1).value;
      NextNameOf(before, SegmentV2(id, members, street, k - 1));
    }
  }

  lemma NextNameOf(d: DraftV2, r: RoadV2)
    requires NamedAs(d.roads, d.roadIds)
    ensures r.roadId !in d.roadIds ==> NamedAs(d.roads + [r], d.roadIds + {r.roadId})
  {
    hide NamedAs;
    if r.roadId !in d.roadIds {
      NextName(d.roads, d.roadIds, r);
    }
  }

  lemma WayApartV2(d: DraftV2, id: int, way: Way, nodes: map<int, Place>)
    requires WithWayV2(d, id, way, nodes).Success? && NamedAs(d.roads, d.roadIds)
    ensures var r := WithWayV2(d, id, way, nodes).value; NamedAs(r.roads, r.roadIds)
  {
    hide NamedAs, Screen, WithSegmentsV2, RelevantTags;
    var street := Screen(way, nodes, d.references).value;
    if street.Street? {
      SegmentsApartV2(Recorded(d, id, way).(eligible := d.eligible + 1), id, way.members, street, |way.members| - 1);
    }
  }

  lemma {:induction false} DraftApartV2(ids: seq<int>, x: Extract)
    requires (forall id <- ids :: id in x.ways) && DraftOfV2(ids, x).Success?
    ensures var r := DraftOfV2(ids, x).value; NamedAs(r.roads, r.roadIds)
  {
    if ids == [] {
      NothingNamed();
    } else {
      hide NamedAs, WithWayV2;
      var front, last := ids[..|ids| - 1], ids[|ids| - 1];
      DraftApartV2(front, x);
      WayApartV2(DraftOfV2(front, x).value, last, x.ways[last], x.nodes);
    }
  }

  lemma NothingNamed()
    ensures NamedAs([], {})
  {}

  // --- What can still be refused ---

  /** Every road joins two different places, no more than half the way round the globe apart. */
  ghost predicate RoadsFit<R(!new)>(city: City<R>, shape: RoadShape<R>) {
    forall r, n, m :: r in city.roads && n in city.nodes && m in city.nodes
                      && n.nodeId == shape.ends(r).0 && m.nodeId == shape.ends(r).1 ==>
      n.place != m.place && -180.0 <= n.place.longitude - m.place.longitude <= 180.0
  }

  lemma {:induction false} PlacesRead(nodes: seq<CityNode>, n: CityNode)
    requires n in nodes && |NodeIdsOf(nodes)| == |nodes|
    ensures n.nodeId in Places(nodes) && Places(nodes)[n.nodeId] == n.place
  {
    var front, last := nodes[..|nodes| - 1], nodes[|nodes| - 1];
    assert nodes == front + [last];
    assert NodeIdsOf(nodes) == NodeIdsOf(front) + {last.nodeId};
    NotMoreNames(front);
    assert last.nodeId !in NodeIdsOf(front) && |NodeIdsOf(front)| == |front|;
    if n in front {
      PlacesRead(front, n);
      assert n.nodeId in NodeIdsOf(front);
    }
  }

  lemma {:induction false} NotMoreNames(nodes: seq<CityNode>)
    ensures |NodeIdsOf(nodes)| <= |nodes|
  {
    if nodes != [] {
      var front, last := nodes[..|nodes| - 1], nodes[|nodes| - 1];
      NotMoreNames(front);
      assert nodes == front + [last];
      assert NodeIdsOf(nodes) == NodeIdsOf(front) + {last.nodeId};
    }
  }

  lemma FitRead<R(!new)>(city: City<R>, shape: RoadShape<R>, r: R)
    requires |NodeIdsOf(city.nodes)| == |city.nodes| && EndpointsIn(city.roads, shape.ends, NodeIdsOf(city.nodes))
    requires r in city.roads
    ensures var places, (s, t) := Places(city.nodes), shape.ends(r);
            && s in places && t in places
            && (exists n, m :: n in city.nodes && m in city.nodes && n.nodeId == s && m.nodeId == t
                               && n.place == places[s] && m.place == places[t])
            && (forall n, m :: n in city.nodes && m in city.nodes && n.nodeId == s && m.nodeId == t ==>
                  n.place == places[s] && m.place == places[t])
  {
    hide Places;
    var (s, t) := shape.ends(r);
    forall n | n in city.nodes ensures n.nodeId in Places(city.nodes) && Places(city.nodes)[n.nodeId] == n.place {
      PlacesRead(city.nodes, n);
    }
    assert s in NodeIdsOf(city.nodes) && t in NodeIdsOf(city.nodes);
    var n :| n in city.nodes && n.nodeId == s;
    var m :| m in city.nodes && m.nodeId == t;
  }

  lemma RoadFits<R(!new)>(city: City<R>, shape: RoadShape<R>)
    requires |NodeIdsOf(city.nodes)| == |city.nodes| && EndpointsIn(city.roads, shape.ends, NodeIdsOf(city.nodes))
    ensures RoadsFit(city, shape) <==>
            forall r <- city.roads ::
              var places, (s, t) := Places(city.nodes), shape.ends(r);
              && s in places && t in places && places[s] != places[t]
              && -180.0 <= places[s].longitude - places[t].longitude <= 180.0
  {
    hide Places, NodeIdsOf, EndpointsIn;
    forall r | r in city.roads
      ensures var places, (s, t) := Places(city.nodes), shape.ends(r);
              && s in places && t in places
              && (exists n, m :: n in city.nodes && m in city.nodes && n.nodeId == s && m.nodeId == t
                                 && n.place == places[s] && m.place == places[t])
              && (forall n, m :: n in city.nodes && m in city.nodes && n.nodeId == s && m.nodeId == t ==>
                    n.place == places[s] && m.place == places[t])
    {
      FitRead(city, shape, r);
    }
  }

  /** Of a city whose roads have names of their own and end at its nodes, the schema asks only for enough and not too
      many nodes and for roads that fit. */
  lemma ShapeExactly<R(!new)>(city: City<R>, shape: RoadShape<R>)
    requires NamesApart(city.roads, shape.name) && 1 <= |city.roads| <= 20_000
    requires |NodeIdsOf(city.nodes)| == |city.nodes| && EndpointsIn(city.roads, shape.ends, NodeIdsOf(city.nodes))
    ensures ShapeAccepted(city, shape) <==> 2 <= |city.nodes| <= 10_000 && RoadsFit(city, shape)
  {
    hide NamesApart, EndpointsIn, NodeIdsOf, Places, RoadsFit;
    ApartCount(city.roads, shape.name);
    RoadFits(city, shape);
  }

  lemma KeptApart<R(!new)>(roads: seq<R>, shape: RoadShape<R>, used: set<int>, nodes: map<int, Place>, largest: bool)
    requires Drafted(roads, shape, used, nodes) && KeptCity(roads, shape, used, nodes, largest).Success?
    requires NamesApart(roads, shape.name)
    ensures NamesApart(KeptCity(roads, shape, used, nodes, largest).value.pack.roads, shape.name)
  {
    hide NamesApart, Retained, SortBy, CityNodes, Drafted, StronglyConnected, ReadIds, NodeNames, Edges;
    KeptSound(roads, shape, used, nodes, largest);
    var kept := KeptNodes(DraftGraph(roads, shape, used), largest).value;
    RetainedApart(roads, shape.ends, kept, shape.name);
    ByNameOrders(shape);
    SortBySorts(Retained(roads, shape.ends, kept), ByName(shape));
    SortedApart(Retained(roads, shape.ends, kept), SortBy(Retained(roads, shape.ends, kept), ByName(shape)),
                shape.name);
  }

  lemma KeptEnds<R(!new)>(city: City<R>, roads: seq<R>, shape: RoadShape<R>, used: set<int>, nodes: map<int, Place>)
    requires KeepsExactly(city, roads, shape, used, nodes)
    ensures EndpointsIn(city.roads, shape.ends, NodeIdsOf(city.nodes))
  {
    hide NodeIdsOf, TextsAscend, TextsDoNotDescend, Edges;
  }

  /** Of what a conversion keeps the pack schema refuses only too small or too large a city and roads that do not fit:
      its checks of names, of the number of roads and of connectivity never fire. */
  lemma PackAcceptedExactly<R(!new)>(roads: seq<R>, shape: RoadShape<R>, used: set<int>, nodes: map<int, Place>,
                                     largest: bool, request: Request)
    requires Drafted(roads, shape, used, nodes) && NamesApart(roads, shape.name) && |roads| <= 20_000
    requires KeptCity(roads, shape, used, nodes, largest).Success?
    ensures var city := KeptCity(roads, shape, used, nodes, largest).value.pack;
            PackAccepted(city, shape, request) <==>
            request.metadataAccepted && 2 <= |city.nodes| <= 10_000 && RoadsFit(city, shape)
  {
    hide KeptCity, Drafted, NamesApart, KeepsExactly, ShapeAccepted, RoadsFit, PackAccepted, NodeIdsOf, EndpointsIn;
    hide StronglyConnected, IsSelected, Touched, DraftGraph, NodeNames, StreetGraph;
    var imported := KeptCity(roads, shape, used, nodes, largest).value;
    KeptCitySound(roads, shape, used, nodes, largest);
    KeptCityExactly(roads, shape, used, nodes, largest);
    KeptEnds(imported.pack, roads, shape, used, nodes);
    KeptApart(roads, shape, used, nodes, largest);
    ConnectivityNeverRefused(roads, shape, used, nodes, largest, request);
    ShapeExactly(imported.pack, shape);
  }

  /** The conditions of the theorem hold of both schemas' drafts. */
  lemma DraftsApart(x: Extract)
    requires forall id <- x.ways :: PositiveId(id)
    ensures DraftOf(WayOrder(x), x).Success? ==>
              NamesApart(DraftOf(WayOrder(x), x).value.roads, RoadName)
              && |DraftOf(WayOrder(x), x).value.roads| <= 20_000
    ensures DraftOfV2(WayOrder(x), x).Success? ==>
              NamesApart(DraftOfV2(WayOrder(x), x).value.roads, RoadNameV2)
              && |DraftOfV2(WayOrder(x), x).value.roads| <= 20_000
  {
    hide DraftOf, DraftOfV2, NamesApart, PositiveId, RoadsSound;
    WaysListed(x);
    if DraftOf(WayOrder(x), x).Success? {
      DraftApart(WayOrder(x), x);
      DraftSound(WayOrder(x), x);
    }
    if DraftOfV2(WayOrder(x), x).Success? {
      DraftApartV2(WayOrder(x), x);
      DraftSoundV2(WayOrder(x), x);
      NamedApart(DraftOfV2(WayOrder(x), x).value);
    }
  }

  lemma NamedApart(d: DraftV2)
    requires NamedAs(d.roads, d.roadIds)
    ensures NamesApart(d.roads, RoadNameV2)
  {}

  /** The bounds are accepted exactly when no node lies beyond 85 degrees of latitude and the nodes are neither all on
      one meridian nor all on one parallel. */
  lemma BoundsExactly(nodes: seq<CityNode>)
    requires nodes != []
    ensures BoundsAccepted(nodes) <==>
            && (forall n <- nodes :: -85.0 <= n.place.latitude <= 85.0)
            && (exists n, m :: n in nodes && m in nodes && n.place.longitude != m.place.longitude)
            && (exists n, m :: n in nodes && m in nodes && n.place.latitude != m.place.latitude)
  {
    BoundsEnclose(nodes);
    hide BoundsOf;
  }
}
