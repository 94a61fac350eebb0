/** What a schema-2 pack says of its sources, told by the elements of the extract alone: the provenance document
    with its ways, their members and recorded tags, and their nodes, and the counts of what was read and used. The
    recorded tags are a selection, and they say of a street all that the importer reads off its tags: which kind
    it is, whether cars may use it and in which direction. Ways and nodes are listed by increasing identifiers,
    so the document does not depend on the order of the extract. */
module OsmSources {
  import opened Results
  import opened Orders
  import opened Decimals
  import opened Digraphs
  import opened Roads
  import opened OsmTags
  import opened OsmExtract
  import opened OsmDraft
  import opened OsmImport
  import opened OsmConvert
  import opened OsmStreets
  import opened OsmAcceptance
  import opened OsmPacks

  // --- Which tags are recorded ---

  ghost predicate Recordable(key: string) {
    || key == "highway" || key == "junction" || key in ACCESS_KEYS || key in ONE_WAY_KEYS
    || exists mode :: (mode in ACCESS_KEYS || mode == "oneway") && Narrows(key, mode)
  }

  ghost predicate Narrows(key: string, mode: string) {
    key == mode + ":conditional" || key == mode + ":forward" || key == mode + ":backward"
  }

  ghost predicate Records(recorded: Tags, tags: Tags) {
    && (forall key :: key in recorded <==> key in tags && Recordable(key))
    && (forall key <- recorded.Keys :: recorded[key] == tags[key])
  }

  lemma TagsRecorded(tags: Tags)
    ensures Records(RelevantTags(tags), tags)
  {
    forall key ensures Recordable(key) <==> key in SOURCE_KEYS || IsRestrictionKey(key) {
      KeyRecorded(key);
    }
    hide Recordable, SOURCE_KEYS, IsRestrictionKey;
  }

  lemma KeyRecorded(key: string)
    ensures Recordable(key) <==> key in SOURCE_KEYS || IsRestrictionKey(key)
  {
    forall mode ensures mode in ACCESS_KEYS || mode == "oneway" <==> mode in RESTRICTIONS {
      ModeNames(mode);
    }
    NarrowsRead(key);
    SourceKeys(key);
  }

  lemma SourceKeys(key: string)
    ensures key in SOURCE_KEYS <==>
            key == "highway" || key == "junction" || key in ACCESS_KEYS || key in ONE_WAY_KEYS
  {}

  lemma NarrowsRead(key: string)
    ensures IsRestrictionKey(key) <==> exists mode :: mode in RESTRICTIONS && Narrows(key, mode)
  {
    hide RESTRICTIONS;
    if mode :| mode in RESTRICTIONS && Narrows(key, mode) {
      assert key in {mode + ":conditional", mode + ":forward", mode + ":backward"};
    }
    if mode :| mode in RESTRICTIONS && key in {mode + ":conditional", mode + ":forward", mode + ":backward"} {
      assert Narrows(key, mode);
    }
  }

  /** The recorded tags say of a street what all its tags say. */
  lemma RecordedTagsSuffice(recorded: Tags, tags: Tags)
    requires Records(recorded, tags)
    ensures forall kind :: IsKind(recorded, kind) <==> IsKind(tags, kind)
    ensures AdmitsCars(recorded) <==> AdmitsCars(tags)
    ensures PermitsForward(recorded) <==> PermitsForward(tags)
    ensures PermitsBackward(recorded) <==> PermitsBackward(tags)
  {
    SameKeys(recorded, tags, ACCESS_KEYS);
    SameKeys(recorded, tags, ONE_WAY_KEYS);
    assert Recordable("highway") && Recordable("junction");
    hide Recordable, Says, NonePresent, ACCESS_KEYS, ONE_WAY_KEYS;
  }

  lemma SameKeys(recorded: Tags, tags: Tags, keys: seq<string>)
    requires Records(recorded, tags) && (keys == ACCESS_KEYS || keys == ONE_WAY_KEYS)
    ensures NonePresent(recorded, keys) <==> NonePresent(tags, keys)
    ensures forall values :: Says(recorded, keys, values) <==> Says(tags, keys, values)
  {
    hide ACCESS_KEYS, ONE_WAY_KEYS;
    forall k: nat | k < |keys| ensures keys[k] in recorded <==> keys[k] in tags {
      assert keys[k] in keys && Recordable(keys[k]);
    }
    hide Recordable;
    forall values ensures Says(recorded, keys, values) <==> Says(tags, keys, values) {
      if k: nat :| MostSpecific(tags, keys, k) && tags[keys[k]] in values {
        assert MostSpecific(recorded, keys, k);
      }
      if k: nat :| MostSpecific(recorded, keys, k) && recorded[keys[k]] in values {
        assert MostSpecific(tags, keys, k);
      }
    }
  }

  // --- What the draft gathers of its sources ---

  ghost predicate IsRoad(tags: Tags) {
    exists kind :: IsKind(tags, kind)
  }

  lemma RoadRead(way: Way, nodes: map<int, Place>, references: nat)
    requires Screen(way, nodes, references).Success?
    ensures var s := Screen(way, nodes, references).value;
            (s.NotRoad? <==> !IsRoad(way.tags)) && (s.Street? <==> IsStreet(way.tags))
  {
    hide RoadClass, FlowOf, AllowsCar, IsKind, IsStreet;
    KindOrNot(way.tags);
    StreetRead(way, nodes, references);
  }

  lemma StreetIsRoad(tags: Tags)
    ensures IsStreet(tags) ==> IsRoad(tags)
  {
    hide IsKind, AdmitsCars;
  }

  lemma WayGathers(d: DraftV2, id: int, way: Way, nodes: map<int, Place>)
    requires WithWayV2(d, id, way, nodes).Success?
    ensures var r := WithWayV2(d, id, way, nodes).value;
            && r.sourceWays == d.sourceWays
               + (if IsRoad(way.tags) then [SourceWay(id, way.members, RelevantTags(way.tags))] else [])
            && r.sourceNodes == d.sourceNodes + (if IsRoad(way.tags) then Elements(way.members) else {})
            && r.eligible == d.eligible + (if IsStreet(way.tags) then 1 else 0)
  {
    hide Screen, WithSegmentsV2, IsRoad, IsStreet, RelevantTags, Elements;
    RoadRead(way, nodes, d.references);
    StreetIsRoad(way.tags);
    var screening := Screen(way, nodes, d.references).value;
    if screening.Street? {
      SegmentsKeepSources(Recorded(d, id, way).(eligible := d.eligible + 1), id, way.members, screening,
                          |way.members| - 1);
    } else if screening.NotRoad? {
      assert d.sourceWays + [] == d.sourceWays && d.sourceNodes + {} == d.sourceNodes;
    }
  }

  /** The listed ways are those with an imported highway class, in order. */
  ghost predicate WaysGathered(listed: seq<SourceWay>, ids: seq<int>, x: Extract)
    requires forall id <- ids :: id in x.ways
  {
    && (forall i, j :: 0 <= i < j < |listed| ==> listed[i].id < listed[j].id)
    && (forall w :: w in listed <==>
          w.id in ids && IsRoad(x.ways[w.id].tags)
          && w == SourceWay(w.id, x.ways[w.id].members, RelevantTags(x.ways[w.id].tags)))
  }

  ghost predicate NodesGathered(nodes: set<int>, ids: seq<int>, x: Extract)
    requires forall id <- ids :: id in x.ways
  {
    forall m :: m in nodes <==> exists id :: id in ids && IsRoad(x.ways[id].tags) && m in x.ways[id].members
  }

  ghost function StreetIds(ids: seq<int>, x: Extract): set<int>
    requires forall id <- ids :: id in x.ways
  {
    set id | id in ids && IsStreet(x.ways[id].tags)
  }

  lemma OneMoreWayGathered(listed: seq<SourceWay>, front: seq<int>, last: int, x: Extract)
    requires (forall id <- front :: id in x.ways && id < last) && last in x.ways && WaysGathered(listed, front, x)
    ensures var way := x.ways[last];
            WaysGathered(listed
                         + (if IsRoad(way.tags) then [SourceWay(last, way.members, RelevantTags(way.tags))] else []),
                         front + [last], x)
  {
    hide IsRoad, RelevantTags;
    var way := x.ways[last];
    var more := if IsRoad(way.tags) then [SourceWay(last, way.members, RelevantTags(way.tags))] else [];
    forall i | 0 <= i < |listed| ensures listed[i].id < last {
      assert listed[i] in listed;
    }
  }

  lemma OneMoreNodesGathered(nodes: set<int>, front: seq<int>, last: int, x: Extract)
    requires (forall id <- front :: id in x.ways) && last in x.ways && NodesGathered(nodes, front, x)
    ensures NodesGathered(nodes + (if IsRoad(x.ways[last].tags) then Elements(x.ways[last].members) else {}),
                          front + [last], x)
  {
    hide IsRoad;
  }

  lemma OneMoreStreet(front: seq<int>, last: int, x: Extract)
    requires (forall id <- front :: id in x.ways && id < last) && last in x.ways
    ensures |StreetIds(front + [last], x)| == |StreetIds(front, x)| + if IsStreet(x.ways[last].tags) then 1 else 0
  {
    hide IsStreet;
    assert StreetIds(front + [last], x) ==
           StreetIds(front, x) + if IsStreet(x.ways[last].tags) then {last} else {};
  }

  lemma {:induction false} DraftGathers(ids: seq<int>, x: Extract)
    requires (forall id <- ids :: id in x.ways) && DraftOfV2(ids, x).Success?
    requires forall i, j :: 0 <= i < j < |ids| ==> ids[i] < ids[j]
    ensures var d := DraftOfV2(ids, x).value;
            && WaysGathered(d.sourceWays, ids, x) && NodesGathered(d.sourceNodes, ids, x)
            && d.eligible == |StreetIds(ids, x)|
  {
    hide WithWayV2, WaysGathered, NodesGathered, StreetIds, RelevantTags, IsRoad, IsStreet;
    if ids == [] {
      NoneGathered(x);
    } else {
      var front, last := ids[..|ids| - 1], ids[|ids| - 1];
      assert ids == front + [last];
      DraftGathers(front, x);
      var d := DraftOfV2(front, x).value;
      WayGathers(d, last, x.ways[last], x.nodes);
      OneMoreWayGathered(d.sourceWays, front, last, x);
      OneMoreNodesGathered(d.sourceNodes, front, last, x);
      OneMoreStreet(front, last, x);
    }
  }

  lemma NoneGathered(x: Extract)
    ensures WaysGathered([], [], x) && NodesGathered({}, [], x) && |StreetIds([], x)| == 0
  {
    var ids: seq<int> := [];
    assert StreetIds(ids, x) == {};
  }

  // --- Told by the elements ---

  lemma OrderedWays(x: Extract)
    ensures forall i, j :: 0 <= i < j < |WayOrder(x)| ==> WayOrder(x)[i] < WayOrder(x)[j]
    ensures forall id :: id in WayOrder(x) <==> id in x.ways
  {
    WaysListed(x);
    var ids := WayOrder(x);
    forall i, j | 0 <= i < j < |ids| ensures ids[i] < ids[j] {
      assert IntLeq(ids[i], ids[j]) && ids[i] != ids[j];
    }
  }

  lemma NodesListed(draft: DraftV2, nodes: map<int, Place>)
    requires draft.sourceNodes <= nodes.Keys
    ensures var listed := ProvenanceOf(draft, nodes).nodes;
            && (forall i, j :: 0 <= i < j < |listed| ==> listed[i].0 < listed[j].0)
            && (forall id, p :: (id, p) in listed <==> id in draft.sourceNodes && nodes[id] == p)
  {
    IntOrder();
    var ids, listed := Sorted(draft.sourceNodes, IntLeq), ProvenanceOf(draft, nodes).nodes;
    forall i, j | 0 <= i < j < |listed| ensures listed[i].0 < listed[j].0 {
      assert IntLeq(ids[i], ids[j]) && ids[i] != ids[j];
    }
    forall id, p | id in draft.sourceNodes && nodes[id] == p ensures (id, p) in listed {
      assert id in Elements(ids);
      var i :| 0 <= i < |ids| && ids[i] == id;
      assert listed[i] == (id, p);
    }
    forall id, p | (id, p) in listed ensures id in draft.sourceNodes && nodes[id] == p {
      var i :| 0 <= i < |listed| && listed[i] == (id, p);
      assert ids[i] in Elements(ids);
    }
  }

  ghost predicate RoadListing(elements: seq<Element>, id: int, way: Way) {
    WayListing(elements, id, way) && IsRoad(way.tags)
  }

  /** The document lists, in the order of their identifiers, the ways with an imported highway class, each with its
      members and the tags that are recorded, and their nodes, each at its place. */
  ghost predicate SourcesTell(source: Provenance, elements: seq<Element>) {
    && (forall i, j :: 0 <= i < j < |source.ways| ==> source.ways[i].id < source.ways[j].id)
    && (forall i, j :: 0 <= i < j < |source.nodes| ==> source.nodes[i].0 < source.nodes[j].0)
    && (forall w <- source.ways ::
          exists way :: RoadListing(elements, w.id, way) && w.nodes == way.members && Records(w.tags, way.tags))
    && (forall id, way :: RoadListing(elements, id, way) ==> exists w :: w in source.ways && w.id == id)
    && (forall id, p :: (id, p) in source.nodes <==>
          NodeAt(elements, id, p) && exists wid, way :: RoadListing(elements, wid, way) && id in way.members)
  }

  /** How many nodes and ways were read, and how many of the ways became streets. */
  ghost predicate QualityTells(quality: Quality, elements: seq<Element>) {
    && quality.inputNodes == |NodeElements(multiset(elements))|
       && quality.inputWays == |WayElements(multiset(elements))|
    && (exists ids: set<int> :: quality.eligibleWays == |ids| && AreStreets(ids, elements))
    && quality.excludedWays == quality.inputWays - quality.eligibleWays
  }

  ghost predicate AreStreets(ids: set<int>, elements: seq<Element>) {
    forall id :: id in ids <==> exists way :: WayListing(elements, id, way) && IsStreet(way.tags)
  }

  lemma WaysTold(x: Extract, listed: seq<SourceWay>, ids: seq<int>, elements: seq<Element>)
    requires (forall id :: id in ids <==> id in x.ways) && WaysGathered(listed, ids, x)
    requires forall id, w :: id in x.ways && x.ways[id] == w <==> WayListing(elements, id, w)
    ensures forall w <- listed ::
              exists way :: RoadListing(elements, w.id, way) && w.nodes == way.members && Records(w.tags, way.tags)
    ensures forall id, way :: RoadListing(elements, id, way) ==> exists w :: w in listed && w.id == id
  {
    hide IsRoad, Records, WayListing, RelevantTags;
    forall w | w in listed
      ensures exists way :: RoadListing(elements, w.id, way) && w.nodes == way.members && Records(w.tags, way.tags)
    {
      TagsRecorded(x.ways[w.id].tags);
      assert RoadListing(elements, w.id, x.ways[w.id]);
    }
    forall id, way | RoadListing(elements, id, way) ensures exists w :: w in listed && w.id == id {
      assert WayListing(elements, id, way);
      var w := SourceWay(id, way.members, RelevantTags(way.tags));
      assert w in listed;
    }
  }

  lemma NodesTold(x: Extract, nodes: set<int>, ids: seq<int>, elements: seq<Element>, m: int)
    requires (forall id :: id in ids <==> id in x.ways) && NodesGathered(nodes, ids, x)
    requires forall id, w :: id in x.ways && x.ways[id] == w <==> WayListing(elements, id, w)
    ensures m in nodes <==> exists id, way :: RoadListing(elements, id, way) && m in way.members
  {
    hide IsRoad, WayListing;
    if m in nodes {
      var id :| id in ids && IsRoad(x.ways[id].tags) && m in x.ways[id].members;
      assert RoadListing(elements, id, x.ways[id]);
    }
    if id, way :| RoadListing(elements, id, way) && m in way.members {
      assert x.ways[id] == way;
    }
  }

  lemma StreetsTold(x: Extract, ids: seq<int>, elements: seq<Element>)
    requires forall id :: id in ids <==> id in x.ways
    requires forall id, w :: id in x.ways && x.ways[id] == w <==> WayListing(elements, id, w)
    ensures AreStreets(StreetIds(ids, x), elements)
  {
    hide IsStreet, WayListing;
    forall id | id in ids && IsStreet(x.ways[id].tags)
      ensures exists way :: WayListing(elements, id, way) && IsStreet(way.tags)
    {
      assert WayListing(elements, id, x.ways[id]);
    }
  }

  lemma SourcesTold(elements: seq<Element>, x: Extract, draft: DraftV2)
    requires CollectAll(elements, V2) == Success(x) && DraftOfV2(WayOrder(x), x) == Success(draft)
    ensures draft.sourceNodes <= x.nodes.Keys && SourcesTell(ProvenanceOf(draft, x.nodes), elements)
  {
    hide CollectAll, DraftOfV2, WayOrder, RoadListing, WayListing, WaysGathered, NodesGathered, StreetIds;
    hide Records, NodeAt;
    var ids := WayOrder(x);
    ElementsRead(elements, V2);
    OrderedWays(x);
    DraftGathers(ids, x);
    assert forall i, j :: 0 <= i < j < |draft.sourceWays| ==> draft.sourceWays[i].id < draft.sourceWays[j].id by {
      WaysInOrder(draft.sourceWays, ids, x);
    }
    SourceNodesKnown(ids, x);
    NodesListed(draft, x.nodes);
    WaysTold(x, draft.sourceWays, ids, elements);
    forall m ensures m in draft.sourceNodes <==> exists id, way :: RoadListing(elements, id, way) && m in way.members {
      NodesTold(x, draft.sourceNodes, ids, elements, m);
    }
  }

  lemma WaysInOrder(listed: seq<SourceWay>, ids: seq<int>, x: Extract)
    requires (forall id <- ids :: id in x.ways) && WaysGathered(listed, ids, x)
    ensures forall i, j :: 0 <= i < j < |listed| ==> listed[i].id < listed[j].id
  {}

  lemma CountsTold(elements: seq<Element>, x: Extract, draft: DraftV2)
    requires CollectAll(elements, V2) == Success(x) && DraftOfV2(WayOrder(x), x) == Success(draft)
    ensures QualityTells(Quality(|x.nodes|, |x.ways|, draft.eligible, |x.ways| - draft.eligible), elements)
  {
    hide CollectAll, DraftOfV2, WayOrder, WayListing, WaysGathered, NodesGathered, StreetIds, AreStreets, NodeAt;
    hide NodeElements, WayElements, Acceptable;
    var ids := WayOrder(x);
    CollectsAcceptable(elements, V2);
    ElementsRead(elements, V2);
    OrderedWays(x);
    DraftGathers(ids, x);
    StreetsTold(x, ids, elements);
  }

  /** Schema 2: the provenance document and the counts are those of the extract's own elements. */
  lemma SourcesFromElements(elements: seq<Element>, request: Request, fits: PackV2 -> bool)
    requires ConversionV2(elements, request, fits).Success?
    ensures var pack := ConversionV2(elements, request, fits).value.pack;
            SourcesTell(pack.source, elements) && QualityTells(pack.quality, elements)
  {
    hide CollectAll, DraftOfV2, WayOrder, KeptCity, Drafted, PackAccepted, BoundsAccepted, BoundsOf, ProvenanceOf;
    hide SourcesTell, QualityTells;
    var x := CollectAll(elements, V2).value;
    var draft := DraftOfV2(WayOrder(x), x).value;
    SourcesTold(elements, x, draft);
    CountsTold(elements, x, draft);
  }
}
