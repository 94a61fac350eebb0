/** Which streets the drafts hold and which way each is travelled, told by the tags of the ways alone. */
module OsmStreets {
  import opened Results
  import opened Orders
  import opened Decimals
  import opened Digraphs
  import opened Roads
  import opened OsmTags
  import opened OsmExtract
  import opened OsmDraft
  import opened OsmImport

  // --- The rules, over the tag map ---

  /** Of several keys, the first that is present. */
  ghost predicate MostSpecific(tags: Tags, keys: seq<string>, i: nat) {
    i < |keys| && keys[i] in tags && forall j :: 0 <= j < i ==> keys[j] !in tags
  }

  ghost predicate NonePresent(tags: Tags, keys: seq<string>) {
    forall j :: 0 <= j < |keys| ==> keys[j] !in tags
  }

  /** The most specific of the keys has one of these values. */
  ghost predicate Says(tags: Tags, keys: seq<string>, values: set<string>) {
    exists i: nat :: MostSpecific(tags, keys, i) && tags[keys[i]] in values
  }

  const ONE_WAY_KEYS := ["oneway:motorcar", "oneway:motor_vehicle", "oneway:vehicle", "oneway"]
  const ACCESS_KEYS := ["motorcar", "motor_vehicle", "vehicle", "access"]

  /** Without a one-way key, motorways and roundabouts are one-way streets. */
  ghost predicate ImpliedOneWay(tags: Tags) {
    ("highway" in tags && tags["highway"] == "motorway") || ("junction" in tags && tags["junction"] == "roundabout")
  }

  /** The street may be driven from each node of the way to the next. */
  ghost predicate PermitsForward(tags: Tags) {
    Says(tags, ONE_WAY_KEYS, {"yes", "true", "1", "no", "false", "0"}) || NonePresent(tags, ONE_WAY_KEYS)
  }

  /** The street may be driven from each node of the way to the one before. */
  ghost predicate PermitsBackward(tags: Tags) {
    || Says(tags, ONE_WAY_KEYS, {"-1", "no", "false", "0"})
    || (NonePresent(tags, ONE_WAY_KEYS) && !ImpliedOneWay(tags))
  }

  ghost predicate AdmitsCars(tags: Tags) {
    Says(tags, ACCESS_KEYS, {"yes", "designated", "permissive"}) || NonePresent(tags, ACCESS_KEYS)
  }

  /** The highway values of a kind of street: its own name and that of its links. */
  function KindTags(kind: RoadKind): set<string> {
    match kind
    case Motorway => {"motorway", "motorway_link"}
    case Trunk => {"trunk", "trunk_link"}
    case Primary => {"primary", "primary_link"}
    case Secondary => {"secondary", "secondary_link"}
    case Tertiary => {"tertiary", "tertiary_link"}
    case Residential => {"residential", "residential_link"}
    case Service => {"service", "service_link"}
  }

  ghost predicate IsKind(tags: Tags, kind: RoadKind) {
    "highway" in tags && tags["highway"] in KindTags(kind)
  }

  /** The way is a street of an imported kind that admits cars. */
  ghost predicate IsStreet(tags: Tags) {
    (exists kind :: IsKind(tags, kind)) && AdmitsCars(tags)
  }

  // --- What the tags are read as ---

  lemma KindRead(tags: Tags, kind: RoadKind)
    ensures IsKind(tags, kind) <==> RoadClass(tags) == Some(kind)
  {}

  lemma FirstSays(tags: Tags, keys: seq<string>, i: nat, values: set<string>)
    requires MostSpecific(tags, keys, i)
    ensures Says(tags, keys, values) <==> tags[keys[i]] in values
    ensures !NonePresent(tags, keys)
  {
    if j: nat :| MostSpecific(tags, keys, j) && tags[keys[j]] in values {
      assert i == j;
    }
  }

  lemma OneWayRead(tags: Tags, values: set<string>)
    ensures var own := OneWayValue(tags);
            && (Says(tags, ONE_WAY_KEYS, values) <==> own.Some? && own.value in values)
            && (NonePresent(tags, ONE_WAY_KEYS) <==> own.None?)
  {
    var keys := ONE_WAY_KEYS;
    assert keys[0] == "oneway:motorcar" && keys[1] == "oneway:motor_vehicle" && keys[2] == "oneway:vehicle"
           && keys[3] == "oneway" && |keys| == 4;
    hide ONE_WAY_KEYS;
    if keys[0] in tags {
      FirstSays(tags, keys, 0, values);
    } else if keys[1] in tags {
      FirstSays(tags, keys, 1, values);
    } else if keys[2] in tags {
      FirstSays(tags, keys, 2, values);
    } else if keys[3] in tags {
      FirstSays(tags, keys, 3, values);
    }
  }

  lemma FlowRead(tags: Tags)
    requires "highway" in tags && FlowOf(tags).Success?
    ensures var flow := FlowOf(tags).value;
            (PermitsForward(tags) <==> flow != AgainstDrawn) && (PermitsBackward(tags) <==> flow != AsDrawn)
  {
    hide Says, NonePresent, OneWayValue, Parts;
    OneWayRead(tags, {"yes", "true", "1", "no", "false", "0"});
    OneWayRead(tags, {"-1", "no", "false", "0"});
  }

  lemma AccessRead(tags: Tags)
    ensures AllowsCar(tags) <==> AdmitsCars(tags)
  {
    var keys, values := ACCESS_KEYS, {"yes", "designated", "permissive"};
    assert keys[0] == "motorcar" && keys[1] == "motor_vehicle" && keys[2] == "vehicle" && keys[3] == "access"
           && |keys| == 4;
    assert ALLOWED == values;
    if keys[0] in tags {
      FirstSays(tags, keys, 0, values);
    } else if keys[1] in tags {
      FirstSays(tags, keys, 1, values);
    } else if keys[2] in tags {
      FirstSays(tags, keys, 2, values);
    } else if keys[3] in tags {
      FirstSays(tags, keys, 3, values);
    }
  }

  // --- The roads of a draft ---

  function Node(id: int): NodeId {
    "osm-node-" + IntText(id)
  }

  /** The schema-1 road of a way's segment: drawn the way it may be driven, and one-way unless both ways. */
  ghost predicate Draws(r: Road, id: int, way: Way, i: nat) {
    && i + 1 < |way.members| && IsKind(way.tags, r.kind) && AdmitsCars(way.tags)
    && r.roadId == "osm-way-" + IntText(id) + "-" + IntText(i)
    && var u, v := Node(way.members[i]), Node(way.members[i + 1]);
       if PermitsForward(way.tags) then r.source == u && r.target == v && r.oneWay == !PermitsBackward(way.tags)
       else r.source == v && r.target == u && r.oneWay
  }

  /** The schema-2 road of a way's segment: drawn as the way runs, with the directions it may be driven. */
  ghost predicate DrawsV2(r: RoadV2, id: int, way: Way, i: nat) {
    && i + 1 < |way.members| && IsKind(way.tags, r.kind) && AdmitsCars(way.tags)
    && var u, v := way.members[i], way.members[i + 1];
       && r.roadId == "osm-way-" + IntText(id) + "-" + IntText(u) + "-" + IntText(v)
       && r.source == Node(u) && r.target == Node(v)
       && r.directions ==
          (if PermitsForward(way.tags) then [Forward] else []) + (if PermitsBackward(way.tags) then [Backward] else [])
  }

  lemma StreetRead(way: Way, nodes: map<int, Place>, references: nat)
    requires Screen(way, nodes, references).Success?
    ensures var s := Screen(way, nodes, references).value;
            && (s.Street? <==> IsStreet(way.tags))
            && (s.Street? ==>
                  && (forall kind :: IsKind(way.tags, kind) <==> kind == s.kind)
                  && (PermitsForward(way.tags) <==> s.flow != AgainstDrawn)
                  && (PermitsBackward(way.tags) <==> s.flow != AsDrawn))
  {
    hide IsKind, AdmitsCars, PermitsForward, PermitsBackward, FlowOf, RoadClass, AllowsCar;
    forall kind ensures IsKind(way.tags, kind) <==> RoadClass(way.tags) == Some(kind) {
      KindRead(way.tags, kind);
    }
    AccessRead(way.tags);
    if RoadClass(way.tags).Some? {
      ClassTagged(way.tags);
      FlowRead(way.tags);
    }
  }

  lemma ClassTagged(tags: Tags)
    requires RoadClass(tags).Some?
    ensures "highway" in tags
  {}

  /** What the screening of a street says of its tags. */
  ghost predicate Reads(street: Screening, tags: Tags) {
    && street.Street? && AdmitsCars(tags)
    && (forall kind :: IsKind(tags, kind) <==> kind == street.kind)
    && (PermitsForward(tags) <==> street.flow != AgainstDrawn)
    && (PermitsBackward(tags) <==> street.flow != AsDrawn)
  }

  lemma SegmentDrawn(id: int, way: Way, street: Screening, i: nat)
    requires Reads(street, way.tags) && i + 1 < |way.members|
    ensures forall r :: Draws(r, id, way, i) <==> r == Segment(id, way.members, street, i)
    ensures forall r :: DrawsV2(r, id, way, i) <==> r == SegmentV2(id, way.members, street, i)
  {
    hide IntText, IsKind, AdmitsCars, PermitsForward, PermitsBackward;
  }

  lemma {:induction false} SegmentsListed(d: Draft, id: int, members: seq<int>, street: Screening, k: nat)
    requires street.Street? && k < |members| && WithSegments(d, id, members, street, k).Success?
    ensures forall r :: r in WithSegments(d, id, members, street, k).value.roads <==>
              r in d.roads || exists i: nat :: i < k && r == Segment(id, members, street, i)
  {
    hide Segment;
    if k > 0 {
      SegmentsListed(d, id, members, street, k - 1);
    }
  }

  lemma {:induction false} SegmentsListedV2(d: DraftV2, id: int, members: seq<int>, street: Screening, k: nat)
    requires street.Street? && k < |members| && WithSegmentsV2(d, id, members, street, k).Success?
    ensures forall r :: r in WithSegmentsV2(d, id, members, street, k).value.roads <==>
              r in d.roads || exists i: nat :: i < k && r == SegmentV2(id, members, street, i)
  {
    hide SegmentV2;
    if k > 0 {
      SegmentsListedV2(d, id, members, street, k - 1);
    }
  }

  lemma DrawnListed(r: Road, id: int, way: Way, street: Screening, last: nat)
    requires street.Street? && Reads(street, way.tags) && last + 1 == |way.members|
    ensures (exists i: nat :: Draws(r, id, way, i)) <==>
            exists i: nat :: i < last && r == Segment(id, way.members, street, i)
  {
    hide Segment, Reads, IsKind, AdmitsCars, PermitsForward, PermitsBackward;
    if i: nat :| i < last && r == Segment(id, way.members, street, i) {
      SegmentDrawn(id, way, street, i);
      assert Draws(r, id, way, i);
    }
    if i: nat :| Draws(r, id, way, i) {
      SegmentDrawn(id, way, street, i);
    }
  }

  lemma DrawnListedV2(r: RoadV2, id: int, way: Way, street: Screening, last: nat)
    requires street.Street? && Reads(street, way.tags) && last + 1 == |way.members|
    ensures (exists i: nat :: DrawsV2(r, id, way, i)) <==>
            exists i: nat :: i < last && r == SegmentV2(id, way.members, street, i)
  {
    hide SegmentV2, Reads, IsKind, AdmitsCars, PermitsForward, PermitsBackward;
    if i: nat :| i < last && r == SegmentV2(id, way.members, street, i) {
      SegmentDrawn(id, way, street, i);
      assert DrawsV2(r, id, way, i);
    }
    if i: nat :| DrawsV2(r, id, way, i) {
      SegmentDrawn(id, way, street, i);
    }
  }

  lemma NoneDrawn(id: int, way: Way, r: Road, s: RoadV2)
    requires !IsStreet(way.tags)
    ensures !(exists i: nat :: Draws(r, id, way, i)) && !(exists i: nat :: DrawsV2(s, id, way, i))
  {
    hide AdmitsCars, PermitsForward, PermitsBackward, IntText;
  }

  lemma WayListed(d: Draft, id: int, way: Way, nodes: map<int, Place>, r: Road)
    requires WithWay(d, id, way, nodes).Success?
    ensures r in WithWay(d, id, way, nodes).value.roads <==> r in d.roads || exists i: nat :: Draws(r, id, way, i)
  {
    hide Screen, WithSegments, Segment, Draws, IsKind, AdmitsCars, PermitsForward, PermitsBackward;
    StreetRead(way, nodes, d.references);
    var street := Screen(way, nodes, d.references).value;
    if street.Street? {
      var last: nat := |way.members| - 1;
      SegmentsListed(d.(references := d.references + |way.members|), id, way.members, street, last);
      DrawnListed(r, id, way, street, last);
    } else {
      var s: RoadV2 :| true;
      NoneDrawn(id, way, r, s);
    }
  }

  lemma WayListedV2(d: DraftV2, id: int, way: Way, nodes: map<int, Place>, r: RoadV2)
    requires WithWayV2(d, id, way, nodes).Success?
    ensures r in WithWayV2(d, id, way, nodes).value.roads <==> r in d.roads || exists i: nat :: DrawsV2(r, id, way, i)
  {
    hide Screen, WithSegmentsV2, SegmentV2, DrawsV2, RelevantTags, IsKind, AdmitsCars, PermitsForward, PermitsBackward;
    StreetRead(way, nodes, d.references);
    var street := Screen(way, nodes, d.references).value;
    if street.Street? {
      var last: nat := |way.members| - 1;
      SegmentsListedV2(Recorded(d, id, way).(eligible := d.eligible + 1), id, way.members, street, last);
      DrawnListedV2(r, id, way, street, last);
    } else {
      var s: Road :| true;
      NoneDrawn(id, way, s, r);
    }
  }

  /** Schema 1 drafts exactly the roads that the tags and members of the ways call for. */
  lemma {:induction false} DraftedRoadsExact(ids: seq<int>, x: Extract, r: Road)
    requires (forall id <- ids :: id in x.ways) && DraftOf(ids, x).Success?
    ensures r in DraftOf(ids, x).value.roads <==> exists id, i: nat :: id in ids && Draws(r, id, x.ways[id], i)
  {
    hide WithWay, Draws;
    if ids != [] {
      var front, last := ids[..|ids| - 1], ids[|ids| - 1];
      assert ids == front + [last];
      DraftedRoadsExact(front, x, r);
      WayListed(DraftOf(front, x).value, last, x.ways[last], x.nodes, r);
    }
  }

  /** Schema 2 drafts exactly the roads that the tags and members of the ways call for. */
  lemma {:induction false} DraftedRoadsExactV2(ids: seq<int>, x: Extract, r: RoadV2)
    requires (forall id <- ids :: id in x.ways) && DraftOfV2(ids, x).Success?
    ensures r in DraftOfV2(ids, x).value.roads <==> exists id, i: nat :: id in ids && DrawsV2(r, id, x.ways[id], i)
  {
    hide WithWayV2, DrawsV2;
    if ids != [] {
      var front, last := ids[..|ids| - 1], ids[|ids| - 1];
      assert ids == front + [last];
      DraftedRoadsExactV2(front, x, r);
      WayListedV2(DraftOfV2(front, x).value, last, x.ways[last], x.nodes, r);
    }
  }

  // --- Travel ---

  /** The way lets a car pass from the first node of the edge to the second, at its segment `i`. */
  ghost predicate Permits(way: Way, i: nat, e: Edge) {
    && i + 1 < |way.members| && IsStreet(way.tags)
    && var u, v := Node(way.members[i]), Node(way.members[i + 1]);
       (PermitsForward(way.tags) && e == (u, v)) || (PermitsBackward(way.tags) && e == (v, u))
  }

  lemma RoadPermits(r: Road, id: int, way: Way, i: nat, e: Edge)
    requires Draws(r, id, way, i) && (PermitsForward(way.tags) || PermitsBackward(way.tags))
    ensures e in Travel(r) <==> Permits(way, i, e)
  {
    hide IntText, AdmitsCars, PermitsForward, PermitsBackward, Node, IsKind;
    assert IsKind(way.tags, r.kind);
  }

  lemma RoadPermitsV2(r: RoadV2, id: int, way: Way, i: nat, e: Edge)
    requires DrawsV2(r, id, way, i)
    ensures e in TravelV2(r) <==> Permits(way, i, e)
  {
    hide IntText, AdmitsCars, PermitsForward, PermitsBackward, Node, IsKind;
    assert IsKind(way.tags, r.kind);
  }

  lemma DrawnStreet(r: Road, id: int, way: Way, i: nat)
    requires Draws(r, id, way, i)
    ensures IsStreet(way.tags)
  {
    assert IsKind(way.tags, r.kind);
  }

  /** A road that a permitting segment draws. */
  ghost function Drawn(id: int, way: Way, i: nat, e: Edge): (r: Road)
    requires Permits(way, i, e)
    ensures Draws(r, id, way, i) && (PermitsForward(way.tags) || PermitsBackward(way.tags))
  {
    hide IntText, AdmitsCars, PermitsForward, PermitsBackward, Node, IsKind;
    var kind :| IsKind(way.tags, kind);
    var u, v := Node(way.members[i]), Node(way.members[i + 1]);
    var name := "osm-way-" + IntText(id) + "-" + IntText(i);
    if PermitsForward(way.tags) then Road(name, u, v, kind, !PermitsBackward(way.tags))
    else Road(name, v, u, kind, true)
  }

  ghost function DrawnV2(id: int, way: Way, i: nat, e: Edge): (r: RoadV2)
    requires Permits(way, i, e)
    ensures DrawsV2(r, id, way, i)
  {
    hide IntText, AdmitsCars, PermitsForward, PermitsBackward, Node, IsKind;
    var kind :| IsKind(way.tags, kind);
    var u, v := way.members[i], way.members[i + 1];
    RoadV2("osm-way-" + IntText(id) + "-" + IntText(u) + "-" + IntText(v), Node(u), Node(v), kind,
           (if PermitsForward(way.tags) then [Forward] else [])
           + (if PermitsBackward(way.tags) then [Backward] else []))
  }

  lemma {:induction false} StreetDrivable(ids: seq<int>, x: Extract, id: int)
    requires (forall id <- ids :: id in x.ways) && DraftOf(ids, x).Success? && id in ids
    ensures IsStreet(x.ways[id].tags) ==> PermitsForward(x.ways[id].tags) || PermitsBackward(x.ways[id].tags)
  {
    hide Screen, WithSegments, IsStreet, PermitsForward, PermitsBackward;
    var front, last := ids[..|ids| - 1], ids[|ids| - 1];
    assert ids == front + [last];
    if id == last {
      StreetRead(x.ways[last], x.nodes, DraftOf(front, x).value.references);
    } else {
      StreetDrivable(front, x, id);
    }
  }

  /** Schema 1: one node is reached from another along a drafted road exactly when some way that is a street for cars
      has them as neighbours and its tags permit that direction. */
  lemma TravelExact(ids: seq<int>, x: Extract, e: Edge)
    requires (forall id <- ids :: id in x.ways) && DraftOf(ids, x).Success?
    ensures e in Edges(DraftOf(ids, x).value.roads, Travel) <==>
            exists id, i: nat :: id in ids && Permits(x.ways[id], i, e)
  {
    hide DraftOf, Travel, Draws, Permits, Edges;
    var roads := DraftOf(ids, x).value.roads;
    EdgeHasRoad(roads, Travel, e);
    if r :| r in roads && e in Travel(r) {
      DraftedRoadsExact(ids, x, r);
      var id, i: nat :| id in ids && Draws(r, id, x.ways[id], i);
      DrawnStreet(r, id, x.ways[id], i);
      StreetDrivable(ids, x, id);
      RoadPermits(r, id, x.ways[id], i, e);
    } else if id, i: nat :| id in ids && Permits(x.ways[id], i, e) {
      var r := Drawn(id, x.ways[id], i, e);
      DraftedRoadsExact(ids, x, r);
      RoadPermits(r, id, x.ways[id], i, e);
    }
  }

  /** Schema 2: one node is reached from another along a drafted road exactly when some way that is a street for cars
      has them as neighbours and its tags permit that direction. */
  lemma TravelExactV2(ids: seq<int>, x: Extract, e: Edge)
    requires (forall id <- ids :: id in x.ways) && DraftOfV2(ids, x).Success?
    ensures e in Edges(DraftOfV2(ids, x).value.roads, TravelV2) <==>
            exists id, i: nat :: id in ids && Permits(x.ways[id], i, e)
  {
    hide DraftOfV2, TravelV2, DrawsV2, Permits, Edges;
    var roads := DraftOfV2(ids, x).value.roads;
    EdgeHasRoad(roads, TravelV2, e);
    if r :| r in roads && e in TravelV2(r) {
      DraftedRoadsExactV2(ids, x, r);
      var id, i: nat :| id in ids && DrawsV2(r, id, x.ways[id], i);
      RoadPermitsV2(r, id, x.ways[id], i, e);
    } else if id, i: nat :| id in ids && Permits(x.ways[id], i, e) {
      var r := DrawnV2(id, x.ways[id], i, e);
      DraftedRoadsExactV2(ids, x, r);
      RoadPermitsV2(r, id, x.ways[id], i, e);
    }
  }
}
