/** Drafting roads from ways: each way that may be driven becomes one road for every two neighbours among its
    nodes. Schema 1 draws a street that runs against its way with its ends swapped; schema 2 keeps the ends
    and marks it backward instead, and records the ways it used. Both refuse unknown nodes, loops and too many
    segments, in the order of the way identifiers. */
module OsmDraft {
  import opened Results
  import opened Orders
  import opened Decimals
  import opened Digraphs
  import opened Roads
  import opened OsmTags
  import opened OsmExtract

  const MAX_MEMBERS := 100_000
  const MAX_SEGMENTS := 20_000

  function NodeName(id: int): NodeId {
    "osm-node-" + IntText(id)
  }

  function NodeNames(ids: set<int>): set<NodeId> {
    set id | id in ids :: NodeName(id)
  }

  // --- What both schemas ask of a way ---

  datatype Screening = NotRoad | ClosedToCars(flow: Flow) | Street(kind: RoadKind, flow: Flow)

  function Screen(way: Way, nodes: map<int, Place>, references: nat): (r: Result<Screening, ImportError>)
    ensures r.Success? ==> |way.members| >= 2 && forall m <- way.members :: PositiveId(m) && m in nodes
  {
    if |way.members| < 2 then Failure(ShortWay)
    else if |way.members| > MAX_MEMBERS - references then Failure(TooManyMembers)
    else if exists m <- way.members :: !PositiveId(m) then Failure(InvalidIdentifier)
    else if exists m <- way.members :: m !in nodes then Failure(MissingNode)
    else
      match RoadClass(way.tags)
      case None => Success(NotRoad)
      case Some(kind) =>
        var flow :- FlowOf(way.tags);
        Success(if AllowsCar(way.tags) then Street(kind, flow) else ClosedToCars(flow))
  }

  // --- Schema 1 ---

  datatype Draft = Draft(roads: seq<Road>, used: set<int>, references: nat)

  /** Schema 1 draws a street against its line by swapping the end points. */
  function Segment(id: int, members: seq<int>, street: Screening, i: nat): Road
    requires street.Street? && i + 1 < |members|
  {
    var source := if street.flow == AgainstDrawn then members[i + 1] else members[i];
    var target := if street.flow == AgainstDrawn then members[i] else members[i + 1];
    Road("osm-way-" + IntText(id) + "-" + IntText(i), NodeName(source), NodeName(target), street.kind,
         street.flow != BothWays)
  }

  /** The draft after the first `k` segments of a street. */
  function WithSegments(draft: Draft, id: int, members: seq<int>, street: Screening, k: nat): Result<Draft, ImportError>
    requires street.Street? && k < |members|
  {
    if k == 0 then Success(draft)
    else
      var before :- WithSegments(draft, id, members, street, k - 1);
      var road := Segment(id, members, street, k - 1);
      if road.source == road.target then Failure(InvalidGeometry)
      else Success(Draft(before.roads + [road], before.used + {members[k - 1], members[k]}, before.references))
  }

  function WithWay(draft: Draft, id: int, way: Way, nodes: map<int, Place>): Result<Draft, ImportError> {
    var screening :- Screen(way, nodes, draft.references);
    var counted := draft.(references := draft.references + |way.members|);
    if !screening.Street? then Success(counted)
    else if |way.members| - 1 > MAX_SEGMENTS - |draft.roads| then Failure(TooManySegments)
    else WithSegments(counted, id, way.members, screening, |way.members| - 1)
  }

  function DraftOf(ids: seq<int>, x: Extract): Result<Draft, ImportError>
    requires forall id <- ids :: id in x.ways
  {
    if ids == [] then Success(Draft([], {}, 0))
    else
      var before :- DraftOf(ids[..|ids| - 1], x);
      WithWay(before, ids[|ids| - 1], x.ways[ids[|ids| - 1]], x.nodes)
  }

  // --- Schema 2 ---

  datatype SourceWay = SourceWay(id: int, nodes: seq<int>, tags: Tags)

  datatype DraftV2 = DraftV2(roads: seq<RoadV2>, used: set<int>, references: nat, roadIds: set<string>,
                             sourceNodes: set<int>, sourceWays: seq<SourceWay>, eligible: nat)

  function DirectionsOf(flow: Flow): seq<Direction> {
    match flow
    case BothWays => [Forward, Backward]
    case AsDrawn => [Forward]
    case AgainstDrawn => [Backward]
  }

  /** Schema 2 keeps the line as drawn and names the segment by its end points. */
  function SegmentV2(id: int, members: seq<int>, street: Screening, i: nat): RoadV2
    requires street.Street? && i + 1 < |members|
  {
    RoadV2("osm-way-" + IntText(id) + "-" + IntText(members[i]) + "-" + IntText(members[i + 1]),
           NodeName(members[i]), NodeName(members[i + 1]), street.kind, DirectionsOf(street.flow))
  }

  function WithSegmentsV2(draft: DraftV2, id: int, members: seq<int>, street: Screening,
                          k: nat): Result<DraftV2, ImportError>
    requires street.Street? && k < |members|
  {
    if k == 0 then Success(draft)
    else
      var before :- WithSegmentsV2(draft, id, members, street, k - 1);
      var road := SegmentV2(id, members, street, k - 1);
      if road.roadId in before.roadIds then Failure(RepeatedSegment)
      else if road.source == road.target then Failure(InvalidGeometry)
      else Success(before.(roads := before.roads + [road], used := before.used + {members[k - 1], members[k]},
                           roadIds := before.roadIds + {road.roadId}))
  }

  function Recorded(draft: DraftV2, id: int, way: Way): DraftV2 {
    draft.(references := draft.references + |way.members|,
           sourceNodes := draft.sourceNodes + Elements(way.members),
           sourceWays := draft.sourceWays + [SourceWay(id, way.members, RelevantTags(way.tags))])
  }

  function WithWayV2(draft: DraftV2, id: int, way: Way, nodes: map<int, Place>): Result<DraftV2, ImportError> {
    var screening :- Screen(way, nodes, draft.references);
    if screening.NotRoad? then Success(draft.(references := draft.references + |way.members|))
    else
      var recorded := Recorded(draft, id, way);
      if !screening.Street? then Success(recorded)
      else if |way.members| - 1 > MAX_SEGMENTS - |draft.roads| then Failure(TooManySegments)
      else WithSegmentsV2(recorded.(eligible := draft.eligible + 1), id, way.members, screening, |way.members| - 1)
  }

  function DraftOfV2(ids: seq<int>, x: Extract): Result<DraftV2, ImportError>
    requires forall id <- ids :: id in x.ways
  {
    if ids == [] then Success(DraftV2([], {}, 0, {}, {}, [], 0))
    else
      var before :- DraftOfV2(ids[..|ids| - 1], x);
      WithWayV2(before, ids[|ids| - 1], x.ways[ids[|ids| - 1]], x.nodes)
  }

  // --- The two loops ---

  /** Ways are taken in increasing identifier order. */
  ghost function WayOrder(x: Extract): (ids: seq<int>)
    ensures Elements(ids) == x.ways.Keys && Distinct(ids) && Ascending(ids, IntLeq)
    ensures forall id <- ids :: id in x.ways
  {
    IntOrder();
    var ids := Sorted(x.ways.Keys, IntLeq);
    assert forall id <- ids :: id in Elements(ids);
    ids
  }

  lemma {:induction false} SegmentsFailureStays(draft: Draft, id: int, members: seq<int>, street: Screening, k: nat,
                                                n: nat)
    requires street.Street? && k <= n < |members| && WithSegments(draft, id, members, street, k).Failure?
    ensures WithSegments(draft, id, members, street, n) == WithSegments(draft, id, members, street, k)
  {
    hide Segment;
    if k < n {
      SegmentsFailureStays(draft, id, members, street, k, n - 1);
    }
  }

  lemma {:induction false} WayFailureStays(ids: seq<int>, x: Extract, k: nat)
    requires (forall id <- ids :: id in x.ways) && k <= |ids| && DraftOf(ids[..k], x).Failure?
    ensures DraftOf(ids, x) == DraftOf(ids[..k], x)
  {
    hide WithWay;
    if k < |ids| {
      var front := ids[..|ids| - 1];
      assert front[..k] == ids[..k];
      WayFailureStays(front, x, k);
    } else {
      assert ids[..k] == ids;
    }
  }

  lemma {:induction false} SegmentsFailureStaysV2(draft: DraftV2, id: int, members: seq<int>, street: Screening,
                                                  k: nat, n: nat)
    requires street.Street? && k <= n < |members| && WithSegmentsV2(draft, id, members, street, k).Failure?
    ensures WithSegmentsV2(draft, id, members, street, n) == WithSegmentsV2(draft, id, members, street, k)
  {
    hide SegmentV2;
    if k < n {
      SegmentsFailureStaysV2(draft, id, members, street, k, n - 1);
    }
  }

  lemma {:induction false} WayFailureStaysV2(ids: seq<int>, x: Extract, k: nat)
    requires (forall id <- ids :: id in x.ways) && k <= |ids| && DraftOfV2(ids[..k], x).Failure?
    ensures DraftOfV2(ids, x) == DraftOfV2(ids[..k], x)
  {
    hide WithWayV2;
    if k < |ids| {
      var front := ids[..|ids| - 1];
      assert front[..k] == ids[..k];
      WayFailureStaysV2(front, x, k);
    } else {
      assert ids[..k] == ids;
    }
  }

  method AddWay(draft: Draft, id: int, way: Way, nodes: map<int, Place>) returns (r: Result<Draft, ImportError>)
    ensures r == WithWay(draft, id, way, nodes)
  {
    hide Segment, Screen;
    var screening := Screen(way, nodes, draft.references);
    if screening.Failure? {
      return Failure(screening.error);
    }
    var street := screening.value;
    var counted := draft.(references := draft.references + |way.members|);
    if !street.Street? {
      return Success(counted);
    }
    if |way.members| - 1 > MAX_SEGMENTS - |draft.roads| {
      return Failure(TooManySegments);
    }
    var last := |way.members| - 1;
    var roads, used := counted.roads, counted.used;
    for i := 0 to last
      invariant WithSegments(counted, id, way.members, street, i) == Success(Draft(roads, used, counted.references))
    {
      var road := Segment(id, way.members, street, i);
      if road.source == road.target {
        SegmentsFailureStays(counted, id, way.members, street, i + 1, last);
        return Failure(InvalidGeometry);
      }
      roads := roads + [road];
      used := used + {way.members[i], way.members[i + 1]};
    }
    r := Success(Draft(roads, used, counted.references));
  }

  method AddWayV2(draft: DraftV2, id: int, way: Way, nodes: map<int, Place>) returns (r: Result<DraftV2, ImportError>)
    ensures r == WithWayV2(draft, id, way, nodes)
  {
    hide SegmentV2, Screen;
    var screening := Screen(way, nodes, draft.references);
    if screening.Failure? {
      return Failure(screening.error);
    }
    var street := screening.value;
    if street.NotRoad? {
      return Success(draft.(references := draft.references + |way.members|));
    }
    var recorded := Recorded(draft, id, way);
    if !street.Street? {
      return Success(recorded);
    }
    if |way.members| - 1 > MAX_SEGMENTS - |draft.roads| {
      return Failure(TooManySegments);
    }
    var last := |way.members| - 1;
    ghost var counted := recorded.(eligible := draft.eligible + 1);
    var current := recorded.(eligible := draft.eligible + 1);
    for i := 0 to last
      invariant WithSegmentsV2(counted, id, way.members, street, i) == Success(current)
    {
      var road := SegmentV2(id, way.members, street, i);
      if road.roadId in current.roadIds {
        SegmentsFailureStaysV2(counted, id, way.members, street, i + 1, last);
        return Failure(RepeatedSegment);
      }
      if road.source == road.target {
        SegmentsFailureStaysV2(counted, id, way.members, street, i + 1, last);
        return Failure(InvalidGeometry);
      }
      current := current.(roads := current.roads + [road], used := current.used + {way.members[i], way.members[i + 1]},
                          roadIds := current.roadIds + {road.roadId});
    }
    r := Success(current);
  }

  method ListWays(x: Extract) returns (ids: seq<int>)
    ensures ids == WayOrder(x)
  {
    IntOrder();
    ids := SortedSet(x.ways.Keys, IntLeq);
  }

  method DraftInOrder(ids: seq<int>, x: Extract) returns (r: Result<Draft, ImportError>)
    requires forall id <- ids :: id in x.ways
    ensures r == DraftOf(ids, x)
  {
    hide WithWay;
    var draft := Draft([], {}, 0);
    for k := 0 to |ids|
      invariant DraftOf(ids[..k], x) == Success(draft)
    {
      assert ids[..k + 1][..k] == ids[..k];
      var next := AddWay(draft, ids[k], x.ways[ids[k]], x.nodes);
      if next.Failure? {
        WayFailureStays(ids, x, k + 1);
        return next;
      }
      draft := next.value;
    }
    assert ids[..|ids|] == ids;
    r := Success(draft);
  }

  method DraftRoads(x: Extract) returns (r: Result<Draft, ImportError>)
    ensures r == DraftOf(WayOrder(x), x)
  {
    hide DraftOf;
    var ids := ListWays(x);
    r := DraftInOrder(ids, x);
  }

  method DraftInOrderV2(ids: seq<int>, x: Extract) returns (r: Result<DraftV2, ImportError>)
    requires forall id <- ids :: id in x.ways
    ensures r == DraftOfV2(ids, x)
  {
    hide WithWayV2;
    var draft := DraftV2([], {}, 0, {}, {}, [], 0);
    for k := 0 to |ids|
      invariant DraftOfV2(ids[..k], x) == Success(draft)
    {
      assert ids[..k + 1][..k] == ids[..k];
      var next := AddWayV2(draft, ids[k], x.ways[ids[k]], x.nodes);
      if next.Failure? {
        WayFailureStaysV2(ids, x, k + 1);
        return next;
      }
      draft := next.value;
    }
    assert ids[..|ids|] == ids;
    r := Success(draft);
  }

  method DraftRoadsV2(x: Extract) returns (r: Result<DraftV2, ImportError>)
    ensures r == DraftOfV2(WayOrder(x), x)
  {
    hide DraftOfV2;
    var ids := ListWays(x);
    r := DraftInOrderV2(ids, x);
  }

  // --- What the drafts hold ---

  /** The drafted roads join used nodes, and every used node is known and has a road. */
  ghost predicate RoadsSound<R>(roads: seq<R>, ends: R -> Edge, used: set<int>, nodes: map<int, Place>) {
    && EndpointsIn(roads, ends, NodeNames(used))
    && used <= nodes.Keys
    && (forall id <- used :: PositiveId(id) && Touched(roads, ends, NodeName(id)))
    && (forall r <- roads :: ends(r).0 != ends(r).1)
  }

  ghost predicate Touched<R>(roads: seq<R>, ends: R -> Edge, node: NodeId) {
    exists r :: r in roads && (ends(r).0 == node || ends(r).1 == node)
  }

  /** Schema 1 and schema 2 drew the same segment: the same line, the same class, travelled the same way. */
  ghost predicate SameStreet(r: Road, s: RoadV2) {
    && Travel(r) == TravelV2(s) && r.kind == s.kind
    && (Ends(r) == EndsV2(s) || Ends(r) == (EndsV2(s).1, EndsV2(s).0))
  }

  ghost predicate SameStreets(roads: seq<Road>, roadsV2: seq<RoadV2>) {
    |roads| == |roadsV2| && forall i :: 0 <= i < |roads| ==> SameStreet(roads[i], roadsV2[i])
  }

  ghost predicate DraftsAgree(d: Draft, e: DraftV2) {
    SameStreets(d.roads, e.roads) && d.used == e.used && d.references == e.references
  }

  lemma SegmentsSameStreet(id: int, members: seq<int>, street: Screening, i: nat)
    requires street.Street? && i + 1 < |members|
    ensures SameStreet(Segment(id, members, street, i), SegmentV2(id, members, street, i))
    ensures Segment(id, members, street, i).source == Segment(id, members, street, i).target <==>
            SegmentV2(id, members, street, i).source == SegmentV2(id, members, street, i).target
  {
    var u, v := NodeName(members[i]), NodeName(members[i + 1]);
    hide NodeName, IntText;
    assert Travel(Segment(id, members, street, i)) == TravelV2(SegmentV2(id, members, street, i));
  }

  lemma {:induction false} SegmentsAgree(d: Draft, e: DraftV2, id: int, members: seq<int>, street: Screening, k: nat)
    requires street.Street? && k < |members| && DraftsAgree(d, e)
    requires WithSegmentsV2(e, id, members, street, k).Success?
    ensures WithSegments(d, id, members, street, k).Success?
    ensures DraftsAgree(WithSegments(d, id, members, street, k).value, WithSegmentsV2(e, id, members, street, k).value)
  {
    hide Segment, SegmentV2, SameStreet;
    if k > 0 {
      SegmentsAgree(d, e, id, members, street, k - 1);
      SegmentsSameStreet(id, members, street, k - 1);
    }
  }

  lemma WayAgrees(d: Draft, e: DraftV2, id: int, way: Way, nodes: map<int, Place>)
    requires DraftsAgree(d, e) && WithWayV2(e, id, way, nodes).Success?
    ensures WithWay(d, id, way, nodes).Success?
    ensures DraftsAgree(WithWay(d, id, way, nodes).value, WithWayV2(e, id, way, nodes).value)
  {
    hide Screen, WithSegments, WithSegmentsV2, SameStreet, RelevantTags;
    var screening := Screen(way, nodes, d.references).value;
    if screening.Street? {
      var counted := d.(references := d.references + |way.members|);
      var recorded := Recorded(e, id, way).(eligible := e.eligible + 1);
      SegmentsAgree(counted, recorded, id, way.members, screening, |way.members| - 1);
    }
  }

  /** Whatever schema 2 drafts, schema 1 drafts as the same streets. */
  lemma {:induction false} DraftsAgreeThroughout(ids: seq<int>, x: Extract)
    requires (forall id <- ids :: id in x.ways) && DraftOfV2(ids, x).Success?
    ensures DraftOf(ids, x).Success? && DraftsAgree(DraftOf(ids, x).value, DraftOfV2(ids, x).value)
  {
    if ids != [] {
      hide WithWay, WithWayV2, DraftsAgree;
      var front, id := ids[..|ids| - 1], ids[|ids| - 1];
      DraftsAgreeThroughout(front, x);
      WayAgrees(DraftOf(front, x).value, DraftOfV2(front, x).value, id, x.ways[id], x.nodes);
    }
  }

  lemma SegmentEnds(id: int, members: seq<int>, street: Screening, i: nat)
    requires street.Street? && i + 1 < |members|
    ensures var e := Ends(Segment(id, members, street, i));
            e == (NodeName(members[i]), NodeName(members[i + 1]))
            || e == (NodeName(members[i + 1]), NodeName(members[i]))
  {
    hide NodeName, IntText;
  }

  lemma LastSegment(d: Draft, id: int, members: seq<int>, street: Screening, k: nat)
    requires street.Street? && 0 < k < |members| && WithSegments(d, id, members, street, k).Success?
    ensures WithSegments(d, id, members, street, k - 1).Success?
    ensures var before, after := WithSegments(d, id, members, street, k - 1).value,
                                 WithSegments(d, id, members, street, k).value;
            var road := Segment(id, members, street, k - 1);
            && after.roads == before.roads + [road] && after.used == before.used + {members[k - 1], members[k]}
            && road.source != road.target
  {
    hide Segment;
  }

  lemma {:induction false} SegmentsSound(d: Draft, id: int, members: seq<int>, street: Screening, k: nat,
                                         nodes: map<int, Place>)
    requires street.Street? && k < |members| && RoadsSound(d.roads, Ends, d.used, nodes)
    requires forall m <- members :: PositiveId(m) && m in nodes
    requires WithSegments(d, id, members, street, k).Success?
    ensures var r := WithSegments(d, id, members, street, k).value;
            RoadsSound(r.roads, Ends, r.used, nodes) && |r.roads| == |d.roads| + k
    decreases k
  {
    hide RoadsSound, Segment, NodeName, PositiveId;
    if k > 0 {
      LastSegment(d, id, members, street, k);
      SegmentEnds(id, members, street, k - 1);
      hide WithSegments;
      SegmentsSound(d, id, members, street, k - 1, nodes);
      var before := WithSegments(d, id, members, street, k - 1).value;
      AddedSegmentSound(before.roads, Ends, before.used, nodes, Segment(id, members, street, k - 1), members[k - 1],
                        members[k]);
    }
  }

  lemma WaySound(d: Draft, id: int, way: Way, nodes: map<int, Place>)
    requires RoadsSound(d.roads, Ends, d.used, nodes) && |d.roads| <= MAX_SEGMENTS
    requires WithWay(d, id, way, nodes).Success?
    ensures var r := WithWay(d, id, way, nodes).value;
            RoadsSound(r.roads, Ends, r.used, nodes) && |r.roads| <= MAX_SEGMENTS
  {
    hide Screen, WithSegments, RoadsSound, RelevantTags;
    var screening := Screen(way, nodes, d.references).value;
    if screening.Street? {
      var counted := d.(references := d.references + |way.members|);
      SegmentsSound(counted, id, way.members, screening, |way.members| - 1, nodes);
    }
  }

  lemma {:induction false} DraftSound(ids: seq<int>, x: Extract)
    requires (forall id <- ids :: id in x.ways) && DraftOf(ids, x).Success?
    ensures var r := DraftOf(ids, x).value;
            RoadsSound(r.roads, Ends, r.used, x.nodes) && |r.roads| <= MAX_SEGMENTS
  {
    if ids != [] {
      hide WithWay, RoadsSound;
      var front, id := ids[..|ids| - 1], ids[|ids| - 1];
      DraftSound(front, x);
      WaySound(DraftOf(front, x).value, id, x.ways[id], x.nodes);
    }
  }

  lemma SegmentEndsV2(id: int, members: seq<int>, street: Screening, i: nat)
    requires street.Street? && i + 1 < |members|
    ensures var e := EndsV2(SegmentV2(id, members, street, i));
            e == (NodeName(members[i]), NodeName(members[i + 1]))
            || e == (NodeName(members[i + 1]), NodeName(members[i]))
  {
    hide NodeName, IntText;
  }

  lemma LastSegmentV2(d: DraftV2, id: int, members: seq<int>, street: Screening, k: nat)
    requires street.Street? && 0 < k < |members| && WithSegmentsV2(d, id, members, street, k).Success?
    ensures WithSegmentsV2(d, id, members, street, k - 1).Success?
    ensures var before, after := WithSegmentsV2(d, id, members, street, k - 1).value,
                                 WithSegmentsV2(d, id, members, street, k).value;
            var road := SegmentV2(id, members, street, k - 1);
            && after.roads == before.roads + [road] && after.used == before.used + {members[k - 1], members[k]}
            && road.source != road.target
  {
    hide SegmentV2;
  }

  lemma {:induction false} SegmentsSoundV2(d: DraftV2, id: int, members: seq<int>, street: Screening, k: nat,
                                           nodes: map<int, Place>)
    requires street.Street? && k < |members| && RoadsSound(d.roads, EndsV2, d.used, nodes)
    requires forall m <- members :: PositiveId(m) && m in nodes
    requires WithSegmentsV2(d, id, members, street, k).Success?
    ensures var r := WithSegmentsV2(d, id, members, street, k).value;
            RoadsSound(r.roads, EndsV2, r.used, nodes) && |r.roads| == |d.roads| + k
    decreases k
  {
    hide RoadsSound, SegmentV2, NodeName, PositiveId;
    if k > 0 {
      LastSegmentV2(d, id, members, street, k);
      SegmentEndsV2(id, members, street, k - 1);
      hide WithSegmentsV2;
      SegmentsSoundV2(d, id, members, street, k - 1, nodes);
      var before := WithSegmentsV2(d, id, members, street, k - 1).value;
      AddedSegmentSound(before.roads, EndsV2, before.used, nodes, SegmentV2(id, members, street, k - 1),
                        members[k - 1], members[k]);
    }
  }

  lemma WaySoundV2(d: DraftV2, id: int, way: Way, nodes: map<int, Place>)
    requires RoadsSound(d.roads, EndsV2, d.used, nodes) && |d.roads| <= MAX_SEGMENTS
    requires WithWayV2(d, id, way, nodes).Success?
    ensures var r := WithWayV2(d, id, way, nodes).value;
            RoadsSound(r.roads, EndsV2, r.used, nodes) && |r.roads| <= MAX_SEGMENTS
  {
    hide Screen, WithSegmentsV2, RoadsSound, RelevantTags;
    var screening := Screen(way, nodes, d.references).value;
    if screening.Street? {
      var counted := Recorded(d, id, way).(eligible := d.eligible + 1);
      SegmentsSoundV2(counted, id, way.members, screening, |way.members| - 1, nodes);
    }
  }

  lemma {:induction false} DraftSoundV2(ids: seq<int>, x: Extract)
    requires (forall id <- ids :: id in x.ways) && DraftOfV2(ids, x).Success?
    ensures var r := DraftOfV2(ids, x).value;
            RoadsSound(r.roads, EndsV2, r.used, x.nodes) && |r.roads| <= MAX_SEGMENTS
  {
    if ids != [] {
      hide WithWayV2, RoadsSound;
      var front, id := ids[..|ids| - 1], ids[|ids| - 1];
      DraftSoundV2(front, x);
      WaySoundV2(DraftOfV2(front, x).value, id, x.ways[id], x.nodes);
    }
  }

  lemma AddedSegmentSound<R>(roads: seq<R>, ends: R -> Edge, used: set<int>, nodes: map<int, Place>, road: R, u: int,
                             v: int)
    requires RoadsSound(roads, ends, used, nodes)
    requires ends(road) == (NodeName(u), NodeName(v)) || ends(road) == (NodeName(v), NodeName(u))
    requires ends(road).0 != ends(road).1 && PositiveId(u) && PositiveId(v) && u in nodes && v in nodes
    ensures RoadsSound(roads + [road], ends, used + {u, v}, nodes)
  {
    hide NodeName;
    assert NodeNames(used + {u, v}) == NodeNames(used) + {NodeName(u), NodeName(v)};
    forall id | id in used + {u, v} ensures Touched(roads + [road], ends, NodeName(id)) {
      if id in used {
        assert Touched(roads, ends, NodeName(id));
        var r :| r in roads && (ends(r).0 == NodeName(id) || ends(r).1 == NodeName(id));
        assert r in roads + [road];
      } else {
        assert road in roads + [road];
      }
    }
  }
}
