/** When an extract can be converted at all, told by its elements and ways alone: what keeps a node, a relation or
    a street out, read off the text of the tags' keys; which lists of elements are collected; and which lists of
    ways are drafted under either schema. A key `mode:…` is taken apart by its colons in the code; here it is the
    text before the first colon, after the last, or between two that counts. The refusals are exact, so that
    together with the limits they say of every extract whether it becomes a draft. */
module OsmAcceptance {
  import opened Results
  import opened Orders
  import opened Decimals
  import opened Digraphs
  import opened Roads
  import opened OsmTags
  import opened OsmExtract
  import opened OsmDraft
  import opened OsmImport
  import opened OsmStreets

  // --- Keys, read as text ---

  predicate StartsWith(text: string, start: string) {
    |start| <= |text| && text[..|start|] == start
  }

  predicate EndsWith(text: string, end: string) {
    |end| <= |text| && text[|text| - |end|..] == end
  }

  /** The key names the mode or narrows it down: `mode` or `mode:…`. */
  predicate Concerns(key: string, mode: string) {
    key == mode || StartsWith(key, mode + ":")
  }

  lemma {:induction false} FirstPart(key: string, mode: string)
    requires ':' !in mode
    ensures Parts(key)[0] == mode <==> Concerns(key, mode)
    ensures |Parts(key)| == 1 && Parts(key)[0] == mode <==> key == mode
  {
    if key != [] && mode != [] {
      HeadAndTail(key, mode);
      HeadAndTail(key, mode + ":");
      assert (mode + ":")[1..] == mode[1..] + ":" && mode[0] in mode;
      if key[0] != ':' {
        FirstPart(key[1..], mode[1..]);
      }
    } else if key != [] {
      assert mode + ":" == ":";
    }
  }

  lemma HeadAndTail(key: string, start: string)
    requires key != [] && start != []
    ensures key == start <==> key[0] == start[0] && key[1..] == start[1..]
    ensures StartsWith(key, start) <==> key[0] == start[0] && StartsWith(key[1..], start[1..])
  {
    assert key == [key[0]] + key[1..] && start == [start[0]] + start[1..];
    if |start| <= |key| {
      assert key[..|start|] == [key[0]] + key[1..][..|start| - 1];
    }
  }

  lemma EndOfRest(key: string, end: string)
    requires key != [] && end != []
    ensures EndsWith(key, end) <==> EndsWith(key[1..], end) || key == end
  {
    if |key| > |end| {
      assert key[|key| - |end|..] == key[1..][|key| - 1 - |end|..];
    } else if |key| == |end| {
      assert key[0..] == key;
    }
  }

  lemma ColonWord(key: string, word: string)
    requires key != []
    ensures key == ":" + word <==> key[0] == ':' && key[1..] == word
  {
    assert key == [key[0]] + key[1..] && (":" + word)[1..] == word;
  }

  /** With a colon in it, a key ends in a word exactly when that word is its last part. */
  lemma {:induction false} LastPart(key: string, word: string)
    requires ':' !in word
    ensures |Parts(key)| > 1 && Parts(key)[|Parts(key)| - 1] == word <==> EndsWith(key, ":" + word)
    ensures |Parts(key)| == 1 ==> Parts(key)[0] == key
    ensures key == word ==> |Parts(key)| == 1
    ensures |Parts(key)| == 1 <==> ':' !in key
  {
    if key != [] {
      hide EndsWith;
      var rest := key[1..];
      LastPart(rest, word);
      EndOfRest(key, ":" + word);
      ColonWord(key, word);
      assert key == [key[0]] + rest;
    }
  }

  /** After some colon of the key the word follows, up to the next colon or the end. */
  ghost predicate HasPart(key: string, word: string) {
    exists i :: 0 <= i < |key| && key[i] == ':' && Concerns(key[i + 1..], word)
  }

  lemma {:induction false} LaterPart(key: string, word: string)
    requires ':' !in word
    ensures word in Parts(key)[1..] <==> HasPart(key, word)
  {
    if key != [] {
      var rest := key[1..];
      LaterPart(rest, word);
      FirstPart(rest, word);
      hide Concerns;
      var parts := Parts(rest);
      assert parts == [parts[0]] + parts[1..];
      assert Parts(key)[1..] == if key[0] == ':' then parts else parts[1..];
      if i :| 0 <= i < |rest| && rest[i] == ':' && Concerns(rest[i + 1..], word) {
        assert key[i + 1] == ':' && key[i + 1 + 1..] == rest[i + 1..];
      }
      if i :| 0 <= i < |key| && key[i] == ':' && Concerns(key[i + 1..], word) {
        if i > 0 {
          assert rest[i - 1] == ':' && rest[i - 1 + 1..] == key[i + 1..];
        }
      }
    }
  }

  // --- What keeps a street out ---

  ghost predicate IsMode(mode: string) {
    mode in ACCESS_KEYS
  }

  /** Access or one-way travel depends on a condition. */
  ghost predicate HasCondition(tags: Tags) {
    exists key, mode :: key in tags && (IsMode(mode) || mode == "oneway") && Concerns(key, mode)
                        && EndsWith(key, ":conditional")
  }

  /** Access depends on the direction of travel. */
  ghost predicate HasDirection(tags: Tags) {
    exists key, mode :: key in tags && IsMode(mode) && Concerns(key, mode)
                        && (HasPart(key, "forward") || HasPart(key, "backward"))
  }

  /** Access is narrowed down in some other way. */
  ghost predicate HasScope(tags: Tags) {
    exists key, mode :: key in tags && IsMode(mode) && StartsWith(key, mode + ":")
  }

  ghost predicate OneWayKnown(tags: Tags) {
    NonePresent(tags, ONE_WAY_KEYS) || Says(tags, ONE_WAY_KEYS, {"yes", "true", "1", "-1", "no", "false", "0"})
  }

  ghost predicate Tells(tags: Tags) {
    "barrier" !in tags && !HasCondition(tags) && !HasScope(tags) && OneWayKnown(tags)
  }

  lemma ModeNames(mode: string)
    ensures IsMode(mode) <==> mode in ACCESS
    ensures IsMode(mode) || mode == "oneway" <==> mode in RESTRICTIONS
    ensures mode in RESTRICTIONS ==> ':' !in mode && mode != "conditional"
  {
    assert "access"[0] == 'a' && "vehicle"[0] == 'v' && "motorcar"[0] == 'm' && "motor_vehicle"[0] == 'm'
           && "oneway"[0] == 'o';
  }

  lemma ConditionRead(key: string, mode: string)
    requires mode in RESTRICTIONS
    ensures var p := Parts(key);
            p[0] == mode && p[|p| - 1] == "conditional" <==> Concerns(key, mode) && EndsWith(key, ":conditional")
  {
    hide Parts, Concerns, EndsWith, RESTRICTIONS;
    ModeNames(mode);
    FirstPart(key, mode);
    LastPart(key, "conditional");
    assert ":" + "conditional" == ":conditional";
  }

  lemma ScopeRead(key: string, mode: string)
    requires mode in ACCESS
    ensures Parts(key)[0] == mode && |Parts(key)| > 1 <==> StartsWith(key, mode + ":")
    ensures Parts(key)[0] == mode && ("forward" in Parts(key)[1..] || "backward" in Parts(key)[1..]) <==>
            Concerns(key, mode) && (HasPart(key, "forward") || HasPart(key, "backward"))
  {
    hide Parts, ACCESS, HasPart;
    ModeNames(mode);
    FirstPart(key, mode);
    LaterPart(key, "forward");
    LaterPart(key, "backward");
    assert mode != mode + ":";
  }

  lemma ConditionsRead(tags: Tags)
    ensures HasCondition(tags) <==>
            exists key <- tags.Keys :: var p := Parts(key); p[0] in RESTRICTIONS && p[|p| - 1] == "conditional"
  {
    hide Parts, Concerns, EndsWith, RESTRICTIONS, IsMode;
    forall mode ensures IsMode(mode) || mode == "oneway" <==> mode in RESTRICTIONS {
      ModeNames(mode);
    }
    forall key, mode | mode in RESTRICTIONS
      ensures var p := Parts(key);
              p[0] == mode && p[|p| - 1] == "conditional" <==> Concerns(key, mode) && EndsWith(key, ":conditional")
    {
      ConditionRead(key, mode);
    }
  }

  lemma ScopesRead(tags: Tags)
    ensures HasScope(tags) <==> exists key <- tags.Keys :: var p := Parts(key); p[0] in ACCESS && |p| > 1
    ensures HasDirection(tags) <==>
            exists key <- tags.Keys ::
              var p := Parts(key); p[0] in ACCESS && ("forward" in p[1..] || "backward" in p[1..])
  {
    hide Parts, Concerns, StartsWith, HasPart, ACCESS, IsMode;
    forall mode ensures IsMode(mode) <==> mode in ACCESS {
      ModeNames(mode);
    }
    forall key, mode | mode in ACCESS
      ensures Parts(key)[0] == mode && |Parts(key)| > 1 <==> StartsWith(key, mode + ":")
      ensures Parts(key)[0] == mode && ("forward" in Parts(key)[1..] || "backward" in Parts(key)[1..]) <==>
              Concerns(key, mode) && (HasPart(key, "forward") || HasPart(key, "backward"))
    {
      ScopeRead(key, mode);
    }
  }

  lemma DirectionIsScope(tags: Tags)
    ensures HasDirection(tags) ==> HasScope(tags)
  {
    hide Parts, ACCESS, HasScope, HasDirection;
    ScopesRead(tags);
  }

  /** Why a street is refused for its tags, and when it is not. */
  lemma FlowRefused(tags: Tags)
    requires "highway" in tags
    ensures FlowOf(tags) == Failure(Barrier) <==> "barrier" in tags
    ensures FlowOf(tags) == Failure(Conditional) <==> "barrier" !in tags && HasCondition(tags)
    ensures FlowOf(tags) == Failure(DirectionalAccess) <==>
            "barrier" !in tags && !HasCondition(tags) && HasDirection(tags)
    ensures FlowOf(tags) == Failure(ScopedAccess) <==>
            "barrier" !in tags && !HasCondition(tags) && !HasDirection(tags) && HasScope(tags)
    ensures FlowOf(tags) == Failure(UnsupportedDirection) <==>
            "barrier" !in tags && !HasCondition(tags) && !HasScope(tags) && !OneWayKnown(tags)
    ensures FlowOf(tags).Success? <==> Tells(tags)
  {
    hide Parts, HasCondition, HasScope, HasDirection, OneWayValue, Says, NonePresent;
    ConditionsRead(tags);
    ScopesRead(tags);
    DirectionIsScope(tags);
    OneWayRead(tags, {"yes", "true", "1", "-1", "no", "false", "0"});
  }

  /** A node is refused for a barrier or for a key that concerns access, a relation for restricting turns. */
  lemma ElementRefused(tags: Tags)
    ensures RefusesNode(tags) <==>
            "barrier" in tags || exists key, mode :: key in tags && IsMode(mode) && Concerns(key, mode)
    ensures IsTurnRestriction(tags) <==>
            || ("type" in tags && tags["type"] == "restriction")
            || exists key :: key in tags && Concerns(key, "restriction")
  {
    TurnKeys(tags);
    hide Parts, Concerns, ACCESS, IsMode;
    forall mode ensures (IsMode(mode) <==> mode in ACCESS) && (IsMode(mode) ==> ':' !in mode) {
      ModeNames(mode);
    }
    forall key, mode | IsMode(mode) ensures Parts(key)[0] == mode <==> Concerns(key, mode) {
      FirstPart(key, mode);
    }
  }

  lemma TurnKeys(tags: Tags)
    ensures (exists key <- tags.Keys :: key == "restriction" || "restriction:" <= key) <==>
            exists key :: key in tags && Concerns(key, "restriction")
  {
    assert "restriction" + ":" == "restriction:";
  }

  /** What an element must be, by itself. */
  ghost predicate MayStand(e: Element, schema: Schema) {
    && (e.NodeElement? || e.WayElement? ==> 0 < e.id <= 9_223_372_036_854_775_807)
    && (e.NodeElement? ==>
          && -90.0 <= e.latitude <= 90.0 && -180.0 <= e.longitude <= 180.0 && "barrier" !in e.tags
          && !exists key, mode :: key in e.tags && IsMode(mode) && Concerns(key, mode))
    && (e.RelationElement? && schema == V2 ==>
          && !("type" in e.tags && e.tags["type"] == "restriction")
          && !exists key :: key in e.tags && Concerns(key, "restriction"))
  }

  ghost predicate IsNode(e: Element) { e.NodeElement? }

  ghost predicate IsWay(e: Element) { e.WayElement? }

  ghost function CountOf(elements: seq<Element>, such: Element -> bool): nat {
    |set i | 0 <= i < |elements| && such(elements[i])|
  }

  ghost predicate Taken(elements: seq<Element>, such: Element -> bool, id: int) {
    exists e :: e in elements && such(e) && Id(e) == id
  }

  /** No two of these elements have the same identifier. */
  ghost predicate OneOfEach(elements: seq<Element>, such: Element -> bool) {
    forall i, j :: 0 <= i < j < |elements| && such(elements[i]) && such(elements[j]) ==>
      Id(elements[i]) != Id(elements[j])
  }

  /** Which extracts are collected: each element may stand, no two nodes and no two ways have the same identifier, and
      there are at most fifty thousand of either. */
  ghost predicate Collectable(elements: seq<Element>, schema: Schema) {
    && (forall e <- elements :: MayStand(e, schema))
    && OneOfEach(elements, IsNode) && CountOf(elements, IsNode) <= 50_000
    && OneOfEach(elements, IsWay) && CountOf(elements, IsWay) <= 50_000
  }

  lemma OneMoreCounted(elements: seq<Element>, e: Element, such: Element -> bool)
    ensures CountOf(elements + [e], such) == CountOf(elements, such) + if such(e) then 1 else 0
  {
    var all := elements + [e];
    var before := set i | 0 <= i < |elements| && such(elements[i]);
    var after := set i | 0 <= i < |all| && such(all[i]);
    assert after == before + if such(e) then {|elements|} else {};
  }

  lemma OneMoreTaken(elements: seq<Element>, e: Element, such: Element -> bool)
    ensures forall id :: Taken(elements + [e], such, id) <==> Taken(elements, such, id) || (such(e) && Id(e) == id)
    ensures OneOfEach(elements + [e], such) <==>
              OneOfEach(elements, such) && (such(e) ==> !Taken(elements, such, Id(e)))
  {
    var all := elements + [e];
    assert forall f :: f in all <==> f in elements || f == e;
    assert all[|elements|] == e && forall i :: 0 <= i < |elements| ==> all[i] == elements[i];
    if OneOfEach(all, such) {
      forall i, j | 0 <= i < j < |elements| && such(elements[i]) && such(elements[j])
        ensures Id(elements[i]) != Id(elements[j])
      {
        assert all[i] == elements[i] && all[j] == elements[j];
      }
    }
  }

  lemma ElementRead(e: Element, schema: Schema)
    ensures ElementAllowed(e, schema) <==> MayStand(e, schema)
  {
    hide IsTurnRestriction, RefusesNode, Concerns, IsMode;
    if e.NodeElement? || e.RelationElement? {
      ElementRefused(e.tags);
    }
  }

  /** What is collected so far: a node or a way for each such element, under its identifier. */
  ghost predicate Counts(x: Extract, elements: seq<Element>) {
    && (forall id :: id in x.nodes <==> Taken(elements, IsNode, id)) && |x.nodes| == CountOf(elements, IsNode)
    && (forall id :: id in x.ways <==> Taken(elements, IsWay, id)) && |x.ways| == CountOf(elements, IsWay)
  }

  lemma OneMoreCollected(x: Extract, elements: seq<Element>, e: Element, schema: Schema)
    requires Counts(x, elements) && Collectable(elements, schema)
    ensures Collect(x, e, schema).Success? <==> Collectable(elements + [e], schema)
    ensures Collect(x, e, schema).Success? ==> Counts(Collect(x, e, schema).value, elements + [e])
  {
    hide MayStand, CountOf, OneOfEach, Taken, RefusesNode, IsTurnRestriction, PositiveId, ValidCoordinates;
    ElementRead(e, schema);
    OneMoreCounted(elements, e, IsNode);
    OneMoreCounted(elements, e, IsWay);
    OneMoreTaken(elements, e, IsNode);
    OneMoreTaken(elements, e, IsWay);
    assert forall f :: f in elements + [e] <==> f in elements || f == e;
  }

  lemma FewerCollectable(elements: seq<Element>, e: Element, schema: Schema)
    requires Collectable(elements + [e], schema)
    ensures Collectable(elements, schema)
  {
    hide MayStand, CountOf, OneOfEach, Taken;
    OneMoreCounted(elements, e, IsNode);
    OneMoreCounted(elements, e, IsWay);
    OneMoreTaken(elements, e, IsNode);
    OneMoreTaken(elements, e, IsWay);
    assert forall f <- elements :: f in elements + [e];
  }

  /** The element loop accepts an extract exactly when it is collectable. */
  lemma {:induction false} CollectsExactly(elements: seq<Element>, schema: Schema)
    ensures CollectAll(elements, schema).Success? <==> Collectable(elements, schema)
    ensures CollectAll(elements, schema).Success? ==> Counts(CollectAll(elements, schema).value, elements)
  {
    hide Collect, Collectable, Counts;
    if elements == [] {
      NothingCollected(schema);
    } else {
      var front, e := elements[..|elements| - 1], elements[|elements| - 1];
      assert elements == front + [e];
      CollectsExactly(front, schema);
      if Collectable(front, schema) {
        OneMoreCollected(CollectAll(front, schema).value, front, e, schema);
      } else if Collectable(elements, schema) {
        FewerCollectable(front, e, schema);
      }
    }
  }

  lemma NothingCollected(schema: Schema)
    ensures Collectable([], schema) && Counts(Extract(map[], map[]), [])
  {}

  // --- Which lists of ways are drafted ---

  /** What both schemas ask of every way: known members and, of a road, tags that tell how it is travelled. */
  ghost predicate WayFits(way: Way, nodes: map<int, Place>) {
    && |way.members| >= 2 && (forall m <- way.members :: PositiveId(m) && m in nodes)
    && ((exists kind :: IsKind(way.tags, kind)) ==> Tells(way.tags))
  }

  ghost predicate NoLoop(way: Way) {
    forall i :: 0 <= i < |way.members| - 1 ==> way.members[i] != way.members[i + 1]
  }

  /** No two segments of the way run from the same node to the same node. */
  ghost predicate NoRepeat(way: Way) {
    forall i, j :: 0 <= i < j < |way.members| - 1 ==>
      way.members[i] != way.members[j] || way.members[i + 1] != way.members[j + 1]
  }

  ghost function References(ids: seq<int>, x: Extract): nat
    requires forall id <- ids :: id in x.ways
  {
    if ids == [] then 0
    else
      var last := ids[|ids| - 1];
      assert last in ids;
      References(ids[..|ids| - 1], x) + |x.ways[last].members|
  }

  ghost function Streets(way: Way): nat {
    if IsStreet(way.tags) && way.members != [] then |way.members| - 1 else 0
  }

  ghost function StreetsOf(ids: seq<int>, x: Extract): nat
    requires forall id <- ids :: id in x.ways
  {
    if ids == [] then 0
    else
      var last := ids[|ids| - 1];
      assert last in ids;
      StreetsOf(ids[..|ids| - 1], x) + Streets(x.ways[last])
  }

  ghost predicate Draftable(ids: seq<int>, x: Extract)
    requires forall id <- ids :: id in x.ways
  {
    && (forall id <- ids :: WayFits(x.ways[id], x.nodes) && (IsStreet(x.ways[id].tags) ==> NoLoop(x.ways[id])))
    && References(ids, x) <= 100_000 && StreetsOf(ids, x) <= 20_000
  }

  /** Schema 2 refuses a repeated segment besides. */
  ghost predicate DraftableV2(ids: seq<int>, x: Extract)
    requires forall id <- ids :: id in x.ways
  {
    Draftable(ids, x) && forall id <- ids :: IsStreet(x.ways[id].tags) ==> NoRepeat(x.ways[id])
  }

  lemma KindOrNot(tags: Tags)
    ensures (exists kind :: IsKind(tags, kind)) <==> RoadClass(tags).Some?
    ensures RoadClass(tags).Some? ==> "highway" in tags
  {
    hide RoadClass;
    forall kind ensures IsKind(tags, kind) <==> RoadClass(tags) == Some(kind) {
      KindRead(tags, kind);
    }
    if RoadClass(tags).Some? {
      ClassTagged(tags);
    }
  }

  lemma ScreenAccepts(way: Way, nodes: map<int, Place>, references: nat)
    ensures Screen(way, nodes, references).Success? <==>
            WayFits(way, nodes) && references + |way.members| <= 100_000
  {
    hide RoadClass, FlowOf, Tells, IsKind, AllowsCar, PositiveId;
    KindOrNot(way.tags);
    if RoadClass(way.tags).Some? {
      FlowRefused(way.tags);
    }
  }

  lemma NamesDiffer(u: int, v: int)
    requires PositiveId(u) && PositiveId(v)
    ensures NodeName(u) == NodeName(v) <==> u == v
  {
    hide NodeName, ReadNodeName;
    NodeNameReadsBack(u);
    NodeNameReadsBack(v);
  }

  lemma SegmentLoops(id: int, members: seq<int>, street: Screening, i: nat)
    requires street.Street? && i + 1 < |members| && PositiveId(members[i]) && PositiveId(members[i + 1])
    ensures Segment(id, members, street, i).source == Segment(id, members, street, i).target <==>
            members[i] == members[i + 1]
    ensures SegmentV2(id, members, street, i).source == SegmentV2(id, members, street, i).target <==>
            members[i] == members[i + 1]
  {
    hide NodeName, IntText;
    NamesDiffer(members[i], members[i + 1]);
  }

  lemma SegmentStep(d: Draft, id: int, members: seq<int>, street: Screening, k: nat)
    requires street.Street? && 0 < k < |members| && PositiveId(members[k - 1]) && PositiveId(members[k])
    ensures var before, after := WithSegments(d, id, members, street, k - 1), WithSegments(d, id, members, street, k);
            && (after.Success? <==> before.Success? && !StandsStill(members, k - 1))
            && (after.Success? ==> after.value.references == before.value.references
                                   && |after.value.roads| == |before.value.roads| + 1)
  {
    hide Segment, PositiveId;
    SegmentLoops(id, members, street, k - 1);
  }

  /** The segment leads back to where it begins. */
  predicate StandsStill(members: seq<int>, j: nat)
    requires j + 1 < |members|
  {
    members[j] == members[j + 1]
  }

  ghost predicate MovesTo(members: seq<int>, k: nat)
    requires k < |members|
  {
    forall j: nat :: j < k ==> !StandsStill(members, j)
  }

  lemma MovesStep(members: seq<int>, k: nat)
    requires 0 < k < |members|
    ensures MovesTo(members, k) <==> MovesTo(members, k - 1) && !StandsStill(members, k - 1)
  {
    hide StandsStill;
  }

  lemma MovesWhole(way: Way)
    requires |way.members| > 0
    ensures MovesTo(way.members, |way.members| - 1) <==> NoLoop(way)
  {
    var m := way.members;
    if MovesTo(m, |m| - 1) {
      forall i | 0 <= i < |m| - 1 ensures m[i] != m[i + 1] {
        assert !StandsStill(m, i);
      }
    }
  }

  lemma {:induction false} SegmentsAccepted(d: Draft, id: int, members: seq<int>, street: Screening, k: nat)
    requires street.Street? && k < |members| && forall m <- members :: PositiveId(m)
    ensures WithSegments(d, id, members, street, k).Success? <==> MovesTo(members, k)
    ensures WithSegments(d, id, members, street, k).Success? ==>
              var r := WithSegments(d, id, members, street, k).value;
              r.references == d.references && |r.roads| == |d.roads| + k
  {
    hide WithSegments, PositiveId, StandsStill, MovesTo;
    if k == 0 {
      NoSegments(d, id, members, street);
    } else {
      SegmentsAccepted(d, id, members, street, k - 1);
      MovesStep(members, k);
      SegmentStep(d, id, members, street, k);
    }
  }

  lemma NoSegments(d: Draft, id: int, members: seq<int>, street: Screening)
    requires street.Street? && |members| > 0
    ensures WithSegments(d, id, members, street, 0) == Success(d) && MovesTo(members, 0)
  {}

  lemma WayAccepted(d: Draft, id: int, way: Way, nodes: map<int, Place>)
    ensures var r := WithWay(d, id, way, nodes);
            && (r.Success? <==>
                && WayFits(way, nodes) && (IsStreet(way.tags) ==> NoLoop(way))
                && d.references + |way.members| <= 100_000
                && (IsStreet(way.tags) ==> |d.roads| + Streets(way) <= 20_000))
            && (r.Success? ==> r.value.references == d.references + |way.members|
                               && |r.value.roads| == |d.roads| + Streets(way))
  {
    hide Screen, WithSegments, IsStreet, Tells, IsKind, PositiveId, NoLoop, MovesTo;
    ScreenAccepts(way, nodes, d.references);
    if WayFits(way, nodes) && d.references + |way.members| <= 100_000 {
      StreetRead(way, nodes, d.references);
      var street := Screen(way, nodes, d.references).value;
      if street.Street? {
        MovesWhole(way);
        SegmentsAccepted(d.(references := d.references + |way.members|), id, way.members, street, |way.members| - 1);
      }
    }
  }

  /** Schema 1 drafts a list of ways exactly when each way fits and together they keep to the limits. */
  lemma {:induction false} DraftsExactly(ids: seq<int>, x: Extract)
    requires forall id <- ids :: id in x.ways
    ensures DraftOf(ids, x).Success? <==> Draftable(ids, x)
    ensures DraftOf(ids, x).Success? ==> var d := DraftOf(ids, x).value;
                                         d.references == References(ids, x) && |d.roads| == StreetsOf(ids, x)
  {
    hide WithWay, WayFits, NoLoop, IsStreet, Streets;
    if ids != [] {
      var front, last := ids[..|ids| - 1], ids[|ids| - 1];
      assert ids == front + [last];
      DraftsExactly(front, x);
      if DraftOf(front, x).Success? {
        WayAccepted(DraftOf(front, x).value, last, x.ways[last], x.nodes);
        NotStreet(x.ways[last]);
      }
    }
  }

  lemma NotStreet(way: Way)
    ensures !IsStreet(way.tags) ==> Streets(way) == 0
  {
    hide IsStreet;
  }

  // --- Schema 2 refuses repeated segments ---

  function SegmentName(id: int, u: int, v: int): string {
    "osm-way-" + IntText(id) + "-" + IntText(u) + "-" + IntText(v)
  }

  lemma {:induction false} NoDash(n: nat)
    ensures '-' !in Decimal(n) && ReadDecimal(Decimal(n)) == n
  {
    ReadDecimalUndoesDecimal(n);
    if n >= 10 {
      NoDash(n / 10);
    }
    assert forall c <- DIGITS :: c != '-';
  }

  /** Up to its first dash a text can be split in one way only. */
  lemma {:induction false} FirstDash(a: string, b: string, s: string, t: string)
    requires '-' !in a && '-' !in b && a + "-" + s == b + "-" + t
    ensures a == b && s == t
  {
    var whole, other := a + "-" + s, b + "-" + t;
    assert (a != [] ==> a[0] in a) && (b != [] ==> b[0] in b);
    assert whole[0] == other[0];
    if a != [] && b != [] {
      assert whole[1..] == a[1..] + "-" + s && other[1..] == b[1..] + "-" + t;
      FirstDash(a[1..], b[1..], s, t);
      assert a == [a[0]] + a[1..] && b == [b[0]] + b[1..];
    } else {
      assert whole[|a| + 1..] == s && other[|b| + 1..] == t;
    }
  }

  lemma PositiveText(id: int)
    requires PositiveId(id)
    ensures '-' !in IntText(id) && ReadDecimal(IntText(id)) == id
  {
    hide Decimal, ReadDecimal;
    NoDash(id);
  }

  lemma SegmentNamesDiffer(id: int, u: int, v: int, jd: int, a: int, b: int)
    requires PositiveId(id) && PositiveId(u) && PositiveId(v) && PositiveId(jd) && PositiveId(a) && PositiveId(b)
    requires SegmentName(id, u, v) == SegmentName(jd, a, b)
    ensures id == jd && u == a && v == b
  {
    hide IntText, ReadDecimal, PositiveId;
    forall n | n in {id, u, v, jd, a, b} ensures '-' !in IntText(n) && ReadDecimal(IntText(n)) == n {
      PositiveText(n);
    }
    var s, t := IntText(u) + "-" + IntText(v), IntText(a) + "-" + IntText(b);
    SplitName(IntText(id), IntText(u), IntText(v));
    SplitName(IntText(jd), IntText(a), IntText(b));
    SameTail("osm-way-", IntText(id) + "-" + s, IntText(jd) + "-" + t);
    FirstDash(IntText(id), IntText(jd), s, t);
    FirstDash(IntText(u), IntText(a), IntText(v), IntText(b));
  }

  lemma SplitName(a: string, b: string, c: string)
    ensures "osm-way-" + a + "-" + b + "-" + c == "osm-way-" + (a + "-" + (b + "-" + c))
  {}

  lemma SameTail(start: string, s: string, t: string)
    requires start + s == start + t
    ensures s == t
  {
    assert (start + s)[|start|..] == s && (start + t)[|start|..] == t;
  }

  /** The recorded road names are those of segments of the ways so far. */
  ghost predicate Named(names: set<string>, ids: set<int>) {
    forall name <- names :: IsSegmentOf(name, ids)
  }

  ghost predicate IsSegmentOf(name: string, ids: set<int>) {
    exists id, u, v :: id in ids && PositiveId(u) && PositiveId(v) && name == SegmentName(id, u, v)
  }

  function NameAt(id: int, members: seq<int>, i: nat): string
    requires i + 1 < |members|
  {
    SegmentName(id, members[i], members[i + 1])
  }

  /** The names of a way's first segments. */
  function NamesTo(id: int, members: seq<int>, k: nat): set<string>
    requires k < |members|
  {
    if k == 0 then {} else NamesTo(id, members, k - 1) + {NameAt(id, members, k - 1)}
  }

  ghost predicate SameSegment(members: seq<int>, i: nat, j: nat)
    requires i + 1 < |members| && j + 1 < |members|
  {
    members[i] == members[j] && members[i + 1] == members[j + 1]
  }

  /** An earlier segment ran the same way. */
  ghost predicate Repeats(members: seq<int>, j: nat)
    requires j + 1 < |members|
  {
    exists i: nat :: i < j && SameSegment(members, i, j)
  }

  /** Each of a way's first segments joins two nodes, and none repeats another. */
  ghost predicate ClearTo(members: seq<int>, k: nat)
    requires k < |members|
  {
    forall j: nat :: j < k ==> !StandsStill(members, j) && !Repeats(members, j)
  }

  lemma {:induction false} NamesListed(id: int, members: seq<int>, k: nat, j: nat)
    requires k <= j && j + 1 < |members| && (forall m <- members :: PositiveId(m)) && PositiveId(id)
    ensures NameAt(id, members, j) in NamesTo(id, members, k) <==> exists i: nat :: i < k && SameSegment(members, i, j)
  {
    hide PositiveId, SegmentName;
    if k > 0 {
      NamesListed(id, members, k - 1, j);
      if NameAt(id, members, j) == NameAt(id, members, k - 1) {
        SegmentNamesDiffer(id, members[j], members[j + 1], id, members[k - 1], members[k]);
        assert SameSegment(members, k - 1, j);
      }
      if i: nat :| i < k && SameSegment(members, i, j) {
        assert i == k - 1 ==> NameAt(id, members, j) == NameAt(id, members, k - 1);
      }
    }
  }

  lemma NameNew(names: set<string>, id: int, members: seq<int>, k: nat, ids: set<int>)
    requires k + 1 < |members| && (forall m <- members :: PositiveId(m)) && PositiveId(id)
    requires Named(names, ids) && id !in ids && forall jd <- ids :: PositiveId(jd)
    ensures NameAt(id, members, k) !in names
  {
    hide PositiveId, SegmentName;
    var name := NameAt(id, members, k);
    if name in names {
      assert IsSegmentOf(name, ids);
      var jd, u, v :| jd in ids && PositiveId(u) && PositiveId(v) && name == SegmentName(jd, u, v);
      SegmentNamesDiffer(id, members[k], members[k + 1], jd, u, v);
    }
  }

  lemma SegmentNamed(id: int, members: seq<int>, street: Screening, i: nat)
    requires street.Street? && i + 1 < |members|
    ensures SegmentV2(id, members, street, i).roadId == NameAt(id, members, i)
  {
    hide IntText, NodeName;
  }

  lemma SegmentStepV2(d: DraftV2, id: int, members: seq<int>, street: Screening, k: nat)
    requires street.Street? && 0 < k < |members|
    ensures var before, after := WithSegmentsV2(d, id, members, street, k - 1),
                                 WithSegmentsV2(d, id, members, street, k);
            var road := SegmentV2(id, members, street, k - 1);
            && (after.Success? <==>
                before.Success? && road.roadId !in before.value.roadIds && road.source != road.target)
            && (after.Success? ==>
                  && after.value.references == before.value.references
                  && after.value.roads == before.value.roads + [road]
                  && after.value.roadIds == before.value.roadIds + {road.roadId})
  {
    hide SegmentV2;
  }

  lemma OneMoreSegmentV2(d: DraftV2, id: int, members: seq<int>, street: Screening, k: nat)
    requires street.Street? && 0 < k < |members| && forall m <- members :: PositiveId(m)
    ensures var before, after := WithSegmentsV2(d, id, members, street, k - 1),
                                 WithSegmentsV2(d, id, members, street, k);
            && (after.Success? <==>
                before.Success? && NameAt(id, members, k - 1) !in before.value.roadIds && members[k - 1] != members[k])
            && (after.Success? ==>
                  && after.value.references == before.value.references
                  && |after.value.roads| == |before.value.roads| + 1
                  && after.value.roadIds == before.value.roadIds + {NameAt(id, members, k - 1)})
  {
    hide PositiveId, SegmentV2, NameAt, WithSegmentsV2;
    SegmentStepV2(d, id, members, street, k);
    SegmentLoops(id, members, street, k - 1);
    SegmentNamed(id, members, street, k - 1);
  }

  lemma ClearStep(members: seq<int>, k: nat)
    requires 0 < k < |members|
    ensures ClearTo(members, k) <==>
            ClearTo(members, k - 1) && !StandsStill(members, k - 1) && !Repeats(members, k - 1)
  {
    hide Repeats, StandsStill;
  }

  lemma OneMoreClear(id: int, members: seq<int>, k: nat)
    requires 0 < k < |members| && (forall m <- members :: PositiveId(m)) && PositiveId(id)
    ensures ClearTo(members, k) <==>
            ClearTo(members, k - 1) && members[k - 1] != members[k]
            && NameAt(id, members, k - 1) !in NamesTo(id, members, k - 1)
  {
    hide SameSegment, NameAt, PositiveId, NamesTo;
    NamesListed(id, members, k - 1, k - 1);
    assert Repeats(members, k - 1) <==> NameAt(id, members, k - 1) in NamesTo(id, members, k - 1);
    assert StandsStill(members, k - 1) <==> members[k - 1] == members[k];
    ClearStep(members, k);
  }

  lemma NoSegmentsV2(d: DraftV2, id: int, members: seq<int>, street: Screening)
    requires street.Street? && |members| > 0
    ensures WithSegmentsV2(d, id, members, street, 0) == Success(d) && ClearTo(members, 0)
    ensures NamesTo(id, members, 0) == {}
  {}

  lemma {:induction false} SegmentsAcceptedV2(d: DraftV2, id: int, members: seq<int>, street: Screening, k: nat,
                                              ids: set<int>)
    requires street.Street? && k < |members| && (forall m <- members :: PositiveId(m)) && PositiveId(id)
    requires Named(d.roadIds, ids) && id !in ids && forall jd <- ids :: PositiveId(jd)
    ensures var r := WithSegmentsV2(d, id, members, street, k);
            && (r.Success? <==> ClearTo(members, k))
            && (r.Success? ==>
                  && r.value.references == d.references && |r.value.roads| == |d.roads| + k
                  && r.value.roadIds == d.roadIds + NamesTo(id, members, k))
    decreases k
  {
    hide PositiveId, WithSegmentsV2, NameAt, Named, ClearTo;
    if k == 0 {
      NoSegmentsV2(d, id, members, street);
    } else {
      SegmentsAcceptedV2(d, id, members, street, k - 1, ids);
      OneMoreSegmentV2(d, id, members, street, k);
      OneMoreClear(id, members, k);
      NameNew(d.roadIds, id, members, k - 1, ids);
    }
  }

  lemma {:induction false} NamesToNamed(id: int, members: seq<int>, k: nat)
    requires k < |members| && forall m <- members :: PositiveId(m)
    ensures Named(NamesTo(id, members, k), {id})
  {
    hide PositiveId, SegmentName;
    if k > 0 {
      NamesToNamed(id, members, k - 1);
      assert IsSegmentOf(NameAt(id, members, k - 1), {id});
    }
  }

  lemma MoreNamed(names: set<string>, more: set<string>, ids: set<int>, id: int)
    requires Named(names, ids) && Named(more, {id})
    ensures Named(names + more, ids + {id})
  {
    hide PositiveId, SegmentName;
    forall name | name in names + more ensures IsSegmentOf(name, ids + {id}) {
      if name in names {
        assert IsSegmentOf(name, ids);
      } else {
        assert IsSegmentOf(name, {id});
      }
    }
  }

  lemma ClearWhole(way: Way)
    requires |way.members| > 0
    ensures ClearTo(way.members, |way.members| - 1) <==> NoLoop(way) && NoRepeat(way)
  {
    var m := way.members;
    if ClearTo(m, |m| - 1) {
      forall i: nat, j: nat | i < j < |m| - 1 ensures m[i] != m[j] || m[i + 1] != m[j + 1] {
        assert !Repeats(m, j) && (SameSegment(m, i, j) ==> Repeats(m, j));
      }
      forall i: nat | i < |m| - 1 ensures m[i] != m[i + 1] {
        assert !StandsStill(m, i);
      }
    }
  }

  lemma StreetAcceptedV2(d: DraftV2, id: int, way: Way, street: Screening, ids: set<int>)
    requires PositiveId(id) && Named(d.roadIds, ids) && id !in ids && forall jd <- ids :: PositiveId(jd)
    requires street.Street? && |way.members| > 0 && forall m <- way.members :: PositiveId(m)
    ensures var r := WithSegmentsV2(d, id, way.members, street, |way.members| - 1);
            && (r.Success? <==> NoLoop(way) && NoRepeat(way))
            && (r.Success? ==> r.value.references == d.references && |r.value.roads| == |d.roads| + |way.members| - 1
                               && Named(r.value.roadIds, ids + {id}))
  {
    hide WithSegmentsV2, PositiveId, NoRepeat, NoLoop, Named, ClearTo, NamesTo;
    ClearWhole(way);
    SegmentsAcceptedV2(d, id, way.members, street, |way.members| - 1, ids);
    NamesToNamed(id, way.members, |way.members| - 1);
    MoreNamed(d.roadIds, NamesTo(id, way.members, |way.members| - 1), ids, id);
  }

  lemma StillNamed(names: set<string>, ids: set<int>, id: int)
    requires Named(names, ids)
    ensures Named(names, ids + {id})
  {
    hide PositiveId, SegmentName;
    forall name | name in names ensures IsSegmentOf(name, ids + {id}) {
      assert IsSegmentOf(name, ids);
    }
  }

  lemma WayAcceptedV2(d: DraftV2, id: int, way: Way, nodes: map<int, Place>, ids: set<int>)
    requires PositiveId(id) && Named(d.roadIds, ids) && id !in ids && forall jd <- ids :: PositiveId(jd)
    ensures var r := WithWayV2(d, id, way, nodes);
            && (r.Success? <==>
                && WayFits(way, nodes) && (IsStreet(way.tags) ==> NoLoop(way) && NoRepeat(way))
                && d.references + |way.members| <= 100_000
                && (IsStreet(way.tags) ==> |d.roads| + Streets(way) <= 20_000))
            && (r.Success? ==> r.value.references == d.references + |way.members|
                               && |r.value.roads| == |d.roads| + Streets(way) && Named(r.value.roadIds, ids + {id}))
  {
    hide Screen, WithSegmentsV2, IsStreet, Tells, IsKind, PositiveId, RelevantTags, NoRepeat, Named, NoLoop;
    ScreenAccepts(way, nodes, d.references);
    StillNamed(d.roadIds, ids, id);
    if WayFits(way, nodes) && d.references + |way.members| <= 100_000 {
      StreetRead(way, nodes, d.references);
      var street := Screen(way, nodes, d.references).value;
      if street.Street? {
        StreetAcceptedV2(Recorded(d, id, way).(eligible := d.eligible + 1), id, way, street, ids);
      }
    }
  }

  /** Schema 2 drafts a list of ways exactly when schema 1 does and no street runs twice along a segment. */
  lemma {:induction false} DraftsExactlyV2(ids: seq<int>, x: Extract)
    requires (forall id <- ids :: id in x.ways && PositiveId(id)) && Distinct(ids)
    ensures DraftOfV2(ids, x).Success? <==> DraftableV2(ids, x)
    ensures DraftOfV2(ids, x).Success? ==>
              var d := DraftOfV2(ids, x).value;
              && d.references == References(ids, x) && |d.roads| == StreetsOf(ids, x)
              && Named(d.roadIds, Elements(ids))
  {
    hide WithWayV2, WayFits, NoLoop, NoRepeat, IsStreet, Streets, PositiveId;
    if ids != [] {
      var front, last := ids[..|ids| - 1], ids[|ids| - 1];
      assert ids == front + [last];
      assert Elements(ids) == Elements(front) + {last};
      DraftsExactlyV2(front, x);
      if DraftOfV2(front, x).Success? {
        WayAcceptedV2(DraftOfV2(front, x).value, last, x.ways[last], x.nodes, Elements(front));
        NotStreet(x.ways[last]);
      }
    }
  }
}
