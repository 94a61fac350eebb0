/** The elements of an extract: collected by identifier, whatever order they come in. */
module OsmExtract {
  import opened Results
  import opened OsmTags

  const MAX_ELEMENTS := 100_000
  const MAX_NODES := 50_000
  const MAX_WAYS := 50_000
  const MAX_IDENTIFIER := 9_223_372_036_854_775_807

  datatype Element =
    | NodeElement(id: int, latitude: real, longitude: real, tags: Tags)
    | WayElement(id: int, members: seq<int>, tags: Tags)
    | RelationElement(tags: Tags)
    | OtherElement

  datatype Place = Place(latitude: real, longitude: real)

  datatype Way = Way(members: seq<int>, tags: Tags)

  /** Both schemas ignore most relations; schema 2 refuses an extract that restricts turns. */
  datatype Schema = V1 | V2

  datatype Extract = Extract(nodes: map<int, Place>, ways: map<int, Way>)

  predicate PositiveId(id: int) {
    0 < id <= MAX_IDENTIFIER
  }

  predicate ValidCoordinates(latitude: real, longitude: real) {
    -90.0 <= latitude <= 90.0 && -180.0 <= longitude <= 180.0
  }

  function Collect(x: Extract, e: Element, schema: Schema): Result<Extract, ImportError> {
    match e
    case OtherElement => Success(x)
    case RelationElement(tags) =>
      if schema == V2 && IsTurnRestriction(tags) then Failure(TurnRestriction) else Success(x)
    case NodeElement(id, latitude, longitude, tags) =>
      if !PositiveId(id) then Failure(InvalidIdentifier)
      else if id in x.nodes then Failure(DuplicateNode)
      else if |x.nodes| >= MAX_NODES then Failure(TooManyNodes)
      else if !ValidCoordinates(latitude, longitude) then Failure(InvalidCoordinate)
      else if RefusesNode(tags) then Failure(NodeAccess)
      else Success(x.(nodes := x.nodes[id := Place(latitude, longitude)]))
    case WayElement(id, members, tags) =>
      if !PositiveId(id) then Failure(InvalidIdentifier)
      else if id in x.ways then Failure(DuplicateWay)
      else if |x.ways| >= MAX_WAYS then Failure(TooManyWays)
      else Success(x.(ways := x.ways[id := Way(members, tags)]))
  }

  function CollectAll(elements: seq<Element>, schema: Schema): Result<Extract, ImportError> {
    if elements == [] then Success(Extract(map[], map[]))
    else
      var x :- CollectAll(elements[..|elements| - 1], schema);
      Collect(x, elements[|elements| - 1], schema)
  }

  method ReadElements(elements: seq<Element>, schema: Schema) returns (r: Result<Extract, ImportError>)
    ensures |elements| > MAX_ELEMENTS ==> r == Failure(TooManyElements)
    ensures |elements| <= MAX_ELEMENTS ==> r == CollectAll(elements, schema)
  {
    if |elements| > MAX_ELEMENTS {
      return Failure(TooManyElements);
    }
    var x := Extract(map[], map[]);
    for k := 0 to |elements|
      invariant CollectAll(elements[..k], schema) == Success(x)
    {
      assert elements[..k + 1][..k] == elements[..k];
      var next := Collect(x, elements[k], schema);
      if next.Failure? {
        FailureStays(elements, schema, k + 1);
        return next;
      }
      x := next.value;
    }
    assert elements[..|elements|] == elements;
    r := Success(x);
  }

  /** Once an element is refused the extract is refused, for that reason. */
  lemma {:induction false} FailureStays(elements: seq<Element>, schema: Schema, k: nat)
    requires k <= |elements| && CollectAll(elements[..k], schema).Failure?
    ensures CollectAll(elements, schema) == CollectAll(elements[..k], schema)
  {
    if k < |elements| {
      var front := elements[..|elements| - 1];
      assert front[..k] == elements[..k];
      FailureStays(front, schema, k);
    } else {
      assert elements[..k] == elements;
    }
  }

  // --- What is collected does not depend on the order of the elements ---

  predicate ElementAllowed(e: Element, schema: Schema) {
    match e
    case OtherElement => true
    case RelationElement(tags) => schema == V1 || !IsTurnRestriction(tags)
    case NodeElement(id, latitude, longitude, tags) =>
      PositiveId(id) && ValidCoordinates(latitude, longitude) && !RefusesNode(tags)
    case WayElement(id, _, _) => PositiveId(id)
  }

  function NodeElements(es: multiset<Element>): set<Element> {
    set e | e in es && e.NodeElement?
  }

  function WayElements(es: multiset<Element>): set<Element> {
    set e | e in es && e.WayElement?
  }

  function Id(e: Element): int {
    if e.NodeElement? || e.WayElement? then e.id else 0
  }

  function PlaceOf(e: Element): Place {
    if e.NodeElement? then Place(e.latitude, e.longitude) else Place(0.0, 0.0)
  }

  function WayOf(e: Element): Way {
    if e.WayElement? then Way(e.members, e.tags) else Way([], map[])
  }

  ghost predicate UniqueIds(s: set<Element>) {
    forall e, f :: e in s && f in s && Id(e) == Id(f) ==> e == f
  }

  /** `m` lists the elements `s` by identifier. */
  ghost predicate Keyed<V>(m: map<int, V>, s: set<Element>, value: Element -> V) {
    && (forall id :: id in m ==> HasId(s, id))
    && (forall e <- s :: Id(e) in m && m[Id(e)] == value(e))
    && |m| == |s|
  }

  ghost predicate HasId(s: set<Element>, id: int) {
    exists e :: e in s && Id(e) == id
  }

  ghost predicate AllAllowed(es: multiset<Element>, schema: Schema) {
    forall e <- es :: ElementAllowed(e, schema)
  }

  ghost predicate NoneRepeated(es: multiset<Element>) {
    forall e <- es :: e.NodeElement? || e.WayElement? ==> es[e] == 1
  }

  /** Order-free acceptance: every element is allowed, no node or way is repeated, identifiers are
      unique within their kind, and neither kind exceeds its limit. */
  ghost predicate Acceptable(es: multiset<Element>, schema: Schema) {
    && AllAllowed(es, schema) && NoneRepeated(es)
    && UniqueIds(NodeElements(es)) && |NodeElements(es)| <= MAX_NODES
    && UniqueIds(WayElements(es)) && |WayElements(es)| <= MAX_WAYS
  }

  /** `x` holds exactly the nodes and ways among `es`. */
  ghost predicate Holds(x: Extract, es: multiset<Element>) {
    Keyed(x.nodes, NodeElements(es), PlaceOf) && Keyed(x.ways, WayElements(es), WayOf)
  }

  lemma OneMoreId(s: set<Element>, e: Element)
    requires UniqueIds(s) && e !in s
    ensures HasId(s, Id(e)) <==> !UniqueIds(s + {e})
  {
    var more := s + {e};
    if HasId(s, Id(e)) {
      var f :| f in s && Id(f) == Id(e);
      assert f in more && e in more;
    }
  }

  lemma IdStays(s: set<Element>, e: Element, id: int)
    requires HasId(s, id) || id == Id(e)
    ensures HasId(s + {e}, id)
  {
    if HasId(s, id) {
      var f :| f in s && Id(f) == id;
      assert f in s + {e};
    } else {
      assert e in s + {e};
    }
  }

  lemma OneMoreKeyed<V>(m: map<int, V>, s: set<Element>, value: Element -> V, e: Element)
    requires Keyed(m, s, value) && UniqueIds(s) && e !in s
    ensures Id(e) in m <==> !UniqueIds(s + {e})
    ensures Id(e) !in m ==> Keyed(m[Id(e) := value(e)], s + {e}, value)
    ensures |s + {e}| == |s| + 1
  {
    hide HasId, UniqueIds;
    OneMoreId(s, e);
    assert HasId(s, Id(e)) ==> Id(e) in m by {
      IdKeyed(m, s, value, Id(e));
    }
    forall id | id in m || id == Id(e) ensures HasId(s + {e}, id) {
      IdStays(s, e, id);
    }
  }

  lemma IdKeyed<V>(m: map<int, V>, s: set<Element>, value: Element -> V, id: int)
    requires Keyed(m, s, value)
    ensures HasId(s, id) ==> id in m
  {}

  lemma FewerStillAcceptable(es: multiset<Element>, e: Element, schema: Schema)
    requires Acceptable(es + multiset{e}, schema)
    ensures Acceptable(es, schema)
  {
    var more := es + multiset{e};
    assert forall f <- es :: f in more && es[f] <= more[f];
    assert NodeElements(es) <= NodeElements(more) && WayElements(es) <= WayElements(more);
    SubsetNotLarger(NodeElements(es), NodeElements(more));
    SubsetNotLarger(WayElements(es), WayElements(more));
  }

  lemma SubsetNotLarger<T>(a: set<T>, b: set<T>)
    requires a <= b
    ensures |a| <= |b|
  {
    assert b == a + (b - a);
  }

  lemma ElementKinds(es: multiset<Element>, e: Element)
    ensures e in NodeElements(es) <==> e in es && e.NodeElement?
    ensures e in WayElements(es) <==> e in es && e.WayElement?
  {}

  lemma KeyedHas<V>(m: map<int, V>, s: set<Element>, value: Element -> V, e: Element)
    requires Keyed(m, s, value)
    ensures |m| == |s|
    ensures e in s ==> Id(e) in m
  {}

  lemma OneMoreElement(es: multiset<Element>, e: Element, schema: Schema)
    ensures NodeElements(es + multiset{e}) == NodeElements(es) + if e.NodeElement? then {e} else {}
    ensures WayElements(es + multiset{e}) == WayElements(es) + if e.WayElement? then {e} else {}
    ensures AllAllowed(es + multiset{e}, schema) <==> AllAllowed(es, schema) && ElementAllowed(e, schema)
    ensures NoneRepeated(es + multiset{e}) <==>
            NoneRepeated(es) && !((e.NodeElement? || e.WayElement?) && e in es)
  {
    var more := es + multiset{e};
    assert forall f :: more[f] == es[f] + if f == e then 1 else 0;
    assert forall f :: f in more <==> f in es || f == e;
  }

  lemma CollectNode(x: Extract, e: Element, schema: Schema)
    requires e.NodeElement?
    ensures Collect(x, e, schema).Success? <==> ElementAllowed(e, schema) && Id(e) !in x.nodes && |x.nodes| < MAX_NODES
    ensures Collect(x, e, schema).Success? ==> Collect(x, e, schema).value == x.(nodes := x.nodes[Id(e) := PlaceOf(e)])
  {}

  lemma OneMoreNode(x: Extract, es: multiset<Element>, e: Element, schema: Schema)
    requires Acceptable(es, schema) && Holds(x, es) && e.NodeElement?
    ensures Collect(x, e, schema).Success? <==> Acceptable(es + multiset{e}, schema)
    ensures Collect(x, e, schema).Success? ==> Holds(Collect(x, e, schema).value, es + multiset{e})
  {
    hide Collect, ElementAllowed, Keyed, UniqueIds, NoneRepeated, AllAllowed, NodeElements, WayElements;
    CollectNode(x, e, schema);
    OneMoreElement(es, e, schema);
    ElementKinds(es, e);
    KeyedHas(x.nodes, NodeElements(es), PlaceOf, e);
    assert WayElements(es) + {} == WayElements(es);
    if e !in es {
      OneMoreKeyed(x.nodes, NodeElements(es), PlaceOf, e);
    }
  }

  lemma CollectWay(x: Extract, e: Element, schema: Schema)
    requires e.WayElement?
    ensures Collect(x, e, schema).Success? <==> ElementAllowed(e, schema) && Id(e) !in x.ways && |x.ways| < MAX_WAYS
    ensures Collect(x, e, schema).Success? ==> Collect(x, e, schema).value == x.(ways := x.ways[Id(e) := WayOf(e)])
  {}

  lemma OneMoreWay(x: Extract, es: multiset<Element>, e: Element, schema: Schema)
    requires Acceptable(es, schema) && Holds(x, es) && e.WayElement?
    ensures Collect(x, e, schema).Success? <==> Acceptable(es + multiset{e}, schema)
    ensures Collect(x, e, schema).Success? ==> Holds(Collect(x, e, schema).value, es + multiset{e})
  {
    hide Collect, ElementAllowed, Keyed, UniqueIds, NoneRepeated, AllAllowed, NodeElements, WayElements;
    CollectWay(x, e, schema);
    OneMoreElement(es, e, schema);
    ElementKinds(es, e);
    KeyedHas(x.ways, WayElements(es), WayOf, e);
    assert NodeElements(es) + {} == NodeElements(es);
    if e !in es {
      OneMoreKeyed(x.ways, WayElements(es), WayOf, e);
    }
  }

  lemma OneMoreOther(x: Extract, es: multiset<Element>, e: Element, schema: Schema)
    requires Acceptable(es, schema) && Holds(x, es) && !e.NodeElement? && !e.WayElement?
    ensures Collect(x, e, schema).Success? <==> Acceptable(es + multiset{e}, schema)
    ensures Collect(x, e, schema).Success? ==> Holds(Collect(x, e, schema).value, es + multiset{e})
  {
    hide Keyed, UniqueIds, NoneRepeated, AllAllowed, NodeElements, WayElements;
    OneMoreElement(es, e, schema);
    assert NodeElements(es) + {} == NodeElements(es) && WayElements(es) + {} == WayElements(es);
  }

  /** The element loop accepts exactly the acceptable extracts and collects exactly their contents. */
  lemma {:induction false} CollectsAcceptable(elements: seq<Element>, schema: Schema)
    ensures CollectAll(elements, schema).Success? <==> Acceptable(multiset(elements), schema)
    ensures CollectAll(elements, schema).Success? ==> Holds(CollectAll(elements, schema).value, multiset(elements))
  {
    if elements == [] {
      assert NodeElements(multiset{}) == {} && WayElements(multiset{}) == {};
      assert multiset(elements) == multiset{};
    } else {
      var front, e := elements[..|elements| - 1], elements[|elements| - 1];
      assert elements == front + [e];
      CollectsAcceptable(front, schema);
      var es := multiset(front);
      assert multiset(elements) == es + multiset{e};
      if Acceptable(es, schema) {
        var x := CollectAll(front, schema).value;
        if e.NodeElement? {
          OneMoreNode(x, es, e, schema);
        } else if e.WayElement? {
          OneMoreWay(x, es, e, schema);
        } else {
          OneMoreOther(x, es, e, schema);
        }
      } else if Acceptable(es + multiset{e}, schema) {
        FewerStillAcceptable(es, e, schema);
      }
    }
  }

  lemma HeldContentsUnique(x: Extract, y: Extract, es: multiset<Element>)
    requires Holds(x, es) && Holds(y, es)
    ensures x == y
  {
    KeyedUnique(x.nodes, y.nodes, NodeElements(es), PlaceOf);
    KeyedUnique(x.ways, y.ways, WayElements(es), WayOf);
  }

  lemma KeyedUnique<V>(m: map<int, V>, n: map<int, V>, s: set<Element>, value: Element -> V)
    requires Keyed(m, s, value) && Keyed(n, s, value)
    ensures m == n
  {
    forall id ensures id in m <==> id in n {
      assert id in m ==> HasId(s, id);
      assert id in n ==> HasId(s, id);
    }
    forall id | id in m ensures m[id] == n[id] {
      assert HasId(s, id);
    }
  }

  /** Permuting the elements changes neither acceptance nor what is collected. */
  lemma CollectionIgnoresOrder(elements: seq<Element>, permuted: seq<Element>, schema: Schema)
    requires multiset(elements) == multiset(permuted)
    ensures |elements| == |permuted|
    ensures CollectAll(elements, schema).Success? <==> CollectAll(permuted, schema).Success?
    ensures CollectAll(elements, schema).Success? ==> CollectAll(elements, schema) == CollectAll(permuted, schema)
  {
    assert |elements| == |multiset(elements)| == |multiset(permuted)| == |permuted|;
    CollectsAcceptable(elements, schema);
    CollectsAcceptable(permuted, schema);
    if CollectAll(elements, schema).Success? {
      HeldContentsUnique(CollectAll(elements, schema).value, CollectAll(permuted, schema).value, multiset(elements));
    }
  }
}
