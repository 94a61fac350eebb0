/** Well-nested documents: the stack discipline of start and end tags, and the forests it accepts. */
module Nesting {
  import opened Results

  type Attributes = map<string, Option<string>>

  datatype Event =
    | StartTag(tag: string, attributes: seq<(string, Option<string>)>)
    | EndTag(tag: string)
    | Data(text: string)

  /** A document tree. Void elements have no content and no end tag. */
  datatype Node =
    | Element(tag: string, attributes: seq<(string, Option<string>)>, children: seq<Node>)
    | VoidElement(tag: string, attributes: seq<(string, Option<string>)>)
    | Text(text: string)

  predicate IsVoid(tag: string) {
    tag in {"area", "base", "br", "col", "embed", "hr", "img", "input", "link", "meta", "param", "source", "track",
            "wbr"}
  }

  /** Void elements are exactly those with a void tag. */
  predicate WellFormed(n: Node) {
    match n
    case Element(tag, _, children) => !IsVoid(tag) && forall c <- children :: WellFormed(c)
    case VoidElement(tag, _) => IsVoid(tag)
    case Text(_) => true
  }

  function EventsOf(n: Node): seq<Event> {
    match n
    case Element(tag, attributes, children) => [StartTag(tag, attributes)] + EventsOfAll(children) + [EndTag(tag)]
    case VoidElement(tag, attributes) => [StartTag(tag, attributes)]
    case Text(text) => [Data(text)]
  }

  function EventsOfAll(ns: seq<Node>): seq<Event> {
    if ns == [] then [] else EventsOfAll(ns[..|ns| - 1]) + EventsOf(ns[|ns| - 1])
  }

  type Path = seq<string>

  /** The paths of all elements of a tree under `ancestors`, in document order: each is its chain of
      ancestors and itself. */
  function PathsOf(n: Node, ancestors: Path): seq<Path> {
    match n
    case Element(tag, _, children) => [ancestors + [tag]] + PathsOfAll(children, ancestors + [tag])
    case VoidElement(tag, _) => [ancestors + [tag]]
    case Text(_) => []
  }

  function PathsOfAll(ns: seq<Node>, ancestors: Path): seq<Path> {
    if ns == [] then [] else PathsOfAll(ns[..|ns| - 1], ancestors) + PathsOf(ns[|ns| - 1], ancestors)
  }

  // --- The stack discipline ---

  function NestOne(stack: Path, e: Event): Option<Path> {
    match e
    case StartTag(tag, _) => Some(if IsVoid(tag) then stack else stack + [tag])
    case EndTag(tag) => if stack == [] || stack[|stack| - 1] != tag then None else Some(stack[..|stack| - 1])
    case Data(_) => Some(stack)
  }

  function Nest(stack: Path, events: seq<Event>): Option<Path> {
    if events == [] then Some(stack)
    else
      var before := Nest(stack, events[..|events| - 1]);
      if before.None? then None else NestOne(before.value, events[|events| - 1])
  }

  lemma {:induction false} NestConcat(stack: Path, a: seq<Event>, b: seq<Event>)
    requires Nest(stack, a).Some?
    ensures Nest(stack, a + b) == Nest(Nest(stack, a).value, b)
  {
    if b == [] {
      assert a + b == a;
    } else {
      var front := b[..|b| - 1];
      assert (a + b)[..|a + b| - 1] == a + front;
      NestConcat(stack, a, front);
    }
  }

  lemma NestSingle(stack: Path, e: Event)
    ensures Nest(stack, [e]) == NestOne(stack, e)
  {
    assert [e][..0] == [];
  }

  /** A well-formed tree leaves the stack as it found it. */
  lemma {:induction false} TreeNests(n: Node, stack: Path)
    requires WellFormed(n)
    ensures Nest(stack, EventsOf(n)) == Some(stack)
    decreases n, 0
  {
    match n
    case Element(tag, attributes, children) =>
      var inner := stack + [tag];
      hide IsVoid;
      NestSingle(stack, StartTag(tag, attributes));
      TreesNest(children, inner);
      NestConcat(stack, [StartTag(tag, attributes)], EventsOfAll(children));
      NestSingle(inner, EndTag(tag));
      NestConcat(stack, [StartTag(tag, attributes)] + EventsOfAll(children), [EndTag(tag)]);
    case VoidElement(tag, attributes) =>
      NestSingle(stack, StartTag(tag, attributes));
    case Text(text) =>
      NestSingle(stack, Data(text));
  }

  lemma {:induction false} TreesNest(ns: seq<Node>, stack: Path)
    requires forall n <- ns :: WellFormed(n)
    ensures Nest(stack, EventsOfAll(ns)) == Some(stack)
    decreases ns, 1
  {
    if ns != [] {
      var last := |ns| - 1;
      TreesNest(ns[..last], stack);
      TreeNests(ns[last], stack);
      NestConcat(stack, EventsOfAll(ns[..last]), EventsOf(ns[last]));
    }
  }

  // --- Recovering the forest ---

  /** An element whose end tag is still to come, with the nodes that precede it at its level. */
  datatype Opened = Opened(before: seq<Node>, tag: string, attributes: seq<(string, Option<string>)>)

  /** The events of a partly read document: the open elements, outermost first, and the nodes read so far
      inside the innermost. */
  function PartialEvents(open: seq<Opened>, nodes: seq<Node>): seq<Event> {
    if open == [] then EventsOfAll(nodes)
    else
      var last := open[|open| - 1];
      PartialEvents(open[..|open| - 1], last.before) + [StartTag(last.tag, last.attributes)] + EventsOfAll(nodes)
  }

  function Tags(open: seq<Opened>): (tags: Path)
    ensures |tags| == |open|
  {
    if open == [] then [] else Tags(open[..|open| - 1]) + [open[|open| - 1].tag]
  }

  function PartialPaths(open: seq<Opened>, nodes: seq<Node>): seq<Path> {
    if open == [] then PathsOfAll(nodes, [])
    else
      var last := open[|open| - 1];
      PartialPaths(open[..|open| - 1], last.before) + [Tags(open)] + PathsOfAll(nodes, Tags(open))
  }

  ghost predicate PartlyWellFormed(open: seq<Opened>, nodes: seq<Node>) {
    && (forall n <- nodes :: WellFormed(n))
    && (forall o <- open :: !IsVoid(o.tag) && forall n <- o.before :: WellFormed(n))
  }

  /** The paths a document records: at each start tag, the open tags and the tag itself. */
  function RecordedPaths(stack: Path, events: seq<Event>): seq<Path> {
    if events == [] then []
    else
      var front, e := events[..|events| - 1], events[|events| - 1];
      RecordedPaths(stack, front) +
      if e.StartTag? && Nest(stack, front).Some? then [Nest(stack, front).value + [e.tag]] else []
  }

  lemma AddNode(open: seq<Opened>, nodes: seq<Node>, n: Node)
    requires PartlyWellFormed(open, nodes) && WellFormed(n)
    ensures PartlyWellFormed(open, nodes + [n])
    ensures PartialEvents(open, nodes + [n]) == PartialEvents(open, nodes) + EventsOf(n)
    ensures PartialPaths(open, nodes + [n]) == PartialPaths(open, nodes) + PathsOf(n, Tags(open))
  {
    hide EventsOf, PathsOf, IsVoid, WellFormed;
    assert (nodes + [n])[..|nodes|] == nodes;
  }

  lemma OpenElement(open: seq<Opened>, nodes: seq<Node>, tag: string, attributes: seq<(string, Option<string>)>)
    requires PartlyWellFormed(open, nodes) && !IsVoid(tag)
    ensures var more := open + [Opened(nodes, tag, attributes)];
            && PartlyWellFormed(more, []) && Tags(more) == Tags(open) + [tag]
            && PartialEvents(more, []) == PartialEvents(open, nodes) + [StartTag(tag, attributes)]
            && PartialPaths(more, []) == PartialPaths(open, nodes) + [Tags(open) + [tag]]
  {
    hide IsVoid, WellFormed;
    assert (open + [Opened(nodes, tag, attributes)])[..|open|] == open;
  }

  lemma CloseElement(open: seq<Opened>, nodes: seq<Node>)
    requires PartlyWellFormed(open, nodes) && open != []
    ensures var last := open[|open| - 1];
            var outer, closed := open[..|open| - 1], last.before + [Element(last.tag, last.attributes, nodes)];
            && PartlyWellFormed(outer, closed) && Tags(open) == Tags(outer) + [last.tag]
            && PartialEvents(outer, closed) == PartialEvents(open, nodes) + [EndTag(last.tag)]
            && PartialPaths(outer, closed) == PartialPaths(open, nodes)
  {
    hide IsVoid;
    var last := open[|open| - 1];
    AddNode(open[..|open| - 1], last.before, Element(last.tag, last.attributes, nodes));
  }

  lemma NothingRead()
    ensures PartlyWellFormed([], []) && PartialEvents([], []) == [] && PartialPaths([], []) == []
  {}

  /** Events that nest, so far, are those of a partly read forest, and the recorded paths are its paths. */
  lemma {:induction false} NestedEventsBuild(events: seq<Event>) returns (open: seq<Opened>, nodes: seq<Node>)
    requires Nest([], events).Some?
    ensures PartlyWellFormed(open, nodes) && Tags(open) == Nest([], events).value
    ensures PartialEvents(open, nodes) == events && PartialPaths(open, nodes) == RecordedPaths([], events)
  {
    hide IsVoid, PartlyWellFormed, PartialEvents, PartialPaths, EventsOfAll;
    if events == [] {
      open, nodes := [], [];
      NothingRead();
    } else {
      var front, e := events[..|events| - 1], events[|events| - 1];
      open, nodes := NestedEventsBuild(front);
      assert events == front + [e];
      match e {
        case StartTag(tag, attributes) =>
          if IsVoid(tag) {
            VoidWellFormed(tag, attributes);
            AddNode(open, nodes, VoidElement(tag, attributes));
            nodes := nodes + [VoidElement(tag, attributes)];
          } else {
            OpenElement(open, nodes, tag, attributes);
            open, nodes := open + [Opened(nodes, tag, attributes)], [];
          }
        case EndTag(tag) =>
          CloseElement(open, nodes);
          var last := open[|open| - 1];
          open, nodes := open[..|open| - 1], last.before + [Element(last.tag, last.attributes, nodes)];
        case Data(text) =>
          VoidWellFormed("", []);
          AddNode(open, nodes, Text(text));
          nodes := nodes + [Text(text)];
      }
    }
  }

  lemma VoidWellFormed(tag: string, attributes: seq<(string, Option<string>)>)
    ensures IsVoid(tag) ==> WellFormed(VoidElement(tag, attributes))
  {}

  /** Events nest and close everything exactly when they are those of a well-formed forest. */
  lemma NestsIffForest(events: seq<Event>)
    ensures Nest([], events) == Some([]) <==>
              exists ns: seq<Node> :: (forall n <- ns :: WellFormed(n)) && EventsOfAll(ns) == events
  {
    if Nest([], events) == Some([]) {
      var ns := ForestOf(events);
    } else if ns: seq<Node> :| (forall n <- ns :: WellFormed(n)) && EventsOfAll(ns) == events {
      TreesNest(ns, []);
    }
  }

  /** The forest, whose element paths are the recorded ones. */
  lemma ForestOf(events: seq<Event>) returns (ns: seq<Node>)
    requires Nest([], events) == Some([])
    ensures forall n <- ns :: WellFormed(n)
    ensures EventsOfAll(ns) == events && PathsOfAll(ns, []) == RecordedPaths([], events)
  {
    var open, nodes := NestedEventsBuild(events);
    assert open == [];
    ns := nodes;
  }
}
