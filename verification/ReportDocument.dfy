/** The report parser's state, event by event: the element stack, its paths, and what is captured and recorded. */
module ReportDocument {
  import opened Basics
  import opened Results
  import opened Nesting

  datatype Open = Open(tag: string, attributes: Attributes)

  datatype Definition = Definition(term: string, parts: seq<string>, nested: bool, pairId: Option<string>,
                                   sectionId: Option<string>)

  datatype Heading = Heading(tag: string, attributes: Attributes, path: Path)

  /** What is being collected. A depth is the height of the stack just after its element was opened. */
  datatype Captures = Captures(
    style: Option<seq<string>>, scope: Option<seq<string>>, tableDepth: Option<nat>, bodyDepth: Option<nat>,
    row: Option<seq<string>>, cell: Option<seq<string>>, pairId: Option<string>, pairParts: Option<seq<string>>,
    term: Option<seq<string>>, pendingTerm: Option<string>, definitions: seq<Definition>, sectionId: Option<string>,
    heading: Option<Heading>, headingParts: Option<seq<string>>)

  type Terms = map<string, seq<(string, string)>>

  /** What has been collected. */
  datatype Records = Records(
    styles: seq<string>, scopeTexts: seq<string>, scopeVisibility: seq<bool>, sectionIds: seq<string>,
    sectionPaths: seq<Path>,
    sectionTerms: Terms, sectionParts: map<string, seq<string>>, statisticRows: seq<seq<string>>, pairIds: seq<string>,
    pairTexts: map<string, string>, pairTerms: Terms, headings: seq<(string, Attributes, string, Path)>)

  const NO_CAPTURES := Captures(None, None, None, None, None, None, None, None, None, None, [], None, None, None)
  const NO_RECORDS := Records([], [], [], [], [], map[], map[], [], [], map[], map[], [])

  datatype Refusal =
    | DuplicateAttribute | NestedStyle | NestedHeading | NestedScope | InvalidSection | NestedTable | InvalidPair
    | InvalidTerm | MissingTerm | CellOutsideRow | InvalidHeading | NoDefinition | InvalidPairCapture
    | InvalidNesting | Unclosed

  datatype Report = Report(elements: seq<(string, Attributes)>, paths: seq<Path>, stack: seq<Open>, captures: Captures,
                           records: Records)

  const EMPTY := Report([], [], [], NO_CAPTURES, NO_RECORDS)

  // --- Text ---

  function Joined(parts: seq<string>, separator: string): string {
    if parts == [] then ""
    else if |parts| == 1 then parts[0]
    else parts[0] + separator + Joined(parts[1..], separator)
  }

  /** The words of a text. */
  function Words(text: string, word: string): seq<string>
    decreases |text|
  {
    if text == "" then (if word == "" then [] else [word])
    else if IsSpace(text[0]) then (if word == "" then [] else [word]) + Words(text[1..], "")
    else Words(text[1..], word + [text[0]])
  }

  /** The collected parts with every run of space as one blank. */
  function Normalised(parts: seq<string>): string {
    Joined(Words(Joined(parts, " "), ""), " ")
  }

  function Names(attributes: seq<(string, Option<string>)>): set<string> {
    set a | a in attributes :: a.0
  }

  function AttributeMap(attributes: seq<(string, Option<string>)>): Attributes {
    if attributes == [] then map[]
    else AttributeMap(attributes[..|attributes| - 1])[attributes[|attributes| - 1].0 := attributes[|attributes| - 1].1]
  }

  function ValueOf(attributes: Attributes, name: string): string {
    if name in attributes && attributes[name].Some? then attributes[name].value else ""
  }

  function Classes(attributes: Attributes): seq<string> {
    Words(ValueOf(attributes, "class"), "")
  }

  predicate SaysTrue(value: string) {
    |value| == 4 && value[0] in "tT" && value[1] in "rR" && value[2] in "uU" && value[3] in "eE"
  }

  predicate Hidden(o: Open) {
    "hidden" in o.attributes || "inert" in o.attributes || SaysTrue(ValueOf(o.attributes, "aria-hidden"))
  }

  function TagsOf(stack: seq<Open>): (tags: Path)
    ensures |tags| == |stack| && forall i :: 0 <= i < |tags| ==> tags[i] == stack[i].tag
  {
    seq(|stack|, i requires 0 <= i < |stack| => stack[i].tag)
  }

  // --- Start tags, one capture after another ---

  predicate IsHeading(tag: string) { tag in {"h1", "h2", "h3"} }

  predicate IsCell(tag: string) { tag in {"th", "td"} }

  function StartStyle(c: Captures, tag: string): Result<Captures, Refusal> {
    if tag != "style" then Success(c)
    else if c.style.Some? then Failure(NestedStyle)
    else Success(c.(style := Some([])))
  }

  function StartHeading(c: Captures, tag: string, attributes: Attributes, path: Path): Result<Captures, Refusal> {
    if !IsHeading(tag) then Success(c)
    else if c.heading.Some? then Failure(NestedHeading)
    else Success(c.(heading := Some(Heading(tag, attributes, path)), headingParts := Some([])))
  }

  predicate OpensScope(tag: string, attributes: Attributes) {
    tag == "p" && "scope" in Classes(attributes)
  }

  function StartScope(c: Captures, tag: string, attributes: Attributes): Result<Captures, Refusal> {
    if !OpensScope(tag, attributes) then Success(c)
    else if c.scope.Some? then Failure(NestedScope)
    else Success(c.(scope := Some([])))
  }

  predicate OnlyScopeClass(attributes: Attributes) {
    attributes == map["class" := Some("scope")]
  }

  /** A disclosure counts as visible only in its one place, plainly marked, under no hidden ancestor. */
  predicate ScopeVisible(stack: seq<Open>, attributes: Attributes, path: Path) {
    && OnlyScopeClass(attributes)
    && !(exists o <- stack :: Hidden(o))
    && path == ["html", "body", "header", "p"]
  }

  function Label(attributes: Attributes): Option<string> {
    if "aria-labelledby" in attributes then attributes["aria-labelledby"] else None
  }

  predicate OnlyLabel(attributes: Attributes) {
    attributes == map["aria-labelledby" := Label(attributes)]
  }

  predicate OnlyPairLabel(attributes: Attributes) {
    attributes == map["class" := Some("pair"), "aria-labelledby" := Label(attributes)]
  }

  function StartSection(c: Captures, tag: string, attributes: Attributes): Result<Captures, Refusal> {
    if tag != "section" then Success(c)
    else if c.sectionId.Some? || Label(attributes).None? || !OnlyLabel(attributes) then Failure(InvalidSection)
    else Success(c.(sectionId := Label(attributes)))
  }

  function StartTable(c: Captures, tag: string, attributes: Attributes, depth: nat): Result<Captures, Refusal> {
    if tag == "table" && "statistics" in Classes(attributes) then
      (if c.tableDepth.Some? then Failure(NestedTable) else Success(c.(tableDepth := Some(depth))))
    else if tag == "tbody" && c.tableDepth.Some? then Success(c.(bodyDepth := Some(depth)))
    else if tag == "tr" && c.bodyDepth.Some? then Success(c.(row := Some([])))
    else if IsCell(tag) && c.row.Some? then Success(c.(cell := Some([])))
    else Success(c)
  }

  predicate OpensPair(tag: string, attributes: Attributes) {
    tag == "article" && "pair" in Classes(attributes)
  }

  function StartPair(c: Captures, tag: string, attributes: Attributes): Result<Captures, Refusal> {
    if !OpensPair(tag, attributes) then Success(c)
    else if Label(attributes).None? || c.pairId.Some? || !OnlyPairLabel(attributes) then Failure(InvalidPair)
    else Success(c.(pairId := Label(attributes), pairParts := Some([])))
  }

  function MarkNested(definitions: seq<Definition>): (marked: seq<Definition>)
    ensures |marked| == |definitions|
  {
    seq(|definitions|, i requires 0 <= i < |definitions| => definitions[i].(nested := true))
  }

  function StartTerm(c: Captures, tag: string, path: Path): Result<Captures, Refusal> {
    if tag == "dt" then
      (if |path| < 2 || path[|path| - 2] != "dl" || c.term.Some? || c.pendingTerm.Some? then Failure(InvalidTerm)
       else Success(c.(term := Some([]))))
    else if tag == "dd" then
      (if |path| < 2 || path[|path| - 2] != "dl" || c.pendingTerm.None? then Failure(MissingTerm)
       else
         var d := Definition(c.pendingTerm.value, [], false, c.pairId, c.sectionId);
         Success(c.(definitions := c.definitions + [d], pendingTerm := None)))
    else if tag == "dl" then Success(c.(definitions := MarkNested(c.definitions)))
    else Success(c)
  }

  function StartCaptures(c: Captures, tag: string, attributes: Attributes, path: Path,
                         depth: nat): Result<Captures, Refusal>
  {
    var c1 :- StartStyle(c, tag);
    var c2 :- StartHeading(c1, tag, attributes, path);
    var c3 :- StartScope(c2, tag, attributes);
    var c4 :- StartSection(c3, tag, attributes);
    var c5 :- StartTable(c4, tag, attributes, depth);
    var c6 :- StartPair(c5, tag, attributes);
    StartTerm(c6, tag, path)
  }

  function RecordScope(r: Records, stack: seq<Open>, tag: string, attributes: Attributes, path: Path): Records {
    if !OpensScope(tag, attributes) then r
    else r.(scopeVisibility := r.scopeVisibility + [ScopeVisible(stack, attributes, path)])
  }

  function RecordSection(r: Records, tag: string, attributes: Attributes, path: Path): Records {
    if tag != "section" || Label(attributes).None? then r
    else
      var id := Label(attributes).value;
      r.(sectionIds := r.sectionIds + [id], sectionPaths := r.sectionPaths + [path],
         sectionTerms := r.sectionTerms[id := []], sectionParts := r.sectionParts[id := []])
  }

  function RecordPair(r: Records, tag: string, attributes: Attributes): Records {
    if !OpensPair(tag, attributes) || Label(attributes).None? then r
    else
      var id := Label(attributes).value;
      r.(pairIds := r.pairIds + [id], pairTerms := r.pairTerms[id := []])
  }

  function StartRecords(r: Records, stack: seq<Open>, tag: string, attributes: Attributes, path: Path): Records {
    RecordPair(RecordSection(RecordScope(r, stack, tag, attributes, path), tag, attributes, path), tag, attributes)
  }

  function AfterStart(d: Report, tag: string, attributes: seq<(string, Option<string>)>): Result<Report, Refusal> {
    if |Names(attributes)| != |attributes| then Failure(DuplicateAttribute)
    else
      var given := AttributeMap(attributes);
      var path := TagsOf(d.stack) + [tag];
      var stack := if IsVoid(tag) then d.stack else d.stack + [Open(tag, given)];
      var captures :- StartCaptures(d.captures, tag, given, path, |stack|);
      Success(Report(d.elements + [(tag, given)], d.paths + [path], stack, captures,
                     StartRecords(d.records, if stack == [] then [] else stack[..|stack| - 1], tag, given, path)))
  }

  // --- End tags ---

  function Appended(terms: Terms, id: string, entry: (string, string)): Terms {
    terms[id := (if id in terms then terms[id] else []) + [entry]]
  }

  function EndHeading(c: Captures, tag: string): Result<Captures, Refusal> {
    if IsHeading(tag) && c.heading.Some? then
      (if c.headingParts.None? || c.heading.value.tag != tag then Failure(InvalidHeading)
       else Success(c.(heading := None, headingParts := None)))
    else Success(c)
  }

  function EndCell(c: Captures, tag: string): Result<Captures, Refusal> {
    if IsCell(tag) && c.cell.Some? then
      (if c.row.None? then Failure(CellOutsideRow)
       else Success(c.(row := Some(c.row.value + [Normalised(c.cell.value)]), cell := None)))
    else Success(c)
  }

  function EndDepths(c: Captures, tag: string, depth: nat): Captures {
    var c1 := if tag == "tr" then c.(row := None) else c;
    var c2 := if tag == "tbody" && c1.bodyDepth == Some(depth) then c1.(bodyDepth := None) else c1;
    var c3 := if tag == "table" && c2.tableDepth == Some(depth) then c2.(tableDepth := None) else c2;
    if tag == "p" then c3.(scope := None) else c3
  }

  function EndTerm(c: Captures, tag: string): Captures {
    if tag == "dt" && c.term.Some? then c.(pendingTerm := Some(Normalised(c.term.value)), term := None) else c
  }

  function EndDefinition(c: Captures, tag: string): Result<Captures, Refusal> {
    if tag != "dd" then Success(c)
    else if c.definitions == [] then Failure(NoDefinition)
    else Success(c.(definitions := c.definitions[..|c.definitions| - 1]))
  }

  function EndPair(c: Captures, tag: string): Result<Captures, Refusal> {
    if tag == "article" && c.pairId.Some? then
      (if c.pairParts.None? then Failure(InvalidPairCapture) else Success(c.(pairId := None, pairParts := None)))
    else Success(c)
  }

  function EndCaptures(c: Captures, tag: string, depth: nat): Result<Captures, Refusal> {
    var c1 := if tag == "style" then c.(style := None) else c;
    var c2 :- EndCell(c1, tag);
    var c3 := EndDepths(c2, tag, depth);
    var c4 :- EndHeading(c3, tag);
    var c5 := EndTerm(c4, tag);
    var c6 :- EndDefinition(c5, tag);
    var c7 :- EndPair(c6, tag);
    Success(if tag == "section" then c7.(sectionId := None) else c7)
  }

  /** The term and value a finished definition records; a value that holds a list of its own is not
      spelled out. */
  function EntryOf(d: Definition): (string, string) {
    (d.term, if d.nested then "<nested-ledger>" else Normalised(d.parts))
  }

  function RecordStyle(r: Records, c: Captures, tag: string): Records {
    if tag == "style" && c.style.Some? then r.(styles := r.styles + [Joined(c.style.value, "")]) else r
  }

  function RecordRow(r: Records, c: Captures, tag: string): Records {
    if tag == "tr" && c.row.Some? then r.(statisticRows := r.statisticRows + [c.row.value]) else r
  }

  function RecordScopeText(r: Records, c: Captures, tag: string): Records {
    if tag == "p" && c.scope.Some? then r.(scopeTexts := r.scopeTexts + [Normalised(c.scope.value)]) else r
  }

  function RecordHeading(r: Records, c: Captures, tag: string): Records {
    if IsHeading(tag) && c.heading.Some? && c.headingParts.Some? then
      var h := c.heading.value;
      r.(headings := r.headings + [(h.tag, h.attributes, Normalised(c.headingParts.value), h.path)])
    else r
  }

  function RecordEntry(r: Records, d: Definition): Records {
    if d.pairId.Some? then r.(pairTerms := Appended(r.pairTerms, d.pairId.value, EntryOf(d)))
    else if d.sectionId.Some? then r.(sectionTerms := Appended(r.sectionTerms, d.sectionId.value, EntryOf(d)))
    else r
  }

  function RecordDefinition(r: Records, c: Captures, tag: string): Records {
    if tag == "dd" && c.definitions != [] then RecordEntry(r, c.definitions[|c.definitions| - 1]) else r
  }

  function RecordPairText(r: Records, c: Captures, tag: string): Records {
    if tag == "article" && c.pairId.Some? && c.pairParts.Some? then
      r.(pairTexts := r.pairTexts[c.pairId.value := Normalised(c.pairParts.value)])
    else r
  }

  /** What closing an element records, of the captures that were open before it. */
  function EndRecords(r: Records, c: Captures, tag: string): Records {
    var r1 := RecordRow(RecordStyle(r, c, tag), c, tag);
    var r2 := RecordHeading(RecordScopeText(r1, c, tag), c, tag);
    RecordPairText(RecordDefinition(r2, c, tag), c, tag)
  }

  function AfterEnd(d: Report, tag: string): Result<Report, Refusal> {
    var captures :- EndCaptures(d.captures, tag, |d.stack|);
    if d.stack == [] || d.stack[|d.stack| - 1].tag != tag then Failure(InvalidNesting)
    else Success(d.(stack := d.stack[..|d.stack| - 1], captures := captures,
                    records := EndRecords(d.records, d.captures, tag)))
  }

  // --- Text data ---

  function Grown(parts: Option<seq<string>>, text: string): Option<seq<string>> {
    if parts.Some? then Some(parts.value + [text]) else None
  }

  function GrownAll(definitions: seq<Definition>, text: string): (grown: seq<Definition>)
    ensures |grown| == |definitions|
  {
    seq(|definitions|, i requires 0 <= i < |definitions| => definitions[i].(parts := definitions[i].parts + [text]))
  }

  function AfterData(d: Report, text: string): Report {
    var c := d.captures;
    if c.style.Some? then d.(captures := c.(style := Grown(c.style, text)))
    else
      var records :=
        if c.sectionId.Some? then
          var id := c.sectionId.value;
          var parts := if id in d.records.sectionParts then d.records.sectionParts[id] else [];
          d.records.(sectionParts := d.records.sectionParts[id := parts + [text]])
        else d.records;
      d.(records := records,
         captures := c.(scope := Grown(c.scope, text), cell := Grown(c.cell, text),
                        pairParts := Grown(c.pairParts, text),
                        headingParts := Grown(c.headingParts, text), term := Grown(c.term, text),
                        definitions := GrownAll(c.definitions, text)))
  }

  function AfterEvent(d: Report, e: Event): Result<Report, Refusal> {
    match e
    case StartTag(tag, attributes) => AfterStart(d, tag, attributes)
    case EndTag(tag) => AfterEnd(d, tag)
    case Data(text) => Success(AfterData(d, text))
  }

  function AfterEvents(events: seq<Event>): Result<Report, Refusal> {
    if events == [] then Success(EMPTY)
    else
      var d :- AfterEvents(events[..|events| - 1]);
      AfterEvent(d, events[|events| - 1])
  }

  /** The closing check: nothing may be left open. */
  predicate AllClosed(d: Report) {
    d.stack == [] && d.captures == NO_CAPTURES
  }

  function Parsed(events: seq<Event>): Result<Report, Refusal> {
    var d :- AfterEvents(events);
    if AllClosed(d) then Success(d) else Failure(Unclosed)
  }

  // --- Nesting and paths ---

  /** Each accepted event moves the stack as nesting requires and records the path of a start tag. */
  lemma EventNests(d: Report, e: Event)
    requires AfterEvent(d, e).Success?
    ensures NestOne(TagsOf(d.stack), e) == Some(TagsOf(AfterEvent(d, e).value.stack))
    ensures AfterEvent(d, e).value.paths == d.paths + if e.StartTag? then [TagsOf(d.stack) + [e.tag]] else []
  {
    hide IsVoid, StartCaptures, EndCaptures, StartRecords, EndRecords;
    match e
    case StartTag(tag, attributes) =>
      assert TagsOf(d.stack + [Open(tag, AttributeMap(attributes))]) == TagsOf(d.stack) + [tag];
    case EndTag(tag) =>
      assert TagsOf(d.stack[..|d.stack| - 1]) == TagsOf(d.stack)[..|d.stack| - 1];
    case Data(text) =>
  }

  lemma {:induction false} EventsNest(events: seq<Event>)
    requires AfterEvents(events).Success?
    ensures Nest([], events) == Some(TagsOf(AfterEvents(events).value.stack))
    ensures AfterEvents(events).value.paths == RecordedPaths([], events)
  {
    hide AfterEvent;
    if events != [] {
      var front := events[..|events| - 1];
      EventsNest(front);
      EventNests(AfterEvents(front).value, events[|events| - 1]);
    }
  }

  /** An accepted document is a well-formed forest, void elements have no end tag, and the recorded paths are
      its elements' ancestor chains, in document order. */
  lemma AcceptedIsForest(events: seq<Event>) returns (ns: seq<Node>)
    requires Parsed(events).Success?
    ensures forall n <- ns :: WellFormed(n)
    ensures EventsOfAll(ns) == events && Parsed(events).value.paths == PathsOfAll(ns, [])
  {
    hide AfterEvents;
    EventsNest(events);
    ns := ForestOf(events);
  }

  // --- Every open capture belongs to an open element ---

  function CountTag(tags: Path, tag: string): nat {
    if tags == [] then 0 else CountTag(tags[..|tags| - 1], tag) + if tags[|tags| - 1] == tag then 1 else 0
  }

  ghost predicate DepthOf(tags: Path, depth: Option<nat>, tag: string) {
    depth.Some? ==> 1 <= depth.value <= |tags| && tags[depth.value - 1] == tag
  }

  ghost predicate HeadingHeld(tags: Path, heading: Option<Heading>, parts: Option<seq<string>>) {
    && (heading.Some? ==> heading.value.tag in tags && IsHeading(heading.value.tag))
    && (parts.Some? <==> heading.Some?)
  }

  /** Each capture that is open has its element on the stack. Of the open definition values all but
      `missing` have a definition open. */
  ghost predicate Held(tags: Path, c: Captures, missing: nat) {
    && (c.style.Some? ==> "style" in tags)
    && (c.scope.Some? ==> "p" in tags)
    && DepthOf(tags, c.tableDepth, "table") && DepthOf(tags, c.bodyDepth, "tbody")
    && (c.row.Some? ==> "tr" in tags)
    && (c.cell.Some? ==> "th" in tags || "td" in tags)
    && (c.pairId.Some? ==> "article" in tags) && (c.pairParts.Some? <==> c.pairId.Some?)
    && (c.term.Some? ==> "dt" in tags)
    && |c.definitions| + missing == CountTag(tags, "dd")
    && (c.sectionId.Some? ==> "section" in tags)
    && HeadingHeld(tags, c.heading, c.headingParts)
  }

  function Missing(tag: string): nat {
    if tag == "dd" then 1 else 0
  }

  lemma PushKeepsHeld(tags: Path, tag: string, c: Captures)
    requires Held(tags, c, 0)
    ensures Held(tags + [tag], c, Missing(tag))
  {
    hide IsHeading;
    var more := tags + [tag];
    assert more[..|tags|] == tags;
    assert forall t <- tags :: t in more;
    assert CountTag(more, "dd") == CountTag(tags, "dd") + Missing(tag);
  }

  lemma StyleHeld(tags: Path, c: Captures, tag: string, n: nat)
    requires Held(tags, c, n) && tag in tags && StartStyle(c, tag).Success?
    ensures Held(tags, StartStyle(c, tag).value, n)
  {
    hide CountTag, DepthOf;
  }

  lemma HeadingStartHeld(tags: Path, c: Captures, tag: string, attributes: Attributes, path: Path, n: nat)
    requires Held(tags, c, n) && tag in tags && StartHeading(c, tag, attributes, path).Success?
    ensures Held(tags, StartHeading(c, tag, attributes, path).value, n)
  {
    hide CountTag, DepthOf, IsHeading;
  }

  lemma ScopeHeld(tags: Path, c: Captures, tag: string, attributes: Attributes, n: nat)
    requires Held(tags, c, n) && tag in tags && StartScope(c, tag, attributes).Success?
    ensures Held(tags, StartScope(c, tag, attributes).value, n)
  {
    hide CountTag, DepthOf, Classes, HeadingHeld;
  }

  lemma SectionHeld(tags: Path, c: Captures, tag: string, attributes: Attributes, n: nat)
    requires Held(tags, c, n) && tag in tags && StartSection(c, tag, attributes).Success?
    ensures Held(tags, StartSection(c, tag, attributes).value, n)
  {
    hide CountTag, DepthOf, HeadingHeld;
  }

  lemma TableHeld(tags: Path, c: Captures, tag: string, attributes: Attributes, n: nat)
    requires Held(tags, c, n) && tags != [] && tags[|tags| - 1] == tag
             && StartTable(c, tag, attributes, |tags|).Success?
    ensures Held(tags, StartTable(c, tag, attributes, |tags|).value, n)
  {
    hide CountTag, Classes, HeadingHeld, IsCell;
    assert tag in tags;
    CellTag(tag);
  }

  lemma CellTag(tag: string)
    ensures IsCell(tag) <==> tag == "th" || tag == "td"
  {}

  lemma PairHeld(tags: Path, c: Captures, tag: string, attributes: Attributes, n: nat)
    requires Held(tags, c, n) && tag in tags && StartPair(c, tag, attributes).Success?
    ensures Held(tags, StartPair(c, tag, attributes).value, n)
  {
    hide CountTag, DepthOf, Classes, HeadingHeld;
  }

  lemma TermHeld(tags: Path, c: Captures, tag: string, path: Path)
    requires Held(tags, c, Missing(tag)) && tag in tags && StartTerm(c, tag, path).Success?
    ensures Held(tags, StartTerm(c, tag, path).value, 0)
  {
    hide CountTag, DepthOf, HeadingHeld;
  }

  /** Opening an element keeps every capture with its element. */
  lemma StartKeepsHeld(tags: Path, c: Captures, tag: string, attributes: Attributes, path: Path)
    requires Held(tags, c, 0) && StartCaptures(c, tag, attributes, path, |tags| + 1).Success?
    ensures Held(tags + [tag], StartCaptures(c, tag, attributes, path, |tags| + 1).value, 0)
  {
    hide Held, StartStyle, StartHeading, StartScope, StartSection, StartTable, StartPair, StartTerm, Missing;
    var more := tags + [tag];
    assert more[|tags|] == tag && tag in more;
    PushKeepsHeld(tags, tag, c);
    var n := Missing(tag);
    StyleHeld(more, c, tag, n);
    var c1 := StartStyle(c, tag).value;
    HeadingStartHeld(more, c1, tag, attributes, path, n);
    var c2 := StartHeading(c1, tag, attributes, path).value;
    ScopeHeld(more, c2, tag, attributes, n);
    var c3 := StartScope(c2, tag, attributes).value;
    SectionHeld(more, c3, tag, attributes, n);
    var c4 := StartSection(c3, tag, attributes).value;
    TableHeld(more, c4, tag, attributes, n);
    var c5 := StartTable(c4, tag, attributes, |more|).value;
    PairHeld(more, c5, tag, attributes, n);
    TermHeld(more, StartPair(c5, tag, attributes).value, tag, path);
  }

  /** Void elements open no capture. */
  lemma VoidStartsNothing(c: Captures, tag: string, attributes: Attributes, path: Path, depth: nat)
    requires IsVoid(tag)
    ensures StartCaptures(c, tag, attributes, path, depth) == Success(c)
  {
    VoidIsPlain(tag);
    hide IsVoid, Classes;
  }

  lemma VoidIsPlain(tag: string)
    requires IsVoid(tag)
    ensures tag != "style" && !IsHeading(tag) && tag != "p" && tag != "section" && tag != "table" && tag != "tbody"
            && tag != "tr"
    ensures !IsCell(tag) && tag != "article" && tag != "dt" && tag != "dd" && tag != "dl"
  {}

  // --- Closing an element ---

  lemma PopKeepsOther(tags: Path, other: string)
    requires tags != [] && tags[|tags| - 1] != other && other in tags
    ensures other in tags[..|tags| - 1]
  {
    var i :| 0 <= i < |tags| && tags[i] == other;
    assert tags[..|tags| - 1][i] == other;
  }

  lemma EndCellEffect(c: Captures, tag: string)
    requires EndCell(c, tag).Success?
    ensures var r := EndCell(c, tag).value;
            && r == c.(row := r.row, cell := r.cell)
            && (r.row.Some? <==> c.row.Some?) && (r.cell.Some? ==> c.cell.Some? && !IsCell(tag))
            && (!IsCell(tag) ==> r == c)
  {
    hide Normalised, IsCell;
  }

  lemma EndDepthsEffect(c: Captures, tag: string, depth: nat)
    ensures var r := EndDepths(c, tag, depth);
            && r == c.(row := r.row, bodyDepth := r.bodyDepth, tableDepth := r.tableDepth, scope := r.scope)
            && (r.row.Some? ==> c.row.Some? && tag != "tr") && (r.scope.Some? ==> c.scope.Some? && tag != "p")
            && (r.tableDepth.Some? ==> r.tableDepth == c.tableDepth && (tag == "table" ==> c.tableDepth != Some(depth)))
            && (r.bodyDepth.Some? ==> r.bodyDepth == c.bodyDepth && (tag == "tbody" ==> c.bodyDepth != Some(depth)))
  {}

  lemma EndHeadingEffect(c: Captures, tag: string)
    requires EndHeading(c, tag).Success?
    ensures var r := EndHeading(c, tag).value;
            && r == c.(heading := r.heading, headingParts := r.headingParts)
            && (if IsHeading(tag) then r.heading.None? else r.heading == c.heading)
            && ((c.headingParts.Some? <==> c.heading.Some?) ==> (r.headingParts.Some? <==> r.heading.Some?))
  {
    hide IsHeading;
  }

  lemma EndPairEffect(c: Captures, tag: string)
    requires EndPair(c, tag).Success?
    ensures var r := EndPair(c, tag).value;
            && r == c.(pairId := r.pairId, pairParts := r.pairParts)
            && (r.pairId.Some? ==> c.pairId.Some? && tag != "article")
            && ((c.pairParts.Some? <==> c.pairId.Some?) ==> (r.pairParts.Some? <==> r.pairId.Some?))
  {}

  lemma EndTermEffect(c: Captures, tag: string)
    ensures var r := EndTerm(c, tag);
            && r == c.(term := r.term, pendingTerm := r.pendingTerm)
            && (r.term.Some? ==> c.term.Some? && tag != "dt")
  {
    hide Normalised;
  }

  lemma EndDefinitionEffect(c: Captures, tag: string)
    requires EndDefinition(c, tag).Success?
    ensures var r := EndDefinition(c, tag).value;
            r == c.(definitions := r.definitions) && |r.definitions| == |c.definitions| - Missing(tag)
  {}

  /** Each record of an end tag is the same whether its capture is looked up before the end tag or just
      before it closes, since the captures that close earlier are others. */
  lemma RecordsInTurn(r: Records, c: Captures, tag: string, depth: nat)
    requires EndCaptures(c, tag, depth).Success?
    ensures var c2 := EndCell(if tag == "style" then c.(style := None) else c, tag).value;
            var c3 := EndDepths(c2, tag, depth);
            var c5 := EndTerm(EndHeading(c3, tag).value, tag);
            var r2 := RecordScopeText(RecordRow(RecordStyle(r, c, tag), c2, tag), c2, tag);
            EndRecords(r, c, tag) ==
            RecordPairText(RecordDefinition(RecordHeading(r2, c3, tag), c5, tag), EndDefinition(c5, tag).value, tag)
  {
    hide EndCell, EndDepths, EndHeading, EndTerm, EndDefinition, IsCell, IsHeading, Normalised, Appended, EntryOf;
    var c1 := if tag == "style" then c.(style := None) else c;
    EndCellEffect(c1, tag);
    CellTag(tag);
    var c2 := EndCell(c1, tag).value;
    EndDepthsEffect(c2, tag, depth);
    var c3 := EndDepths(c2, tag, depth);
    EndHeadingEffect(c3, tag);
    EndTermEffect(EndHeading(c3, tag).value, tag);
    EndDefinitionEffect(EndTerm(EndHeading(c3, tag).value, tag), tag);
  }

  /** Which captures an end tag leaves open. */
  ghost predicate ClosedBy(c: Captures, tag: string, depth: nat, r: Captures) {
    && (r.style.Some? ==> c.style.Some? && tag != "style")
    && (r.scope.Some? ==> c.scope.Some? && tag != "p")
    && (r.row.Some? ==> c.row.Some? && tag != "tr")
    && (r.cell.Some? ==> c.cell.Some? && !IsCell(tag))
    && (r.tableDepth.Some? ==> r.tableDepth == c.tableDepth && (tag == "table" ==> c.tableDepth != Some(depth)))
    && (r.bodyDepth.Some? ==> r.bodyDepth == c.bodyDepth && (tag == "tbody" ==> c.bodyDepth != Some(depth)))
    && (if IsHeading(tag) then r.heading.None? else r.heading == c.heading)
    && ((c.headingParts.Some? <==> c.heading.Some?) ==> (r.headingParts.Some? <==> r.heading.Some?))
    && (r.term.Some? ==> c.term.Some? && tag != "dt")
    && |r.definitions| == |c.definitions| - Missing(tag)
    && (r.pairId.Some? ==> c.pairId.Some? && tag != "article")
    && ((c.pairParts.Some? <==> c.pairId.Some?) ==> (r.pairParts.Some? <==> r.pairId.Some?))
    && (r.sectionId.Some? ==> c.sectionId.Some? && tag != "section")
  }

  lemma EndCloses(c: Captures, tag: string, depth: nat)
    requires EndCaptures(c, tag, depth).Success?
    ensures ClosedBy(c, tag, depth, EndCaptures(c, tag, depth).value)
  {
    hide EndCell, EndDepths, EndHeading, EndTerm, EndDefinition, EndPair, IsHeading, IsCell;
    var c1 := if tag == "style" then c.(style := None) else c;
    EndCellEffect(c1, tag);
    var c2 := EndCell(c1, tag).value;
    EndDepthsEffect(c2, tag, depth);
    var c3 := EndDepths(c2, tag, depth);
    EndHeadingEffect(c3, tag);
    var c4 := EndHeading(c3, tag).value;
    EndTermEffect(c4, tag);
    var c5 := EndTerm(c4, tag);
    EndDefinitionEffect(c5, tag);
    EndPairEffect(EndDefinition(c5, tag).value, tag);
  }

  /** What is open after the end tag's captures are closed still has its element once the element is
      popped. */
  lemma EndKeepsHeld(tags: Path, c: Captures)
    requires tags != [] && Held(tags, c, 0) && EndCaptures(c, tags[|tags| - 1], |tags|).Success?
    ensures Held(tags[..|tags| - 1], EndCaptures(c, tags[|tags| - 1], |tags|).value, 0)
  {
    hide EndCaptures;
    var tag, less := tags[|tags| - 1], tags[..|tags| - 1];
    EndCloses(c, tag, |tags|);
    forall other | other in tags && other != tag ensures other in less {
      PopKeepsOther(tags, other);
    }
  }

  // --- The closing check ---

  lemma EventKeepsHeld(d: Report, e: Event)
    requires Held(TagsOf(d.stack), d.captures, 0) && AfterEvent(d, e).Success?
    ensures Held(TagsOf(AfterEvent(d, e).value.stack), AfterEvent(d, e).value.captures, 0)
  {
    hide Held, IsVoid, StartCaptures, EndCaptures, StartRecords, EndRecords;
    var tags := TagsOf(d.stack);
    match e
    case StartTag(tag, attributes) =>
      var given := AttributeMap(attributes);
      if IsVoid(tag) {
        VoidStartsNothing(d.captures, tag, given, tags + [tag], |tags|);
      } else {
        assert TagsOf(d.stack + [Open(tag, given)]) == tags + [tag];
        StartKeepsHeld(tags, d.captures, tag, given, tags + [tag]);
      }
    case EndTag(tag) =>
      assert TagsOf(d.stack[..|d.stack| - 1]) == tags[..|tags| - 1];
      EndKeepsHeld(tags, d.captures);
    case Data(text) =>
      DataKeepsHeld(tags, d, text);
  }

  lemma DataKeepsHeld(tags: Path, d: Report, text: string)
    requires Held(tags, d.captures, 0)
    ensures Held(tags, AfterData(d, text).captures, 0)
  {
    hide CountTag, DepthOf, IsHeading;
  }

  /** At every moment each open capture has its element on the stack, and the open definitions are as many
      as the open definition values. */
  lemma {:induction false} EventsKeepHeld(events: seq<Event>)
    requires AfterEvents(events).Success?
    ensures Held(TagsOf(AfterEvents(events).value.stack), AfterEvents(events).value.captures, 0)
  {
    if events != [] {
      hide Held, AfterEvent;
      var front := events[..|events| - 1];
      EventsKeepHeld(front);
      EventKeepsHeld(AfterEvents(front).value, events[|events| - 1]);
    }
  }

  /** The closing check refuses exactly a document with an element left open or a term left without its
      value: when every element is closed no other capture can be open. */
  lemma ClosingCheckExact(events: seq<Event>)
    requires AfterEvents(events).Success?
    ensures Parsed(events).Success? <==>
            var d := AfterEvents(events).value; d.stack == [] && d.captures.pendingTerm.None?
  {
    hide AfterEvents, IsHeading;
    EventsKeepHeld(events);
  }

  /** The parser never runs out of open definitions at the end tag of a well-nested value. */
  lemma DefinitionAlwaysOpen(events: seq<Event>)
    requires AfterEvents(events).Success?
    requires var stack := AfterEvents(events).value.stack; stack != [] && stack[|stack| - 1].tag == "dd"
    ensures AfterEvents(events).value.captures.definitions != []
  {
    hide AfterEvents;
    EventsKeepHeld(events);
    var tags := TagsOf(AfterEvents(events).value.stack);
    assert tags[|tags| - 1] == "dd";
  }
}
