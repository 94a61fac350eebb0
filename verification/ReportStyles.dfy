/** What the report's recorded styles are, read off the document's forest. */
module ReportStyles {
  import opened Nesting
  import opened ReportDocument
  import opened Results

  /** All text of a tree, in document order. */
  function TextsOf(n: Node): seq<string> {
    match n
    case Element(_, _, children) => TextsOfAll(children)
    case VoidElement(_, _) => []
    case Text(text) => [text]
  }

  function TextsOfAll(ns: seq<Node>): seq<string> {
    if ns == [] then [] else TextsOfAll(ns[..|ns| - 1]) + TextsOf(ns[|ns| - 1])
  }

  /** The text of each style element of a tree, in document order. */
  function StylesOf(n: Node): seq<string> {
    match n
    case Element(tag, _, children) =>
      if tag == "style" then [Joined(TextsOfAll(children), "")] else StylesOfAll(children)
    case VoidElement(_, _) => []
    case Text(_) => []
  }

  function StylesOfAll(ns: seq<Node>): seq<string> {
    if ns == [] then [] else StylesOfAll(ns[..|ns| - 1]) + StylesOf(ns[|ns| - 1])
  }

  // --- Reading on from any state ---

  function Onward(d: Report, events: seq<Event>): Result<Report, Refusal> {
    if events == [] then Success(d)
    else
      var e :- Onward(d, events[..|events| - 1]);
      AfterEvent(e, events[|events| - 1])
  }

  lemma {:induction false} OnwardFromEmpty(events: seq<Event>)
    ensures AfterEvents(events) == Onward(EMPTY, events)
  {
    hide AfterEvent;
    if events != [] {
      OnwardFromEmpty(events[..|events| - 1]);
    }
  }

  lemma {:induction false} OnwardConcat(d: Report, a: seq<Event>, b: seq<Event>)
    requires Onward(d, a + b).Success?
    ensures Onward(d, a).Success? && Onward(d, a + b) == Onward(Onward(d, a).value, b)
  {
    hide AfterEvent;
    if b == [] {
      assert a + b == a;
    } else {
      var front := b[..|b| - 1];
      assert (a + b)[..|a + b| - 1] == a + front;
      OnwardConcat(d, a, front);
    }
  }

  lemma OnwardSingle(d: Report, e: Event)
    ensures Onward(d, [e]) == AfterEvent(d, e)
  {
    hide AfterEvent;
    assert [e][..0] == [];
  }

  // --- What one event does to the style ---

  lemma StartStyles(d: Report, tag: string, attributes: seq<(string, Option<string>)>)
    requires AfterStart(d, tag, attributes).Success?
    ensures var e := AfterStart(d, tag, attributes).value;
            && e.records.styles == d.records.styles
            && (if tag == "style" then d.captures.style.None? && e.captures.style == Some([])
                else e.captures.style == d.captures.style)
  {
    hide AttributeMap, Names, IsVoid, StartCaptures, RecordScope, RecordSection, RecordPair, OpensScope, OpensPair;
    hide Label;
    var given, path := AttributeMap(attributes), TagsOf(d.stack) + [tag];
    var stack := if IsVoid(tag) then d.stack else d.stack + [Open(tag, given)];
    StartStyleOnly(d.captures, tag, given, path, |stack|);
    StartRecordsKeepStyles(d.records, if stack == [] then [] else stack[..|stack| - 1], tag, given, path);
  }

  lemma StartRecordsKeepStyles(r: Records, stack: seq<Open>, tag: string, attributes: Attributes, path: Path)
    ensures StartRecords(r, stack, tag, attributes, path).styles == r.styles
  {
    hide RecordScope, RecordSection, RecordPair;
    var r1 := RecordScope(r, stack, tag, attributes, path);
    StartRecordKeepsStyles(r, stack, tag, attributes, path);
    StartRecordKeepsStyles(r1, stack, tag, attributes, path);
    StartRecordKeepsStyles(RecordSection(r1, tag, attributes, path), stack, tag, attributes, path);
  }

  lemma StartRecordKeepsStyles(r: Records, stack: seq<Open>, tag: string, attributes: Attributes, path: Path)
    ensures RecordScope(r, stack, tag, attributes, path).styles == r.styles
    ensures RecordSection(r, tag, attributes, path).styles == r.styles
    ensures RecordPair(r, tag, attributes).styles == r.styles
  {
    hide OpensScope, OpensPair, Label, ScopeVisible;
  }

  lemma StartStyleOnly(c: Captures, tag: string, attributes: Attributes, path: Path, depth: nat)
    requires StartCaptures(c, tag, attributes, path, depth).Success?
    ensures var style := StartCaptures(c, tag, attributes, path, depth).value.style;
            if tag == "style" then c.style.None? && style == Some([]) else style == c.style
  {
    hide StartHeading, StartScope, StartSection, StartTable, StartPair, StartTerm;
    var c1 := StartStyle(c, tag).value;
    LaterStartsKeepStyle(c1, tag, attributes, path, depth);
    var c2 := StartHeading(c1, tag, attributes, path).value;
    LaterStartsKeepStyle(c2, tag, attributes, path, depth);
    var c3 := StartScope(c2, tag, attributes).value;
    LaterStartsKeepStyle(c3, tag, attributes, path, depth);
    var c4 := StartSection(c3, tag, attributes).value;
    LaterStartsKeepStyle(c4, tag, attributes, path, depth);
    var c5 := StartTable(c4, tag, attributes, depth).value;
    LaterStartsKeepStyle(c5, tag, attributes, path, depth);
    LaterStartsKeepStyle(StartPair(c5, tag, attributes).value, tag, attributes, path, depth);
  }

  predicate KeepsStyle(c: Captures, r: Result<Captures, Refusal>) {
    r.Success? ==> r.value.style == c.style
  }

  lemma LaterStartsKeepStyle(c: Captures, tag: string, attributes: Attributes, path: Path, depth: nat)
    ensures KeepsStyle(c, StartHeading(c, tag, attributes, path)) && KeepsStyle(c, StartScope(c, tag, attributes))
    ensures KeepsStyle(c, StartSection(c, tag, attributes)) && KeepsStyle(c, StartTable(c, tag, attributes, depth))
    ensures KeepsStyle(c, StartPair(c, tag, attributes)) && KeepsStyle(c, StartTerm(c, tag, path))
  {
    hide IsHeading, IsCell, Classes, OpensScope, OpensPair, Label, OnlyLabel, OnlyPairLabel;
  }

  lemma EndStyles(d: Report, tag: string)
    requires AfterEnd(d, tag).Success?
    ensures var e := AfterEnd(d, tag).value; var style := d.captures.style;
            && e.captures.style == (if tag == "style" then None else style)
            && e.records.styles ==
               d.records.styles + if tag == "style" && style.Some? then [Joined(style.value, "")] else []
  {
    hide IsHeading, IsCell, Normalised, Appended, EntryOf, EndCaptures, EndRecords;
    EndStyle(d.captures, tag, |d.stack|);
    EndStyleRecord(d.records, d.captures, tag);
  }

  lemma EndStyle(c: Captures, tag: string, depth: nat)
    requires EndCaptures(c, tag, depth).Success?
    ensures EndCaptures(c, tag, depth).value.style == if tag == "style" then None else c.style
  {
    hide EndCell, EndDepths, EndHeading, EndTerm, EndDefinition, EndPair, IsHeading, IsCell;
    var c1 := if tag == "style" then c.(style := None) else c;
    EndCellEffect(c1, tag);
    var c2 := EndCell(c1, tag).value;
    EndDepthsEffect(c2, tag, depth);
    var c3 := EndDepths(c2, tag, depth);
    EndHeadingEffect(c3, tag);
    var c4 := EndHeading(c3, tag).value;
    EndTermEffect(c4, tag);
    EndDefinitionEffect(EndTerm(c4, tag), tag);
    EndPairEffect(EndDefinition(EndTerm(c4, tag), tag).value, tag);
  }

  lemma EndStyleRecord(r: Records, c: Captures, tag: string)
    ensures EndRecords(r, c, tag).styles ==
            r.styles + if tag == "style" && c.style.Some? then [Joined(c.style.value, "")] else []
  {
    hide RecordRow, RecordScopeText, RecordHeading, RecordDefinition, RecordPairText;
    var r0 := RecordStyle(r, c, tag);
    LaterRecordsKeepStyles(r0, c, tag);
    var r1 := RecordRow(r0, c, tag);
    LaterRecordsKeepStyles(r1, c, tag);
    var r2 := RecordScopeText(r1, c, tag);
    LaterRecordsKeepStyles(r2, c, tag);
    var r3 := RecordHeading(r2, c, tag);
    LaterRecordsKeepStyles(r3, c, tag);
    LaterRecordsKeepStyles(RecordDefinition(r3, c, tag), c, tag);
  }

  lemma LaterRecordsKeepStyles(r: Records, c: Captures, tag: string)
    ensures RecordRow(r, c, tag).styles == r.styles && RecordScopeText(r, c, tag).styles == r.styles
    ensures RecordHeading(r, c, tag).styles == r.styles && RecordDefinition(r, c, tag).styles == r.styles
    ensures RecordPairText(r, c, tag).styles == r.styles
  {
    hide IsHeading, Normalised, Appended, EntryOf;
  }

  /** Where a tree leads from a state: outside a style it adds the texts of its own styles, inside one it
      adds its text and has no style of its own. */
  ghost predicate Read(d: Report, e: Report, texts: seq<string>, styles: seq<string>) {
    if d.captures.style.None? then e.captures.style.None? && e.records.styles == d.records.styles + styles
    else styles == [] && e.captures.style == Some(d.captures.style.value + texts)
         && e.records.styles == d.records.styles
  }

  lemma NothingRead(d: Report, e: Report)
    requires e.captures.style == d.captures.style && e.records.styles == d.records.styles
    ensures Read(d, e, [], [])
  {
    assert d.captures.style.Some? ==> d.captures.style.value + [] == d.captures.style.value;
  }

  lemma ReadInTurn(d: Report, e: Report, f: Report, texts: seq<string>, more: seq<string>, styles: seq<string>,
                   moreStyles: seq<string>)
    requires Read(d, e, texts, styles) && Read(e, f, more, moreStyles)
    ensures Read(d, f, texts + more, styles + moreStyles)
  {
    if d.captures.style.Some? {
      assert (d.captures.style.value + texts) + more == d.captures.style.value + (texts + more);
    }
  }

  lemma {:induction false} TreeRead(d: Report, n: Node)
    requires WellFormed(n) && Onward(d, EventsOf(n)).Success?
    ensures Read(d, Onward(d, EventsOf(n)).value, TextsOf(n), StylesOf(n))
    decreases n, 0
  {
    hide AfterStart, AfterEnd, IsVoid;
    match n
    case Element(tag, attributes, children) =>
      var start, end := [StartTag(tag, attributes)], [EndTag(tag)];
      assert EventsOf(n) == start + EventsOfAll(children) + end;
      OnwardConcat(d, start + EventsOfAll(children), end);
      OnwardConcat(d, start, EventsOfAll(children));
      OnwardSingle(d, start[0]);
      StartStyles(d, tag, attributes);
      var d1 := Onward(d, start).value;
      TreesRead(d1, children);
      var d2 := Onward(d1, EventsOfAll(children)).value;
      OnwardSingle(d2, end[0]);
      EndStyles(d2, tag);
      assert [] + TextsOfAll(children) == TextsOfAll(children);
    case VoidElement(tag, attributes) =>
      OnwardSingle(d, StartTag(tag, attributes));
      VoidIsPlain(tag);
      StartStyles(d, tag, attributes);
      NothingRead(d, Onward(d, EventsOf(n)).value);
    case Text(text) =>
      OnwardSingle(d, Data(text));
  }

  lemma {:induction false} TreesRead(d: Report, ns: seq<Node>)
    requires (forall n <- ns :: WellFormed(n)) && Onward(d, EventsOfAll(ns)).Success?
    ensures Read(d, Onward(d, EventsOfAll(ns)).value, TextsOfAll(ns), StylesOfAll(ns))
    decreases ns, 1
  {
    hide AfterEvent;
    if ns == [] {
      NothingRead(d, d);
    } else {
      var front, last := ns[..|ns| - 1], ns[|ns| - 1];
      OnwardConcat(d, EventsOfAll(front), EventsOf(last));
      TreesRead(d, front);
      var e := Onward(d, EventsOfAll(front)).value;
      TreeRead(e, last);
      ReadInTurn(d, e, Onward(d, EventsOfAll(ns)).value, TextsOfAll(front), TextsOf(last), StylesOfAll(front),
                 StylesOf(last));
    }
  }

  /** The recorded styles of an accepted document are the whole texts of its style elements, in document
      order, whatever elements stand inside them. */
  lemma StylesRecorded(events: seq<Event>) returns (ns: seq<Node>)
    requires Parsed(events).Success?
    ensures (forall n <- ns :: WellFormed(n)) && EventsOfAll(ns) == events
    ensures Parsed(events).value.records.styles == StylesOfAll(ns)
  {
    hide AfterEvents, Onward, StylesOfAll;
    ns := AcceptedIsForest(events);
    OnwardFromEmpty(events);
    TreesRead(EMPTY, ns);
  }
}
