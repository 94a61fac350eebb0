/** The parser object, changed event by event: its handlers, its run over a document and its final check. */
module ReportParser {
  import opened Nesting
  import opened ReportDocument
  import opened Results

  lemma OneMore(events: seq<Event>, e: Event)
    requires AfterEvents(events).Success?
    ensures AfterEvents(events + [e]) == AfterEvent(AfterEvents(events).value, e)
  {
    hide AfterEvent;
    assert (events + [e])[..|events|] == events;
  }

  class Parser {
    ghost var history: seq<Event>
    var elements: seq<(string, Attributes)>
    var paths: seq<Path>
    var stack: seq<Open>
    var captures: Captures
    var records: Records

    function State(): Report
      reads this
    {
      Report(elements, paths, stack, captures, records)
    }

    /** The parser is where the events it has read lead. */
    ghost predicate Valid()
      reads this
    {
      AfterEvents(history) == Success(State())
    }

    constructor ()
      ensures Valid() && history == []
    {
      history := [];
      elements, paths, stack := [], [], [];
      captures, records := NO_CAPTURES, NO_RECORDS;
    }

    // --- Start tags ---

    method OpenStyle(tag: string) returns (r: Result<(), Refusal>)
      modifies `captures
      ensures match StartStyle(old(captures), tag)
              case Success(c) => r.Success? && captures == c
              case Failure(e) => r == Failure(e)
    {
      if tag == "style" {
        if captures.style.Some? {
          return Failure(NestedStyle);
        }
        captures := captures.(style := Some([]));
      }
      r := Success(());
    }

    method OpenHeading(tag: string, attributes: Attributes, path: Path) returns (r: Result<(), Refusal>)
      modifies `captures
      ensures match StartHeading(old(captures), tag, attributes, path)
              case Success(c) => r.Success? && captures == c
              case Failure(e) => r == Failure(e)
    {
      if IsHeading(tag) {
        if captures.heading.Some? {
          return Failure(NestedHeading);
        }
        captures := captures.(heading := Some(Heading(tag, attributes, path)));
        captures := captures.(headingParts := Some([]));
      }
      r := Success(());
    }

    method OpenScope(tag: string, attributes: Attributes, path: Path, ancestors: seq<Open>)
        returns (r: Result<(), Refusal>)
      modifies `captures, `records
      ensures match StartScope(old(captures), tag, attributes)
              case Success(c) => r.Success? && captures == c
              case Failure(e) => r == Failure(e)
      ensures r.Success? ==> records == RecordScope(old(records), ancestors, tag, attributes, path)
    {
      hide Classes, Hidden, OnlyScopeClass;
      if tag == "p" && "scope" in Classes(attributes) {
        if captures.scope.Some? {
          return Failure(NestedScope);
        }
        captures := captures.(scope := Some([]));
        var hiddenAncestor := false;
        for i := 0 to |ancestors|
          invariant hiddenAncestor <==> exists k :: 0 <= k < i && Hidden(ancestors[k])
        {
          hiddenAncestor := hiddenAncestor || Hidden(ancestors[i]);
        }
        assert hiddenAncestor <==> exists o <- ancestors :: Hidden(o);
        var visible := OnlyScopeClass(attributes) && !hiddenAncestor && path == ["html", "body", "header", "p"];
        records := records.(scopeVisibility := records.scopeVisibility + [visible]);
      }
      r := Success(());
    }

    method OpenSection(tag: string, attributes: Attributes, path: Path) returns (r: Result<(), Refusal>)
      modifies `captures, `records
      ensures match StartSection(old(captures), tag, attributes)
              case Success(c) => r.Success? && captures == c
              case Failure(e) => r == Failure(e)
      ensures r.Success? ==> records == RecordSection(old(records), tag, attributes, path)
    {
      hide Label, OnlyLabel;
      if tag == "section" {
        var id := Label(attributes);
        if captures.sectionId.Some? || id.None? || !OnlyLabel(attributes) {
          return Failure(InvalidSection);
        }
        captures := captures.(sectionId := id);
        records := records.(sectionIds := records.sectionIds + [id.value]);
        records := records.(sectionPaths := records.sectionPaths + [path]);
        records := records.(sectionTerms := records.sectionTerms[id.value := []]);
        records := records.(sectionParts := records.sectionParts[id.value := []]);
      }
      r := Success(());
    }

    method OpenTable(tag: string, attributes: Attributes, depth: nat) returns (r: Result<(), Refusal>)
      modifies `captures
      ensures match StartTable(old(captures), tag, attributes, depth)
              case Success(c) => r.Success? && captures == c
              case Failure(e) => r == Failure(e)
    {
      hide Classes, IsCell;
      if tag == "table" && "statistics" in Classes(attributes) {
        if captures.tableDepth.Some? {
          return Failure(NestedTable);
        }
        captures := captures.(tableDepth := Some(depth));
      } else if tag == "tbody" && captures.tableDepth.Some? {
        captures := captures.(bodyDepth := Some(depth));
      } else if tag == "tr" && captures.bodyDepth.Some? {
        captures := captures.(row := Some([]));
      } else if IsCell(tag) && captures.row.Some? {
        captures := captures.(cell := Some([]));
      }
      r := Success(());
    }

    method OpenPair(tag: string, attributes: Attributes) returns (r: Result<(), Refusal>)
      modifies `captures, `records
      ensures match StartPair(old(captures), tag, attributes)
              case Success(c) => r.Success? && captures == c
              case Failure(e) => r == Failure(e)
      ensures r.Success? ==> records == RecordPair(old(records), tag, attributes)
    {
      hide Label, Classes, OnlyPairLabel;
      if tag == "article" && "pair" in Classes(attributes) {
        var id := Label(attributes);
        if id.None? || captures.pairId.Some? || !OnlyPairLabel(attributes) {
          return Failure(InvalidPair);
        }
        captures := captures.(pairId := id);
        records := records.(pairIds := records.pairIds + [id.value]);
        captures := captures.(pairParts := Some([]));
        records := records.(pairTerms := records.pairTerms[id.value := []]);
      }
      r := Success(());
    }

    method OpenTerm(tag: string, path: Path) returns (r: Result<(), Refusal>)
      modifies `captures
      ensures match StartTerm(old(captures), tag, path)
              case Success(c) => r.Success? && captures == c
              case Failure(e) => r == Failure(e)
    {
      if tag == "dt" {
        if |path| < 2 || path[|path| - 2] != "dl" || captures.term.Some? || captures.pendingTerm.Some? {
          return Failure(InvalidTerm);
        }
        captures := captures.(term := Some([]));
      } else if tag == "dd" {
        if |path| < 2 || path[|path| - 2] != "dl" || captures.pendingTerm.None? {
          return Failure(MissingTerm);
        }
        var begun := Definition(captures.pendingTerm.value, [], false, captures.pairId, captures.sectionId);
        captures := captures.(definitions := captures.definitions + [begun]);
        captures := captures.(pendingTerm := None);
      } else if tag == "dl" {
        MarkDefinitions();
      }
      r := Success(());
    }

    method MarkDefinitions()
      modifies `captures
      ensures captures == old(captures).(definitions := MarkNested(old(captures.definitions)))
    {
      for i := 0 to |captures.definitions|
        invariant captures == old(captures).(definitions := captures.definitions)
        invariant captures.definitions == MarkNested(old(captures.definitions)[..i]) + old(captures.definitions)[i..]
      {
        captures := captures.(definitions := captures.definitions[i := captures.definitions[i].(nested := true)]);
      }
      assert captures.definitions == MarkNested(old(captures.definitions));
    }

    /** All captures and records of one start tag, in turn. */
    method OpenAll(tag: string, attributes: Attributes, path: Path, ancestors: seq<Open>, depth: nat)
        returns (r: Result<(), Refusal>)
      modifies `captures, `records
      ensures match StartCaptures(old(captures), tag, attributes, path, depth)
              case Success(c) =>
                r.Success? && captures == c && records == StartRecords(old(records), ancestors, tag, attributes, path)
              case Failure(e) => r == Failure(e)
    {
      hide StartStyle, StartHeading, StartScope, StartSection, StartTable, StartPair, StartTerm;
      hide RecordScope, RecordSection, RecordPair;
      var _ :- OpenStyle(tag);
      var _ :- OpenHeading(tag, attributes, path);
      var _ :- OpenScope(tag, attributes, path, ancestors);
      var _ :- OpenSection(tag, attributes, path);
      var _ :- OpenTable(tag, attributes, depth);
      var _ :- OpenPair(tag, attributes);
      r := OpenTerm(tag, path);
    }

    /** Reads one start tag. A refusal ends the parse; otherwise the element's chain of ancestors is
        recorded and, unless it is void, it is the innermost open element. */
    method HandleStartTag(tag: string, attrs: seq<(string, Option<string>)>) returns (r: Result<(), Refusal>)
      modifies `elements, `paths, `stack, `captures, `records
      ensures match AfterStart(old(State()), tag, attrs)
              case Success(d) => r.Success? && State() == d
              case Failure(e) => r == Failure(e)
      ensures r.Success? ==>
                && paths == old(paths) + [TagsOf(old(stack)) + [tag]]
                && stack == old(stack) + (if IsVoid(tag) then [] else [Open(tag, AttributeMap(attrs))])
    {
      hide StartCaptures, StartRecords, IsVoid, AttributeMap, Names;
      if |Names(attrs)| != |attrs| {
        return Failure(DuplicateAttribute);
      }
      var attributes := AttributeMap(attrs);
      elements := elements + [(tag, attributes)];
      var path := TagsOf(stack) + [tag];
      paths := paths + [path];
      if !IsVoid(tag) {
        stack := stack + [Open(tag, attributes)];
      }
      var ancestors := if stack == [] then [] else stack[..|stack| - 1];
      r := OpenAll(tag, attributes, path, ancestors, |stack|);
    }

    // --- End tags ---

    method CloseStyle(tag: string)
      modifies `captures, `records
      ensures captures == if tag == "style" then old(captures).(style := None) else old(captures)
      ensures records == RecordStyle(old(records), old(captures), tag)
    {
      if tag == "style" && captures.style.Some? {
        records := records.(styles := records.styles + [Joined(captures.style.value, "")]);
        captures := captures.(style := None);
      }
    }

    method CloseCell(tag: string) returns (r: Result<(), Refusal>)
      modifies `captures
      ensures match EndCell(old(captures), tag)
              case Success(c) => r.Success? && captures == c
              case Failure(e) => r == Failure(e)
    {
      hide Normalised, IsCell;
      if IsCell(tag) && captures.cell.Some? {
        if captures.row.None? {
          return Failure(CellOutsideRow);
        }
        captures := captures.(row := Some(captures.row.value + [Normalised(captures.cell.value)]));
        captures := captures.(cell := None);
      }
      r := Success(());
    }

    method CloseDepths(tag: string)
      modifies `captures, `records
      ensures captures == EndDepths(old(captures), tag, |stack|)
      ensures records == RecordScopeText(RecordRow(old(records), old(captures), tag), old(captures), tag)
    {
      hide Normalised;
      if tag == "tr" && captures.row.Some? {
        records := records.(statisticRows := records.statisticRows + [captures.row.value]);
        captures := captures.(row := None);
      }
      if tag == "tbody" && captures.bodyDepth == Some(|stack|) {
        captures := captures.(bodyDepth := None);
      }
      if tag == "table" && captures.tableDepth == Some(|stack|) {
        captures := captures.(tableDepth := None);
      }
      if tag == "p" && captures.scope.Some? {
        records := records.(scopeTexts := records.scopeTexts + [Normalised(captures.scope.value)]);
        captures := captures.(scope := None);
      }
    }

    method CloseHeading(tag: string) returns (r: Result<(), Refusal>)
      modifies `captures, `records
      ensures match EndHeading(old(captures), tag)
              case Success(c) => r.Success? && captures == c
              case Failure(e) => r == Failure(e)
      ensures r.Success? ==> records == RecordHeading(old(records), old(captures), tag)
    {
      hide Normalised, IsHeading;
      if IsHeading(tag) && captures.heading.Some? {
        var h := captures.heading.value;
        if captures.headingParts.None? || h.tag != tag {
          return Failure(InvalidHeading);
        }
        var text := Normalised(captures.headingParts.value);
        records := records.(headings := records.headings + [(h.tag, h.attributes, text, h.path)]);
        captures := captures.(heading := None);
        captures := captures.(headingParts := None);
      }
      r := Success(());
    }

    method CloseTerm(tag: string)
      modifies `captures
      ensures captures == EndTerm(old(captures), tag)
    {
      hide Normalised;
      if tag == "dt" && captures.term.Some? {
        captures := captures.(pendingTerm := Some(Normalised(captures.term.value)));
        captures := captures.(term := None);
      }
    }

    method CloseDefinition(tag: string) returns (r: Result<(), Refusal>)
      modifies `captures, `records
      ensures match EndDefinition(old(captures), tag)
              case Success(c) => r.Success? && captures == c
              case Failure(e) => r == Failure(e)
      ensures r.Success? ==> records == RecordDefinition(old(records), old(captures), tag)
    {
      hide Appended, EntryOf;
      if tag == "dd" {
        if captures.definitions == [] {
          return Failure(NoDefinition);
        }
        var closed := captures.definitions[|captures.definitions| - 1];
        captures := captures.(definitions := captures.definitions[..|captures.definitions| - 1]);
        if closed.pairId.Some? {
          records := records.(pairTerms := Appended(records.pairTerms, closed.pairId.value, EntryOf(closed)));
        } else if closed.sectionId.Some? {
          records := records.(sectionTerms := Appended(records.sectionTerms, closed.sectionId.value, EntryOf(closed)));
        }
      }
      r := Success(());
    }

    method ClosePair(tag: string) returns (r: Result<(), Refusal>)
      modifies `captures, `records
      ensures match EndPair(old(captures), tag)
              case Success(c) => r.Success? && captures == c
              case Failure(e) => r == Failure(e)
      ensures r.Success? ==> records == RecordPairText(old(records), old(captures), tag)
    {
      hide Normalised;
      if tag == "article" && captures.pairId.Some? {
        if captures.pairParts.None? {
          return Failure(InvalidPairCapture);
        }
        var text := Normalised(captures.pairParts.value);
        records := records.(pairTexts := records.pairTexts[captures.pairId.value := text]);
        captures := captures.(pairId := None);
        captures := captures.(pairParts := None);
      }
      r := Success(());
    }

    /** All captures and records of one end tag, in turn. */
    method CloseAll(tag: string) returns (r: Result<(), Refusal>)
      modifies `captures, `records
      ensures match EndCaptures(old(captures), tag, |stack|)
              case Success(c) => r.Success? && captures == c && records == EndRecords(old(records), old(captures), tag)
              case Failure(e) => r == Failure(e)
    {
      hide EndCell, EndDepths, EndHeading, EndTerm, EndDefinition, EndPair;
      hide RecordStyle, RecordRow, RecordScopeText, RecordHeading, RecordDefinition, RecordPairText;
      ghost var c, r0 := captures, records;
      CloseStyle(tag);
      var _ :- CloseCell(tag);
      CloseDepths(tag);
      var _ :- CloseHeading(tag);
      CloseTerm(tag);
      var _ :- CloseDefinition(tag);
      r := ClosePair(tag);
      if r.Success? {
        RecordsInTurn(r0, c, tag, |stack|);
      }
      if tag == "section" {
        captures := captures.(sectionId := None);
      }
    }

    /** Reads one end tag. A refusal ends the parse; otherwise the innermost open element had this tag and
        is closed. */
    method HandleEndTag(tag: string) returns (r: Result<(), Refusal>)
      modifies `stack, `captures, `records
      ensures match AfterEnd(old(State()), tag)
              case Success(d) => r.Success? && State() == d
              case Failure(e) => r == Failure(e)
      ensures r.Success? ==> exists o: Open :: o.tag == tag && old(stack) == stack + [o]
    {
      hide EndCaptures, EndRecords;
      var _ :- CloseAll(tag);
      if stack == [] || stack[|stack| - 1].tag != tag {
        return Failure(InvalidNesting);
      }
      assert stack == stack[..|stack| - 1] + [stack[|stack| - 1]];
      stack := stack[..|stack| - 1];
      r := Success(());
    }

    // --- Text data ---

    /** Reads text. An open style takes it alone; otherwise every open capture takes it, each open
        definition included. */
    method HandleData(text: string)
      modifies `captures, `records
      ensures State() == AfterData(old(State()), text)
      ensures old(captures).style.Some? ==>
                && captures == old(captures).(style := Some(old(captures).style.value + [text]))
                && records == old(records)
      ensures old(captures).style.None? ==>
                && captures.style.None? && |captures.definitions| == |old(captures).definitions|
                && (forall i :: 0 <= i < |captures.definitions| ==>
                      captures.definitions[i].parts == old(captures).definitions[i].parts + [text])
    {
      hide GrownAll;
      if captures.style.Some? {
        captures := captures.(style := Some(captures.style.value + [text]));
        return;
      }
      if captures.scope.Some? {
        captures := captures.(scope := Some(captures.scope.value + [text]));
      }
      if captures.sectionId.Some? {
        var id := captures.sectionId.value;
        var parts := if id in records.sectionParts then records.sectionParts[id] else [];
        records := records.(sectionParts := records.sectionParts[id := parts + [text]]);
      }
      GrowCaptures(text);
      GrowDefinitions(text);
    }

    method GrowCaptures(text: string)
      modifies `captures
      ensures var c := old(captures);
              captures == c.(cell := Grown(c.cell, text), pairParts := Grown(c.pairParts, text),
                             headingParts := Grown(c.headingParts, text), term := Grown(c.term, text))
    {
      if captures.cell.Some? {
        captures := captures.(cell := Some(captures.cell.value + [text]));
      }
      if captures.pairParts.Some? {
        captures := captures.(pairParts := Some(captures.pairParts.value + [text]));
      }
      ghost var c := old(captures);
      ghost var d := c.(cell := Grown(c.cell, text), pairParts := Grown(c.pairParts, text));
      assert captures == d;
      if captures.headingParts.Some? {
        captures := captures.(headingParts := Some(captures.headingParts.value + [text]));
      }
      if captures.term.Some? {
        captures := captures.(term := Some(captures.term.value + [text]));
      }
    }

    method GrowDefinitions(text: string)
      modifies `captures
      ensures captures == old(captures).(definitions := GrownAll(old(captures.definitions), text))
      ensures forall i :: 0 <= i < |captures.definitions| ==>
                captures.definitions[i].parts == old(captures).definitions[i].parts + [text]
    {
      for i := 0 to |captures.definitions|
        invariant captures == old(captures).(definitions := captures.definitions)
        invariant captures.definitions == GrownAll(old(captures.definitions)[..i], text)
                  + old(captures.definitions)[i..]
      {
        var d := captures.definitions[i];
        captures := captures.(definitions := captures.definitions[i := d.(parts := d.parts + [text])]);
      }
      assert captures.definitions == GrownAll(old(captures.definitions), text);
    }

    // --- The whole document ---

    /** Reads one event. After each accepted event the open elements are as nesting requires, a start tag's
        path is recorded, and every open capture has its element open. */
    method Handle(e: Event) returns (r: Result<(), Refusal>)
      requires Valid()
      modifies this
      ensures var read := AfterEvents(old(history) + [e]);
              (r.Success? <==> read.Success?) && (r.Failure? ==> r.error == read.error)
      ensures r.Success? ==> Valid() && history == old(history) + [e]
      ensures r.Success? ==> NestOne(TagsOf(old(stack)), e) == Some(TagsOf(stack))
      ensures r.Success? ==> paths == old(paths) + if e.StartTag? then [TagsOf(old(stack)) + [e.tag]] else []
      ensures r.Success? ==> Held(TagsOf(stack), captures, 0)
    {
      hide AfterEvents, AfterStart, AfterEnd, AfterData, NestOne, Held, IsVoid;
      OneMore(history, e);
      ghost var before, more := State(), history + [e];
      match e {
        case StartTag(tag, attributes) => r := HandleStartTag(tag, attributes);
        case EndTag(tag) => r := HandleEndTag(tag);
        case Data(text) =>
          HandleData(text);
          r := Success(());
      }
      if r.Success? {
        history := more;
        EventNests(before, e);
        EventsKeepHeld(more);
      }
    }

    /** The final check, condition by condition. */
    method Finish() returns (r: Result<Report, Refusal>)
      ensures r == if AllClosed(State()) then Success(State()) else Failure(Unclosed)
    {
      if
        || stack != []
        || captures.definitions != []
        || captures.style.Some?
        || captures.scope.Some?
        || captures.tableDepth.Some?
        || captures.bodyDepth.Some?
        || captures.row.Some?
        || captures.cell.Some?
        || captures.pairId.Some?
        || captures.pairParts.Some?
        || captures.term.Some?
        || captures.pendingTerm.Some?
        || captures.sectionId.Some?
        || captures.heading.Some?
        || captures.headingParts.Some?
      {
        return Failure(Unclosed);
      }
      r := Success(State());
    }
  }

  /** Once an event is refused the rest of the document is not read. */
  lemma {:induction false} RefusalStays(events: seq<Event>, n: nat)
    requires n <= |events| && AfterEvents(events[..n]).Failure?
    ensures AfterEvents(events) == AfterEvents(events[..n])
  {
    hide AfterEvent;
    if n == |events| {
      assert events[..n] == events;
    } else {
      var front := events[..|events| - 1];
      assert front[..n] == events[..n];
      RefusalStays(front, n);
    }
  }

  /** Parses a document: every event in turn, then the final check that nothing is left open. */
  method Parse(events: seq<Event>) returns (r: Result<Report, Refusal>)
    ensures r == Parsed(events)
    ensures r.Success? <==>
              && AfterEvents(events).Success? && Nest([], events) == Some([])
              && AfterEvents(events).value.captures.pendingTerm.None?
    ensures r.Success? ==> r.value.paths == RecordedPaths([], events)
  {
    hide AfterEvents, RecordedPaths, Nest;
    var p := new Parser();
    for i := 0 to |events|
      invariant p.Valid() && p.history == events[..i]
    {
      assert events[..i] + [events[i]] == events[..i + 1];
      var read := p.Handle(events[i]);
      if read.Failure? {
        RefusalStays(events, i + 1);
        return Failure(read.error);
      }
    }
    assert events[..|events|] == events;
    EventsNest(events);
    ClosingCheckExact(events);
    r := p.Finish();
  }
}
