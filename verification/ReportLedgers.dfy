/** What the report's recorded terms are, read off the document's forest. */
module ReportLedgers {
  import opened Nesting
  import opened ReportDocument
  import opened ReportStyles
  import opened Results

  // --- The ledger of a forest ---

  /** The text of a tree outside its style elements, in document order. */
  function Plain(n: Node, styled: bool): seq<string> {
    match n
    case Element(tag, _, children) => PlainAll(children, styled || tag == "style")
    case VoidElement(_, _) => []
    case Text(text) => if styled then [] else [text]
  }

  function PlainAll(ns: seq<Node>, styled: bool): seq<string> {
    if ns == [] then [] else PlainAll(ns[..|ns| - 1], styled) + Plain(ns[|ns| - 1], styled)
  }

  /** The tree is or holds a definition list. */
  predicate HoldsList(n: Node) {
    n.Element? && (n.tag == "dl" || HoldsListAll(n.children))
  }

  predicate HoldsListAll(ns: seq<Node>) {
    ns != [] && (HoldsListAll(ns[..|ns| - 1]) || HoldsList(ns[|ns| - 1]))
  }

  /** A section or a pair opens its ledger; a value makes an entry. */
  datatype Mark =
    | SectionOpened(id: string)
    | PairOpened(id: string)
    | Entry(pair: Option<string>, section: Option<string>, term: string, value: string)

  /** Where a reader of the document is: the open pair and section, and a term that has no value yet. */
  datatype Place = Place(pair: Option<string>, section: Option<string>, pending: Option<string>)

  const OUTSIDE := Place(None, None, None)

  function Entering(tag: string, attributes: Attributes, at: Place): Place {
    if tag == "section" then at.(section := Label(attributes))
    else if OpensPair(tag, attributes) then at.(pair := Label(attributes))
    else if tag == "dd" then at.(pending := None)
    else at
  }

  function OpeningMarks(tag: string, attributes: Attributes): seq<Mark> {
    if Label(attributes).None? then []
    else if tag == "section" then [SectionOpened(Label(attributes).value)]
    else if OpensPair(tag, attributes) then [PairOpened(Label(attributes).value)]
    else []
  }

  function Leaving(tag: string, texts: seq<string>, left: Place): Place {
    if tag == "section" then left.(section := None)
    else if tag == "article" then left.(pair := None)
    else if tag == "dt" then left.(pending := Some(Normalised(texts)))
    else left
  }

  /** A value is spelled out unless it holds a list of its own. */
  function ValueText(texts: seq<string>, list: bool): string {
    if list then "<nested-ledger>" else Normalised(texts)
  }

  function ClosingMarks(tag: string, at: Place, texts: seq<string>, list: bool): seq<Mark> {
    if tag == "dd" && at.pending.Some? then [Entry(at.pair, at.section, at.pending.value, ValueText(texts, list))]
    else []
  }

  /** The marks of a tree entered at a place, and where its reader is afterwards. A term goes to the next
      value of the document; the value belongs to the pair open where it starts or else to the section. */
  function Marks(n: Node, at: Place, styled: bool): (seq<Mark>, Place) {
    match n
    case Element(tag, attributes, children) =>
      var given := AttributeMap(attributes);
      var within := styled || tag == "style";
      var (inside, left) := MarksAll(children, Entering(tag, given, at), within);
      var texts := PlainAll(children, within);
      (OpeningMarks(tag, given) + inside + ClosingMarks(tag, at, texts, HoldsListAll(children)),
       Leaving(tag, texts, left))
    case VoidElement(_, _) => ([], at)
    case Text(_) => ([], at)
  }

  function MarksAll(ns: seq<Node>, at: Place, styled: bool): (seq<Mark>, Place) {
    if ns == [] then ([], at)
    else
      var (marks, left) := MarksAll(ns[..|ns| - 1], at, styled);
      var (more, end) := Marks(ns[|ns| - 1], left, styled);
      (marks + more, end)
  }

  /** The entries of a section's ledger since it was last opened; None when it never was. */
  function SectionEntries(marks: seq<Mark>, id: string): Option<seq<(string, string)>> {
    if marks == [] then None
    else
      var before, last := SectionEntries(marks[..|marks| - 1], id), marks[|marks| - 1];
      if last == SectionOpened(id) then Some([])
      else if last.Entry? && last.pair.None? && last.section == Some(id) then
        Some((if before.Some? then before.value else []) + [(last.term, last.value)])
      else before
  }

  function PairEntries(marks: seq<Mark>, id: string): Option<seq<(string, string)>> {
    if marks == [] then None
    else
      var before, last := PairEntries(marks[..|marks| - 1], id), marks[|marks| - 1];
      if last == PairOpened(id) then Some([])
      else if last.Entry? && last.pair == Some(id) then
        Some((if before.Some? then before.value else []) + [(last.term, last.value)])
      else before
  }

  // --- The recorded ledgers ---

  datatype Books = Books(sections: Terms, pairs: Terms)

  function BooksOf(r: Records): Books {
    Books(r.sectionTerms, r.pairTerms)
  }

  function Marked(b: Books, mark: Mark): Books {
    match mark
    case SectionOpened(id) => b.(sections := b.sections[id := []])
    case PairOpened(id) => b.(pairs := b.pairs[id := []])
    case Entry(pair, section, term, value) =>
      if pair.Some? then b.(pairs := Appended(b.pairs, pair.value, (term, value)))
      else if section.Some? then b.(sections := Appended(b.sections, section.value, (term, value)))
      else b
  }

  function Kept(b: Books, marks: seq<Mark>): Books {
    if marks == [] then b else Marked(Kept(b, marks[..|marks| - 1]), marks[|marks| - 1])
  }

  lemma {:induction false} KeptInTurn(b: Books, marks: seq<Mark>, more: seq<Mark>)
    ensures Kept(b, marks + more) == Kept(Kept(b, marks), more)
  {
    hide Marked;
    if more == [] {
      assert marks + more == marks;
    } else {
      assert (marks + more)[..|marks + more| - 1] == marks + more[..|more| - 1];
      KeptInTurn(b, marks, more[..|more| - 1]);
    }
  }

  lemma KeptOne(b: Books, mark: Mark)
    ensures Kept(b, [mark]) == Marked(b, mark)
  {
    hide Marked;
    assert [mark][..0] == [];
  }

  ghost predicate Reads(terms: Terms, id: string, entries: Option<seq<(string, string)>>) {
    (id in terms <==> entries.Some?) && (id in terms ==> terms[id] == entries.value)
  }

  /** Ledger by ledger, the books hold the entries since each was last opened. */
  lemma {:induction false} BooksRead(marks: seq<Mark>, id: string)
    ensures var b := Kept(Books(map[], map[]), marks);
            Reads(b.sections, id, SectionEntries(marks, id)) && Reads(b.pairs, id, PairEntries(marks, id))
  {
    if marks != [] {
      BooksRead(marks[..|marks| - 1], id);
    }
  }

  // --- What one event does to the part of the state that matters here ---

  datatype View = View(styled: bool, term: Option<seq<string>>, definitions: seq<Definition>, place: Place)

  function ViewOf(c: Captures): View {
    View(c.style.Some?, c.term, c.definitions, Place(c.pairId, c.sectionId, c.pendingTerm))
  }

  predicate SameView(c: Captures, r: Result<Captures, Refusal>) {
    r.Success? ==> ViewOf(r.value) == ViewOf(c)
  }

  lemma OthersKeepView(c: Captures, tag: string, attributes: Attributes, path: Path, depth: nat)
    ensures SameView(c, StartHeading(c, tag, attributes, path)) && SameView(c, StartScope(c, tag, attributes))
    ensures SameView(c, StartTable(c, tag, attributes, depth))
  {
    hide IsHeading, IsCell, Classes, OpensScope;
  }

  /** What opening an element makes of the view. */
  ghost predicate Opens(v: View, tag: string, attributes: Attributes, w: View) {
    && w.styled == (v.styled || tag == "style") && (tag == "style" ==> !v.styled)
    && w.place == Entering(tag, attributes, v.place)
    && w.term == (if tag == "dt" then Some([]) else v.term) && (tag == "dt" ==> v.term.None?)
    && (tag == "dd" ==> v.place.pending.Some?)
    && w.definitions ==
       if tag == "dd" then
         v.definitions + [Definition(v.place.pending.value, [], false, v.place.pair, v.place.section)]
       else if tag == "dl" then MarkNested(v.definitions)
       else v.definitions
  }

  lemma StartView(c: Captures, tag: string, attributes: Attributes, path: Path, depth: nat)
    requires StartCaptures(c, tag, attributes, path, depth).Success?
    ensures Opens(ViewOf(c), tag, attributes, ViewOf(StartCaptures(c, tag, attributes, path, depth).value))
  {
    hide StartHeading, StartScope, StartTable, OpensPair, Label, OnlyLabel, OnlyPairLabel;
    var c1 := StartStyle(c, tag).value;
    OthersKeepView(c1, tag, attributes, path, depth);
    var c2 := StartHeading(c1, tag, attributes, path).value;
    OthersKeepView(c2, tag, attributes, path, depth);
    var c3 := StartScope(c2, tag, attributes).value;
    var c4 := StartSection(c3, tag, attributes).value;
    OthersKeepView(c4, tag, attributes, path, depth);
    PairIsArticle(tag, attributes);
  }

  lemma PairIsArticle(tag: string, attributes: Attributes)
    ensures OpensPair(tag, attributes) ==> tag == "article"
  {}
  /** What closing an element makes of the view. */
  ghost predicate Closes(v: View, tag: string, w: View) {
    && w.styled == (v.styled && tag != "style")
    && (tag == "dt" && v.term.Some? ==> w.place == Leaving(tag, v.term.value, v.place))
    && (tag != "dt" ==> w.place == Leaving(tag, [], v.place))
    && w.term == (if tag == "dt" then None else v.term)
    && (tag == "dd" ==> v.definitions != [])
    && w.definitions == if tag == "dd" then v.definitions[..|v.definitions| - 1] else v.definitions
  }

  lemma EndView(c: Captures, tag: string, depth: nat)
    requires EndCaptures(c, tag, depth).Success?
    ensures Closes(ViewOf(c), tag, ViewOf(EndCaptures(c, tag, depth).value))
  {
    hide EndCell, EndDepths, EndHeading, EndTerm, EndDefinition, EndPair, Closes, ViewOf;
    var c1 := if tag == "style" then c.(style := None) else c;
    EndCellView(c1, tag);
    var c2 := EndCell(c1, tag).value;
    EndDepthsView(c2, tag, depth);
    var c3 := EndDepths(c2, tag, depth);
    EndHeadingView(c3, tag);
    LedgerEnds(c, c1, EndHeading(c3, tag).value, tag);
  }

  lemma EndCellView(c: Captures, tag: string)
    requires EndCell(c, tag).Success?
    ensures ViewOf(EndCell(c, tag).value) == ViewOf(c)
  {
    hide IsCell, Normalised;
  }

  lemma EndDepthsView(c: Captures, tag: string, depth: nat)
    ensures ViewOf(EndDepths(c, tag, depth)) == ViewOf(c)
  {}

  lemma EndHeadingView(c: Captures, tag: string)
    requires EndHeading(c, tag).Success?
    ensures ViewOf(EndHeading(c, tag).value) == ViewOf(c)
  {
    hide IsHeading;
  }

  /** The closing steps that change the view, once the style is closed. */
  lemma LedgerEnds(c: Captures, c1: Captures, c4: Captures, tag: string)
    requires c1 == (if tag == "style" then c.(style := None) else c) && ViewOf(c4) == ViewOf(c1)
    requires EndDefinition(EndTerm(c4, tag), tag).Success?
    requires EndPair(EndDefinition(EndTerm(c4, tag), tag).value, tag).Success?
    ensures var c7 := EndPair(EndDefinition(EndTerm(c4, tag), tag).value, tag).value;
            Closes(ViewOf(c), tag, ViewOf(if tag == "section" then c7.(sectionId := None) else c7))
  {
    hide Normalised, EndTerm, EndDefinition, EndPair;
    var c5 := EndTerm(c4, tag);
    TermEnds(c4, tag);
    var c6 := EndDefinition(c5, tag).value;
    DefinitionEnds(c5, tag);
    PairEnds(c6, tag);
  }

  lemma TermEnds(c: Captures, tag: string)
    ensures var v := ViewOf(c);
            ViewOf(EndTerm(c, tag)) ==
            if tag == "dt" && v.term.Some? then v.(term := None, place := Leaving(tag, v.term.value, v.place)) else v
  {
    hide Normalised;
  }

  lemma DefinitionEnds(c: Captures, tag: string)
    requires EndDefinition(c, tag).Success?
    ensures var v := ViewOf(c);
            && (tag == "dd" ==> v.definitions != [])
            && ViewOf(EndDefinition(c, tag).value) ==
               if tag == "dd" then v.(definitions := v.definitions[..|v.definitions| - 1]) else v
  {}

  lemma PairEnds(c: Captures, tag: string)
    requires EndPair(c, tag).Success?
    ensures var v := ViewOf(c);
            ViewOf(EndPair(c, tag).value) ==
            if tag == "article" then v.(place := v.place.(pair := None)) else v
  {}

  lemma StartBooks(r: Records, stack: seq<Open>, tag: string, attributes: Attributes, path: Path)
    ensures BooksOf(StartRecords(r, stack, tag, attributes, path)) == Kept(BooksOf(r), OpeningMarks(tag, attributes))
  {
    hide OpensPair, Label, RecordScope;
    PairIsArticle(tag, attributes);
    ScopeKeepsBooks(r, stack, tag, attributes, path);
    if OpeningMarks(tag, attributes) != [] {
      KeptOne(BooksOf(r), OpeningMarks(tag, attributes)[0]);
    }
  }

  lemma ScopeKeepsBooks(r: Records, stack: seq<Open>, tag: string, attributes: Attributes, path: Path)
    ensures BooksOf(RecordScope(r, stack, tag, attributes, path)) == BooksOf(r)
  {
    hide OpensScope, ScopeVisible;
  }

  lemma OthersKeepBooks(r: Records, c: Captures, tag: string)
    ensures BooksOf(RecordStyle(r, c, tag)) == BooksOf(r) && BooksOf(RecordRow(r, c, tag)) == BooksOf(r)
    ensures BooksOf(RecordScopeText(r, c, tag)) == BooksOf(r) && BooksOf(RecordHeading(r, c, tag)) == BooksOf(r)
    ensures BooksOf(RecordPairText(r, c, tag)) == BooksOf(r)
  {
    hide IsHeading, Normalised, Joined;
  }

  function EntryMark(d: Definition): Mark {
    Entry(d.pairId, d.sectionId, d.term, ValueText(d.parts, d.nested))
  }

  lemma DefinitionBooks(r: Records, c: Captures, tag: string)
    ensures BooksOf(RecordDefinition(r, c, tag)) ==
            if tag == "dd" && c.definitions != [] then Marked(BooksOf(r), EntryMark(c.definitions[|c.definitions| - 1]))
            else BooksOf(r)
  {
    hide Normalised, Appended;
  }

  lemma EndBooks(r: Records, c: Captures, tag: string)
    ensures BooksOf(EndRecords(r, c, tag)) ==
            if tag == "dd" && c.definitions != [] then Marked(BooksOf(r), EntryMark(c.definitions[|c.definitions| - 1]))
            else BooksOf(r)
  {
    hide RecordStyle, RecordRow, RecordScopeText, RecordHeading, RecordDefinition, RecordPairText;
    hide BooksOf, Marked, EntryMark;
    OthersKeepBooks(r, c, tag);
    var r1 := RecordStyle(r, c, tag);
    OthersKeepBooks(r1, c, tag);
    var r2 := RecordRow(r1, c, tag);
    OthersKeepBooks(r2, c, tag);
    var r3 := RecordScopeText(r2, c, tag);
    OthersKeepBooks(r3, c, tag);
    DefinitionBooks(RecordHeading(r3, c, tag), c, tag);
    OthersKeepBooks(RecordDefinition(RecordHeading(r3, c, tag), c, tag), c, tag);
  }

  // --- Reading a tree ---

  /** Every open definition takes the texts and learns whether there was a list. */
  function Collected(definitions: seq<Definition>, texts: seq<string>, list: bool): (collected: seq<Definition>)
    ensures |collected| == |definitions|
  {
    seq(|definitions|, i requires 0 <= i < |definitions| =>
          definitions[i].(parts := definitions[i].parts + texts, nested := definitions[i].nested || list))
  }

  /** Where a tree leads: its marks are recorded, the reader is where the marks end, and every open term and
      definition has the tree's text. */
  ghost predicate Told(d: Report, e: Report, marks: seq<Mark>, left: Place, texts: seq<string>, list: bool) {
    var v, w := ViewOf(d.captures), ViewOf(e.captures);
    && w.styled == v.styled && w.place == left
    && w.term == (if v.term.Some? then Some(v.term.value + texts) else None)
    && w.definitions == Collected(v.definitions, texts, list)
    && BooksOf(e.records) == Kept(BooksOf(d.records), marks)
  }

  lemma NothingTold(d: Report, e: Report)
    requires ViewOf(e.captures) == ViewOf(d.captures) && BooksOf(e.records) == BooksOf(d.records)
    ensures Told(d, e, [], ViewOf(d.captures).place, [], false)
  {
    var v := ViewOf(d.captures);
    assert v.term.Some? ==> v.term.value + [] == v.term.value;
    assert forall o <- v.definitions :: o.parts + [] == o.parts;
    assert Collected(v.definitions, [], false) == v.definitions;
  }

  lemma CollectedInTurn(definitions: seq<Definition>, texts: seq<string>, list: bool, more: seq<string>, list': bool)
    ensures Collected(Collected(definitions, texts, list), more, list') ==
            Collected(definitions, texts + more, list || list')
  {
    forall i | 0 <= i < |definitions|
      ensures (definitions[i].parts + texts) + more == definitions[i].parts + (texts + more)
    {}
  }

  lemma ToldInTurn(d: Report, e: Report, f: Report, marks: seq<Mark>, left: Place, texts: seq<string>, list: bool,
                   more: seq<Mark>, end: Place, moreTexts: seq<string>, list': bool)
    requires Told(d, e, marks, left, texts, list) && Told(e, f, more, end, moreTexts, list')
    ensures Told(d, f, marks + more, end, texts + moreTexts, list || list')
  {
    hide Collected, Kept, BooksOf;
    CollectedInTurn(ViewOf(d.captures).definitions, texts, list, moreTexts, list');
    KeptInTurn(BooksOf(d.records), marks, more);
    if d.captures.term.Some? {
      assert (d.captures.term.value + texts) + moreTexts == d.captures.term.value + (texts + moreTexts);
    }
  }

  lemma TextTold(d: Report, text: string)
    ensures var styled := d.captures.style.Some?;
            Told(d, AfterData(d, text), [], ViewOf(d.captures).place, if styled then [] else [text], false)
  {
    var v := ViewOf(d.captures);
    if d.captures.style.Some? {
      NothingTold(d, AfterData(d, text));
    } else {
      assert Collected(v.definitions, [text], false) == GrownAll(v.definitions, text);
    }
  }

  lemma OpeningEvent(d: Report, tag: string, attributes: seq<(string, Option<string>)>)
    requires AfterStart(d, tag, attributes).Success?
    ensures var e, given := AfterStart(d, tag, attributes).value, AttributeMap(attributes);
            && Opens(ViewOf(d.captures), tag, given, ViewOf(e.captures))
            && BooksOf(e.records) == Kept(BooksOf(d.records), OpeningMarks(tag, given))
  {
    hide AttributeMap, Names, IsVoid, StartCaptures, StartRecords, Opens, BooksOf, Kept, OpeningMarks, ViewOf;
    var given, path := AttributeMap(attributes), TagsOf(d.stack) + [tag];
    var stack := if IsVoid(tag) then d.stack else d.stack + [Open(tag, given)];
    StartView(d.captures, tag, given, path, |stack|);
    StartBooks(d.records, if stack == [] then [] else stack[..|stack| - 1], tag, given, path);
  }

  lemma ClosingEvent(d: Report, tag: string)
    requires AfterEnd(d, tag).Success?
    ensures var e, definitions := AfterEnd(d, tag).value, d.captures.definitions;
            && Closes(ViewOf(d.captures), tag, ViewOf(e.captures))
            && BooksOf(e.records) ==
               if tag == "dd" && definitions != [] then
                 Marked(BooksOf(d.records), EntryMark(definitions[|definitions| - 1]))
               else BooksOf(d.records)
  {
    hide EndCaptures, EndRecords, Closes, BooksOf, Marked, EntryMark, ViewOf;
    EndView(d.captures, tag, |d.stack|);
    EndBooks(d.records, d.captures, tag);
  }

  lemma ListMarks(definitions: seq<Definition>, texts: seq<string>, list: bool)
    ensures Collected(MarkNested(definitions), texts, list) == Collected(definitions, texts, true)
  {}

  lemma ValueLast(definitions: seq<Definition>, d: Definition, texts: seq<string>, list: bool)
    requires d.parts == [] && !d.nested
    ensures var all := Collected(definitions + [d], texts, list);
            && all[|definitions|] == d.(parts := texts, nested := list)
            && all[..|definitions|] == Collected(definitions, texts, list)
  {
    assert [] + texts == texts;
  }

  /** An element whose opening, content and closing are known. */
  ghost predicate Whole(d: Report, d1: Report, d2: Report, d3: Report, tag: string, given: Attributes,
                        inside: seq<Mark>, left: Place, texts: seq<string>, list: bool)
  {
    && Opens(ViewOf(d.captures), tag, given, ViewOf(d1.captures))
    && BooksOf(d1.records) == Kept(BooksOf(d.records), OpeningMarks(tag, given))
    && Told(d1, d2, inside, left, texts, list)
    && Closes(ViewOf(d2.captures), tag, ViewOf(d3.captures))
    && BooksOf(d3.records) ==
       if tag == "dd" && d2.captures.definitions != [] then
         Marked(BooksOf(d2.records), EntryMark(d2.captures.definitions[|d2.captures.definitions| - 1]))
       else BooksOf(d2.records)
  }

  lemma WholeView(d: Report, d1: Report, d2: Report, d3: Report, tag: string, given: Attributes, inside: seq<Mark>,
                  left: Place, texts: seq<string>, list: bool)
    requires Whole(d, d1, d2, d3, tag, given, inside, left, texts, list)
    ensures var v, w := ViewOf(d.captures), ViewOf(d3.captures);
            && w.styled == v.styled && w.place == Leaving(tag, texts, left)
            && w.term == (if v.term.Some? then Some(v.term.value + texts) else None)
            && w.definitions == Collected(v.definitions, texts, list || tag == "dl")
  {
    hide Collected, BooksOf, Kept, Marked, EntryMark, OpeningMarks, Entering, Normalised;
    var v := ViewOf(d.captures);
    if tag == "dt" {
      assert [] + texts == texts;
    } else if tag == "dl" {
      ListMarks(v.definitions, texts, list);
    } else if tag == "dd" {
      ValueLast(v.definitions, Definition(v.place.pending.value, [], false, v.place.pair, v.place.section), texts,
                list);
    }
  }

  lemma WholeBooks(d: Report, d1: Report, d2: Report, d3: Report, tag: string, given: Attributes, inside: seq<Mark>,
                   left: Place, texts: seq<string>, list: bool)
    requires Whole(d, d1, d2, d3, tag, given, inside, left, texts, list)
    ensures var marks := OpeningMarks(tag, given) + inside + ClosingMarks(tag, ViewOf(d.captures).place, texts, list);
            BooksOf(d3.records) == Kept(BooksOf(d.records), marks)
  {
    hide Collected, BooksOf, Kept, Marked, OpeningMarks, Entering, Normalised, Leaving;
    var v, opening := ViewOf(d.captures), OpeningMarks(tag, given);
    KeptInTurn(BooksOf(d.records), opening, inside);
    if tag == "dd" {
      var begun := Definition(v.place.pending.value, [], false, v.place.pair, v.place.section);
      ValueLast(v.definitions, begun, texts, list);
      var closing := EntryMark(begun.(parts := texts, nested := list));
      KeptInTurn(BooksOf(d.records), opening + inside, [closing]);
      KeptOne(Kept(BooksOf(d.records), opening + inside), closing);
    } else {
      assert opening + inside + [] == opening + inside;
    }
  }

  lemma {:induction false} TreeTold(d: Report, n: Node)
    requires WellFormed(n) && Onward(d, EventsOf(n)).Success?
    ensures var at, styled := ViewOf(d.captures).place, d.captures.style.Some?;
            var (marks, left) := Marks(n, at, styled);
            Told(d, Onward(d, EventsOf(n)).value, marks, left, Plain(n, styled), HoldsList(n))
    decreases n, 0
  {
    hide AfterStart, AfterEnd, IsVoid, Told, Opens, Closes, BooksOf, Marked, Kept, EntryMark, AttributeMap, Normalised;
    hide OpensPair, Label;
    match n
    case Element(tag, attributes, children) =>
      var start, end := [StartTag(tag, attributes)], [EndTag(tag)];
      assert EventsOf(n) == start + EventsOfAll(children) + end;
      OnwardConcat(d, start + EventsOfAll(children), end);
      OnwardConcat(d, start, EventsOfAll(children));
      OnwardSingle(d, start[0]);
      OpeningEvent(d, tag, attributes);
      var d1 := Onward(d, start).value;
      TreesTold(d1, children);
      var d2 := Onward(d1, EventsOfAll(children)).value;
      OnwardSingle(d2, end[0]);
      ClosingEvent(d2, tag);
      ElementTold(d, d1, d2, Onward(d, EventsOf(n)).value, tag, attributes, children);
    case VoidElement(tag, attributes) =>
      OnwardSingle(d, StartTag(tag, attributes));
      VoidTold(d, tag, attributes);
    case Text(text) =>
      OnwardSingle(d, Data(text));
      TextTold(d, text);
  }

  lemma ElementTold(d: Report, d1: Report, d2: Report, d3: Report, tag: string,
                    attributes: seq<(string, Option<string>)>, children: seq<Node>)
    requires var given, v1 := AttributeMap(attributes), ViewOf(d1.captures);
             && Opens(ViewOf(d.captures), tag, given, v1)
             && BooksOf(d1.records) == Kept(BooksOf(d.records), OpeningMarks(tag, given))
             && (var (inside, left) := MarksAll(children, v1.place, v1.styled);
                 Told(d1, d2, inside, left, PlainAll(children, v1.styled), HoldsListAll(children)))
             && Closes(ViewOf(d2.captures), tag, ViewOf(d3.captures))
             && BooksOf(d3.records) ==
                if tag == "dd" && d2.captures.definitions != [] then
                  Marked(BooksOf(d2.records), EntryMark(d2.captures.definitions[|d2.captures.definitions| - 1]))
                else BooksOf(d2.records)
    ensures var n, v := Element(tag, attributes, children), ViewOf(d.captures);
            var (marks, left) := Marks(n, v.place, v.styled);
            Told(d, d3, marks, left, Plain(n, v.styled), HoldsList(n))
  {
    hide Collected, BooksOf, Kept, Marked, OpeningMarks, Normalised, Leaving, ClosingMarks, EntryMark, Entering;
    var v, within := ViewOf(d.captures), d.captures.style.Some? || tag == "style";
    var given := AttributeMap(attributes);
    var (inside, left) := MarksAll(children, Entering(tag, given, v.place), within);
    var texts, list := PlainAll(children, within), HoldsListAll(children);
    assert Whole(d, d1, d2, d3, tag, given, inside, left, texts, list);
    WholeView(d, d1, d2, d3, tag, given, inside, left, texts, list);
    WholeBooks(d, d1, d2, d3, tag, given, inside, left, texts, list);
  }

  lemma VoidTold(d: Report, tag: string, attributes: seq<(string, Option<string>)>)
    requires IsVoid(tag) && AfterStart(d, tag, attributes).Success?
    ensures Told(d, AfterStart(d, tag, attributes).value, [], ViewOf(d.captures).place, [], false)
  {
    hide IsVoid, AttributeMap, Kept, BooksOf, Label;
    VoidIsPlain(tag);
    OpeningEvent(d, tag, attributes);
    PairIsArticle(tag, AttributeMap(attributes));
    var e := AfterStart(d, tag, attributes).value;
    assert OpeningMarks(tag, AttributeMap(attributes)) == [];
    KeptNothing(BooksOf(d.records));
    NothingTold(d, e);
  }

  lemma KeptNothing(b: Books)
    ensures Kept(b, []) == b
  {}

  lemma {:induction false} TreesTold(d: Report, ns: seq<Node>)
    requires (forall n <- ns :: WellFormed(n)) && Onward(d, EventsOfAll(ns)).Success?
    ensures var v := ViewOf(d.captures);
            var (marks, left) := MarksAll(ns, v.place, v.styled);
            Told(d, Onward(d, EventsOfAll(ns)).value, marks, left, PlainAll(ns, v.styled), HoldsListAll(ns))
    decreases ns, 1
  {
    hide AfterEvent, Told, Marks, Plain, HoldsList;
    var v := ViewOf(d.captures);
    if ns == [] {
      NothingTold(d, d);
    } else {
      var front, last := ns[..|ns| - 1], ns[|ns| - 1];
      OnwardConcat(d, EventsOfAll(front), EventsOf(last));
      TreesTold(d, front);
      var e, f := Onward(d, EventsOfAll(front)).value, Onward(d, EventsOfAll(ns)).value;
      TreeTold(e, last);
      var (marks, left) := MarksAll(front, v.place, v.styled);
      ToldView(d, e, marks, left, PlainAll(front, v.styled), HoldsListAll(front));
      var (more, end) := Marks(last, left, v.styled);
      ToldInTurn(d, e, f, marks, left, PlainAll(front, v.styled), HoldsListAll(front), more, end,
                 Plain(last, v.styled), HoldsList(last));
    }
  }

  lemma ToldView(d: Report, e: Report, marks: seq<Mark>, left: Place, texts: seq<string>, list: bool)
    requires Told(d, e, marks, left, texts, list)
    ensures ViewOf(e.captures).place == left && ViewOf(e.captures).styled == ViewOf(d.captures).styled
  {}

  /** The recorded terms of an accepted document, section by section and pair by pair, are the terms and values
      of its definition lists, in document order. */
  lemma LedgersRecorded(events: seq<Event>) returns (ns: seq<Node>)
    requires Parsed(events).Success?
    ensures (forall n <- ns :: WellFormed(n)) && EventsOfAll(ns) == events
    ensures var records, marks := Parsed(events).value.records, MarksAll(ns, OUTSIDE, false).0;
            forall id :: Reads(records.sectionTerms, id, SectionEntries(marks, id))
                         && Reads(records.pairTerms, id, PairEntries(marks, id))
  {
    hide AfterEvents, Onward, MarksAll, SectionEntries, PairEntries, Kept, Reads, Collected;
    ns := AcceptedIsForest(events);
    OnwardFromEmpty(events);
    TreesTold(EMPTY, ns);
    var records, marks := Parsed(events).value.records, MarksAll(ns, OUTSIDE, false).0;
    forall id
      ensures Reads(records.sectionTerms, id, SectionEntries(marks, id))
              && Reads(records.pairTerms, id, PairEntries(marks, id))
    {
      BooksRead(marks, id);
    }
  }
}
