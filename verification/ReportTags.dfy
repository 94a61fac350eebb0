/** What one tag does, told by its attributes as they are written and by the elements around it. A start tag is
    accepted when its attributes have names of their own and what it opens may be opened; then its element is
    listed and joins the stack, the captures it opens are open, and what it announces is recorded. An end tag
    closes the innermost element and records the text of what was captured. The words of a class attribute are
    told by where they stand in it. */
module ReportTags {
  import opened Basics
  import opened Results
  import opened Nesting
  import opened ReportDocument
  import opened ReportText

  // --- Words ---

  /** The word stands in the text, with space or an end on either side. */
  ghost predicate WordAt(text: string, word: string, i: nat) {
    && i + |word| <= |text| && text[i..i + |word|] == word
    && (i == 0 || IsSpace(text[i - 1])) && (i + |word| == |text| || IsSpace(text[i + |word|]))
  }

  ghost predicate NoSpace(word: string) {
    forall c <- word :: !IsSpace(c)
  }

  ghost predicate HasWord(text: string, word: string) {
    word != "" && NoSpace(word) && exists i: nat :: WordAt(text, word, i)
  }

  /** How far the first word of a text goes. */
  function Run(text: string): (n: nat)
    ensures n <= |text| && NoSpace(text[..n]) && (n < |text| ==> IsSpace(text[n]))
  {
    if text == "" || IsSpace(text[0]) then 0
    else
      assert text[..1 + Run(text[1..])] == [text[0]] + text[1..][..Run(text[1..])];
      1 + Run(text[1..])
  }

  lemma WordsAfterSpace(text: string, word: string)
    requires text != "" && IsSpace(text[0])
    ensures Words(text, "") == Words(text[1..], "")
    ensures word != "" ==> Words(text, word) == [word] + Words(text, "")
  {
    hide IsSpace;
    assert [] + Words(text[1..], "") == Words(text[1..], "");
  }

  lemma {:induction false} WordsOfRun(text: string, word: string)
    requires word != "" || Run(text) > 0
    ensures Words(text, word) == [word + text[..Run(text)]] + Words(text[Run(text)..], "")
    decreases |text|
  {
    hide IsSpace, NoSpace;
    if text == "" {
      assert Words("", "") == [] && word + text[..0] == word;
    } else if IsSpace(text[0]) {
      WordsAfterSpace(text, word);
      assert word + text[..0] == word && text[0..] == text;
    } else {
      WordsOfRun(text[1..], word + [text[0]]);
      var n := Run(text[1..]);
      assert word + [text[0]] + text[1..][..n] == word + text[..n + 1] && text[1..][n..] == text[n + 1..];
    }
  }

  lemma WordShifted(text: string, word: string, k: nat, i: nat)
    requires 0 < k <= |text| && IsSpace(text[k - 1])
    ensures WordAt(text, word, k + i) <==> WordAt(text[k..], word, i)
  {
    hide IsSpace;
    if k + i + |word| <= |text| {
      assert text[k..][i..i + |word|] == text[k + i..k + i + |word|];
    }
  }

  lemma WordNotSpace(text: string, word: string, i: nat)
    requires WordAt(text, word, i) && word != "" && NoSpace(word)
    ensures i < |text| && !IsSpace(text[i])
  {
    hide IsSpace;
    assert text[i] == text[i..i + |word|][0] && word[0] in word;
  }

  lemma SpaceFirst(text: string, word: string)
    requires text != "" && IsSpace(text[0])
    ensures HasWord(text, word) <==> HasWord(text[1..], word)
  {
    hide IsSpace, NoSpace, WordAt;
    var rest := text[1..];
    if word != "" && NoSpace(word) {
      if i: nat :| WordAt(text, word, i) {
        WordNotSpace(text, word, i);
        WordShifted(text, word, 1, i - 1);
      }
      if i: nat :| WordAt(rest, word, i) {
        WordShifted(text, word, 1, i);
      }
    }
  }

  lemma WordInRun(text: string, word: string, i: nat)
    requires WordAt(text, word, i) && word != "" && NoSpace(word) && i < Run(text)
    ensures word == text[..Run(text)]
  {
    hide IsSpace;
    var n := Run(text);
    assert forall k :: 0 <= k < n ==> text[k] == text[..n][k] && text[..n][k] in text[..n];
    assert i == 0;
    assert forall k :: 0 <= k < |word| ==> text[k] == word[k] && word[k] in word;
  }

  lemma WordAfterRun(text: string, word: string, i: nat)
    requires word != "" && NoSpace(word) && Run(text) <= i
    ensures WordAt(text, word, i) ==> i > Run(text) && WordAt(text[Run(text)..], word, i - Run(text))
  {
    hide IsSpace;
    var n := Run(text);
    if WordAt(text, word, i) {
      assert text[i] == text[i..i + |word|][0] && word[0] in word;
      assert text[n..][i - n..i - n + |word|] == text[i..i + |word|];
    }
  }

  lemma WordBehind(text: string, word: string, n: nat, i: nat)
    requires n < |text| && IsSpace(text[n]) && word != "" && NoSpace(word) && WordAt(text[n..], word, i)
    ensures WordAt(text, word, n + i)
  {
    hide IsSpace;
    var rest := text[n..];
    assert rest[i] == rest[i..i + |word|][0] && word[0] in word;
    assert rest[i..i + |word|] == text[n + i..n + i + |word|];
  }

  lemma RunFirst(text: string, word: string)
    requires Run(text) > 0
    ensures HasWord(text, word) <==> word == text[..Run(text)] || HasWord(text[Run(text)..], word)
  {
    hide IsSpace, NoSpace, WordAt;
    var n := Run(text);
    RunIsWord(text);
    if word != "" && NoSpace(word) {
      if i: nat :| WordAt(text, word, i) {
        if i < n {
          WordInRun(text, word, i);
        } else {
          WordAfterRun(text, word, i);
        }
      }
      if i: nat :| WordAt(text[n..], word, i) {
        if n < |text| {
          WordBehind(text, word, n, i);
        } else {
          NoWordIn(text[n..], word, i);
        }
      }
    }
  }

  lemma NoWordIn(text: string, word: string, i: nat)
    requires text == "" && word != ""
    ensures !WordAt(text, word, i)
  {}

  lemma RunIsWord(text: string)
    requires Run(text) > 0
    ensures WordAt(text, text[..Run(text)], 0)
  {}

  /** The words of a text are those that stand in it. */
  lemma {:induction false} WordsRead(text: string, word: string)
    ensures word in Words(text, "") <==> HasWord(text, word)
    decreases |text|
  {
    hide IsSpace, HasWord, NoSpace;
    if text == "" {
      NoWords("", word);
    } else if IsSpace(text[0]) {
      SpaceFirst(text, word);
      WordsRead(text[1..], word);
    } else {
      var n := Run(text);
      RunFirst(text, word);
      WordsOfRun(text, "");
      assert "" + text[..n] == text[..n];
      WordsRead(text[n..], word);
    }
  }

  lemma NoWords(text: string, word: string)
    requires text == ""
    ensures !HasWord(text, word)
  {}

  // --- Attributes ---

  type Written = seq<(string, Option<string>)>

  ghost predicate NamesDiffer(attributes: Written) {
    forall i, j :: 0 <= i < j < |attributes| ==> attributes[i].0 != attributes[j].0
  }

  lemma LastName(front: Written, last: (string, Option<string>))
    ensures NamesDiffer(front + [last]) <==> NamesDiffer(front) && last.0 !in Names(front)
  {
    var all := front + [last];
    assert all[|front|] == last && forall i :: 0 <= i < |front| ==> all[i] == front[i];
    if NamesDiffer(all) {
      forall i, j | 0 <= i < j < |front| ensures front[i].0 != front[j].0 {
        assert all[i] == front[i] && all[j] == front[j];
      }
      forall a | a in front ensures a.0 != last.0 {
        var i :| 0 <= i < |front| && front[i] == a;
        assert all[i].0 != all[|front|].0;
      }
    }
    if NamesDiffer(front) && last.0 !in Names(front) {
      forall i | 0 <= i < |front| ensures front[i].0 != last.0 {
        assert front[i] in front;
      }
    }
  }

  /** Counting names tells whether any is repeated. */
  lemma {:induction false} NamesCounted(attributes: Written)
    ensures |Names(attributes)| <= |attributes|
    ensures |Names(attributes)| == |attributes| <==> NamesDiffer(attributes)
  {
    if attributes != [] {
      var front, last := attributes[..|attributes| - 1], attributes[|attributes| - 1];
      assert attributes == front + [last];
      hide NamesDiffer;
      NamesCounted(front);
      LastName(front, last);
      assert Names(attributes) == Names(front) + {last.0};
    }
  }

  /** With names of their own, the attributes are held as they are written. */
  lemma {:induction false} AttributesHeld(attributes: Written)
    requires NamesDiffer(attributes)
    ensures forall name, value ::
              name in AttributeMap(attributes) && AttributeMap(attributes)[name] == value <==>
                (name, value) in attributes
  {
    if attributes != [] {
      var front, last := attributes[..|attributes| - 1], attributes[|attributes| - 1];
      assert attributes == front + [last];
      assert forall i :: 0 <= i < |front| ==> front[i].0 != last.0;
      AttributesHeld(front);
    }
  }

  ghost predicate ClassHas(given: Attributes, word: string) {
    "class" in given && given["class"].Some? && HasWord(given["class"].value, word)
  }

  lemma ClassRead(given: Attributes, word: string)
    ensures word in Classes(given) <==> ClassHas(given, word)
  {
    hide HasWord, Words;
    WordsRead(ValueOf(given, "class"), word);
    NoWords("", word);
  }

  // --- What a start tag needs ---

  ghost predicate IsScope(tag: string, given: Attributes) {
    tag == "p" && ClassHas(given, "scope")
  }

  ghost predicate IsPair(tag: string, given: Attributes) {
    tag == "article" && ClassHas(given, "pair")
  }

  ghost predicate IsStatistics(tag: string, given: Attributes) {
    tag == "table" && ClassHas(given, "statistics")
  }

  ghost predicate InList(stack: seq<Open>) {
    stack != [] && stack[|stack| - 1].tag == "dl"
  }

  ghost predicate LabelledOnly(given: Attributes) {
    exists id :: given == map["aria-labelledby" := Some(id)]
  }

  ghost predicate LabelledPair(given: Attributes) {
    exists id :: given == map["class" := Some("pair"), "aria-labelledby" := Some(id)]
  }

  /** Nothing of the kind is open yet, and a section or a pair carries its label and nothing else. */
  ghost predicate MayOpen(d: Report, tag: string, given: Attributes) {
    var c := d.captures;
    && (tag == "style" ==> c.style.None?)
    && (tag == "h1" || tag == "h2" || tag == "h3" ==> c.heading.None?)
    && (IsScope(tag, given) ==> c.scope.None?)
    && (tag == "section" ==> c.sectionId.None? && LabelledOnly(given))
    && (IsStatistics(tag, given) ==> c.tableDepth.None?)
    && (IsPair(tag, given) ==> c.pairId.None? && LabelledPair(given))
    && (tag == "dt" ==> InList(d.stack) && c.term.None? && c.pendingTerm.None?)
    && (tag == "dd" ==> InList(d.stack) && c.pendingTerm.Some?)
  }

  lemma LabelsRead(given: Attributes)
    ensures LabelledOnly(given) <==> Label(given).Some? && OnlyLabel(given)
    ensures LabelledPair(given) <==> Label(given).Some? && OnlyPairLabel(given)
  {
    if Label(given).Some? && OnlyLabel(given) {
      assert given == map["aria-labelledby" := Some(Label(given).value)];
    }
    if Label(given).Some? && OnlyPairLabel(given) {
      assert given == map["class" := Some("pair"), "aria-labelledby" := Some(Label(given).value)];
    }
  }

  lemma ListRead(stack: seq<Open>, tag: string)
    ensures var path := TagsOf(stack) + [tag]; InList(stack) <==> |path| >= 2 && path[|path| - 2] == "dl"
  {}

  lemma StepsAccepted(c: Captures, tag: string, given: Attributes, path: Path, depth: nat)
    ensures StartStyle(c, tag).Success? <==> (tag == "style" ==> c.style.None?)
    ensures StartHeading(c, tag, given, path).Success? <==>
              (tag == "h1" || tag == "h2" || tag == "h3" ==> c.heading.None?)
    ensures StartScope(c, tag, given).Success? <==> (IsScope(tag, given) ==> c.scope.None?)
    ensures StartTable(c, tag, given, depth).Success? <==> (IsStatistics(tag, given) ==> c.tableDepth.None?)
  {
    hide Classes, ClassHas;
    ClassRead(given, "scope");
    ClassRead(given, "statistics");
  }

  lemma LabelsAccepted(c: Captures, tag: string, given: Attributes, path: Path)
    ensures StartSection(c, tag, given).Success? <==>
            (tag == "section" ==> c.sectionId.None? && Label(given).Some? && OnlyLabel(given))
    ensures StartPair(c, tag, given).Success? <==>
            (IsPair(tag, given) ==> c.pairId.None? && Label(given).Some? && OnlyPairLabel(given))
    ensures StartTerm(c, tag, path).Success? <==>
            var inList := |path| >= 2 && path[|path| - 2] == "dl";
            && (tag == "dt" ==> inList && c.term.None? && c.pendingTerm.None?)
            && (tag == "dd" ==> inList && c.pendingTerm.Some?)
  {
    hide Classes, ClassHas, OnlyLabel, OnlyPairLabel, Label;
    ClassRead(given, "pair");
  }

  /** What the steps check is still as it was when each of them comes to it. */
  lemma CapturesAccepted(d: Report, tag: string, given: Attributes, depth: nat)
    ensures StartCaptures(d.captures, tag, given, TagsOf(d.stack) + [tag], depth).Success? <==> MayOpen(d, tag, given)
  {
    hide StartStyle, StartHeading, StartScope, StartSection, StartTable, StartPair, StartTerm, Label, OnlyLabel;
    hide OnlyPairLabel, LabelledOnly, LabelledPair, InList, TagsOf, IsScope, IsPair, IsStatistics;
    var c, path := d.captures, TagsOf(d.stack) + [tag];
    LabelsRead(given);
    ListRead(d.stack, tag);
    StepsAccepted(c, tag, given, path, depth);
    if StartStyle(c, tag).Failure? {
      return;
    }
    var c1 := StartStyle(c, tag).value;
    OthersOpened(c, tag, given, path);
    StepsAccepted(c1, tag, given, path, depth);
    if StartHeading(c1, tag, given, path).Failure? {
      return;
    }
    var c2 := StartHeading(c1, tag, given, path).value;
    OthersOpened(c1, tag, given, path);
    StepsAccepted(c2, tag, given, path, depth);
    if StartScope(c2, tag, given).Failure? {
      return;
    }
    var c3 := StartScope(c2, tag, given).value;
    OthersOpened(c2, tag, given, path);
    LedgersAccepted(c3, c, tag, given, path, depth);
  }

  lemma LedgersAccepted(c3: Captures, c: Captures, tag: string, given: Attributes, path: Path, depth: nat)
    requires c3 == c.(style := c3.style, heading := c3.heading, headingParts := c3.headingParts, scope := c3.scope)
    ensures (StartSection(c3, tag, given).Success?
             && var c4 := StartSection(c3, tag, given).value;
                && StartTable(c4, tag, given, depth).Success?
                && var c5 := StartTable(c4, tag, given, depth).value;
                   && StartPair(c5, tag, given).Success?
                   && StartTerm(StartPair(c5, tag, given).value, tag, path).Success?) <==>
            var inList := |path| >= 2 && path[|path| - 2] == "dl";
            && (tag == "section" ==> c.sectionId.None? && Label(given).Some? && OnlyLabel(given))
            && (IsStatistics(tag, given) ==> c.tableDepth.None?)
            && (IsPair(tag, given) ==> c.pairId.None? && Label(given).Some? && OnlyPairLabel(given))
            && (tag == "dt" ==> inList && c.term.None? && c.pendingTerm.None?)
            && (tag == "dd" ==> inList && c.pendingTerm.Some?)
  {
    hide StartSection, StartTable, StartPair, StartTerm, Label, OnlyLabel, OnlyPairLabel, IsPair, IsStatistics;
    LabelsAccepted(c3, tag, given, path);
    if StartSection(c3, tag, given).Failure? {
      return;
    }
    var c4 := StartSection(c3, tag, given).value;
    LabelsOpened(c3, tag, given);
    StepsAccepted(c4, tag, given, path, depth);
    if StartTable(c4, tag, given, depth).Failure? {
      return;
    }
    var c5 := StartTable(c4, tag, given, depth).value;
    TableKept(c4, tag, given, depth);
    LabelsAccepted(c5, tag, given, path);
    if StartPair(c5, tag, given).Failure? {
      return;
    }
    LabelsOpened(c5, tag, given);
    LabelsAccepted(StartPair(c5, tag, given).value, tag, given, path);
  }

  /** A start tag is accepted exactly when its attributes have names of their own and what it opens may be opened. */
  lemma StartAccepted(d: Report, tag: string, attributes: Written)
    ensures AfterStart(d, tag, attributes).Success? <==>
            NamesDiffer(attributes) && MayOpen(d, tag, AttributeMap(attributes))
  {
    hide AttributeMap, Names, NamesDiffer, IsVoid, StartRecords, StartCaptures, MayOpen, TagsOf;
    NamesCounted(attributes);
    var given := AttributeMap(attributes);
    CapturesAccepted(d, tag, given, |d.stack|);
    CapturesAccepted(d, tag, given, |d.stack| + 1);
  }

  // --- What a start tag does ---

  /** An element that the page does not show, nor anything in it. */
  ghost predicate Concealed(given: Attributes) {
    || "hidden" in given || "inert" in given
    || ("aria-hidden" in given && given["aria-hidden"].Some? && SpellsTrue(given["aria-hidden"].value))
  }

  ghost predicate SpellsTrue(text: string) {
    |text| == 4 && forall i :: 0 <= i < 4 ==> text[i] == "true"[i] || text[i] == "TRUE"[i]
  }

  /** A disclosure is visible only as the one plain paragraph of the page's header. */
  ghost predicate Visible(stack: seq<Open>, given: Attributes) {
    && given == map["class" := Some("scope")]
    && |stack| == 3 && stack[0].tag == "html" && stack[1].tag == "body" && stack[2].tag == "header"
    && forall o <- stack :: !Concealed(o.attributes)
  }

  lemma VisibleRead(stack: seq<Open>, given: Attributes)
    ensures ScopeVisible(stack, given, TagsOf(stack) + ["p"]) <==> Visible(stack, given)
  {
    forall o ensures Hidden(o) <==> Concealed(o.attributes) {}
    hide Hidden, Concealed;
    var path := TagsOf(stack) + ["p"];
    assert |stack| == 3 ==> path == [stack[0].tag, stack[1].tag, stack[2].tag, "p"];
  }

  /** What is open after a start tag, when the stack is then `depth` high. */
  ghost predicate Opened(c: Captures, tag: string, given: Attributes, path: Path, depth: nat, e: Captures) {
    && e.style == (if tag == "style" then Some([]) else c.style)
    && e.heading == (if tag == "h1" || tag == "h2" || tag == "h3" then Some(Heading(tag, given, path)) else c.heading)
    && e.headingParts == (if tag == "h1" || tag == "h2" || tag == "h3" then Some([]) else c.headingParts)
    && e.scope == (if IsScope(tag, given) then Some([]) else c.scope)
    && e.tableDepth == (if IsStatistics(tag, given) then Some(depth) else c.tableDepth)
    && e.bodyDepth == (if tag == "tbody" && c.tableDepth.Some? then Some(depth) else c.bodyDepth)
    && e.row == (if tag == "tr" && c.bodyDepth.Some? then Some([]) else c.row)
    && e.cell == (if (tag == "th" || tag == "td") && c.row.Some? then Some([]) else c.cell)
    && e.pairParts == (if IsPair(tag, given) then Some([]) else c.pairParts)
    && (if IsPair(tag, given) then Labelled(given, e.pairId) else e.pairId == c.pairId)
    && (if tag == "section" then Labelled(given, e.sectionId) else e.sectionId == c.sectionId)
  }

  ghost predicate Labelled(given: Attributes, id: Option<string>) {
    id.Some? && "aria-labelledby" in given && given["aria-labelledby"] == id
  }

  /** What is recorded with a start tag. */
  ghost predicate Noted(r: Records, tag: string, given: Attributes, stack: seq<Open>, path: Path, e: Records) {
    && e.scopeVisibility == r.scopeVisibility + (if IsScope(tag, given) then [Visible(stack, given)] else [])
    && (tag != "section" ==> e.sectionIds == r.sectionIds && e.sectionPaths == r.sectionPaths
                             && e.sectionTerms == r.sectionTerms && e.sectionParts == r.sectionParts)
    && (tag == "section" ==> exists id :: Labelled(given, Some(id))
                                          && e.sectionIds == r.sectionIds + [id]
                                          && e.sectionPaths == r.sectionPaths + [path]
                                          && e.sectionTerms == r.sectionTerms[id := []]
                                          && e.sectionParts == r.sectionParts[id := []])
    && (!IsPair(tag, given) ==> e.pairIds == r.pairIds && e.pairTerms == r.pairTerms)
    && (IsPair(tag, given) ==> exists id :: Labelled(given, Some(id)) && e.pairIds == r.pairIds + [id]
                                            && e.pairTerms == r.pairTerms[id := []])
  }

  lemma TableOpened(c: Captures, tag: string, given: Attributes, depth: nat)
    requires StartTable(c, tag, given, depth).Success?
    ensures StartTable(c, tag, given, depth).value ==
            c.(tableDepth := if IsStatistics(tag, given) then Some(depth) else c.tableDepth,
               bodyDepth := if tag == "tbody" && c.tableDepth.Some? then Some(depth) else c.bodyDepth,
               row := if tag == "tr" && c.bodyDepth.Some? then Some([]) else c.row,
               cell := if (tag == "th" || tag == "td") && c.row.Some? then Some([]) else c.cell)
  {
    hide Classes, ClassHas;
    ClassRead(given, "statistics");
  }

  lemma TableKept(c: Captures, tag: string, given: Attributes, depth: nat)
    ensures StartTable(c, tag, given, depth).Success? ==>
              var e := StartTable(c, tag, given, depth).value;
              e == c.(tableDepth := e.tableDepth, bodyDepth := e.bodyDepth, row := e.row, cell := e.cell)
  {
    hide Classes;
  }

  lemma OthersOpened(c: Captures, tag: string, given: Attributes, path: Path)
    ensures StartStyle(c, tag).Success? ==>
              StartStyle(c, tag).value == c.(style := if tag == "style" then Some([]) else c.style)
    ensures StartHeading(c, tag, given, path).Success? ==>
              var h := tag == "h1" || tag == "h2" || tag == "h3";
              StartHeading(c, tag, given, path).value ==
              c.(heading := if h then Some(Heading(tag, given, path)) else c.heading,
                 headingParts := if h then Some([]) else c.headingParts)
    ensures StartScope(c, tag, given).Success? ==>
              StartScope(c, tag, given).value == c.(scope := if IsScope(tag, given) then Some([]) else c.scope)
  {
    hide Classes, ClassHas;
    ClassRead(given, "scope");
  }

  lemma LabelsOpened(c: Captures, tag: string, given: Attributes)
    ensures StartSection(c, tag, given).Success? ==>
              StartSection(c, tag, given).value ==
                c.(sectionId := if tag == "section" then Label(given) else c.sectionId)
    ensures StartPair(c, tag, given).Success? ==>
              StartPair(c, tag, given).value ==
              c.(pairId := if IsPair(tag, given) then Label(given) else c.pairId,
                 pairParts := if IsPair(tag, given) then Some([]) else c.pairParts)
  {
    hide Classes, ClassHas, OnlyLabel, OnlyPairLabel, Label;
    ClassRead(given, "pair");
  }

  lemma TermOpened(c: Captures, tag: string, path: Path)
    requires StartTerm(c, tag, path).Success?
    ensures var e := StartTerm(c, tag, path).value;
            e == c.(term := e.term, pendingTerm := e.pendingTerm, definitions := e.definitions)
  {}

  lemma CapturesOpened(c: Captures, tag: string, given: Attributes, path: Path, depth: nat)
    requires StartCaptures(c, tag, given, path, depth).Success?
    requires tag == "section" || IsPair(tag, given) ==> Labelled(given, Label(given))
    ensures Opened(c, tag, given, path, depth, StartCaptures(c, tag, given, path, depth).value)
  {
    hide StartStyle, StartHeading, StartScope, StartSection, StartTable, StartPair, StartTerm, Label, Labelled, IsScope;
    hide IsPair;
    hide IsStatistics;
    var c1 := StartStyle(c, tag).value;
    OthersOpened(c, tag, given, path);
    var c2 := StartHeading(c1, tag, given, path).value;
    OthersOpened(c1, tag, given, path);
    var c3 := StartScope(c2, tag, given).value;
    OthersOpened(c2, tag, given, path);
    var c4 := StartSection(c3, tag, given).value;
    LabelsOpened(c3, tag, given);
    var c5 := StartTable(c4, tag, given, depth).value;
    TableOpened(c4, tag, given, depth);
    var c6 := StartPair(c5, tag, given).value;
    LabelsOpened(c5, tag, given);
    TermOpened(c6, tag, path);
  }

  lemma RecordsNoted(r: Records, stack: seq<Open>, tag: string, given: Attributes)
    requires tag == "section" || IsPair(tag, given) ==> Label(given).Some?
    ensures Noted(r, tag, given, stack, TagsOf(stack) + [tag],
                  StartRecords(r, stack, tag, given, TagsOf(stack) + [tag]))
  {
    hide Classes, ClassHas, Visible, ScopeVisible, TagsOf;
    ClassRead(given, "scope");
    ClassRead(given, "pair");
    VisibleRead(stack, given);
    if Label(given).Some? {
      assert Labelled(given, Some(Label(given).value));
    }
  }

  lemma LabelHeld(given: Attributes)
    requires LabelledOnly(given) || LabelledPair(given)
    ensures Labelled(given, Label(given))
  {}

  ghost predicate IsEmptyTag(tag: string) {
    || tag == "area" || tag == "base" || tag == "br" || tag == "col" || tag == "embed" || tag == "hr" || tag == "img"
    || tag == "input" || tag == "link" || tag == "meta" || tag == "param" || tag == "source" || tag == "track"
    || tag == "wbr"
  }

  lemma EmptyRead(tag: string)
    ensures IsVoid(tag) <==> IsEmptyTag(tag)
  {}

  /** What an accepted start tag does: its element is listed with its attributes and joins the stack unless it is one of
      the empty ones; what it opens is open, and what it announces is noted. */
  lemma StartMeans(d: Report, tag: string, attributes: Written)
    requires AfterStart(d, tag, attributes).Success?
    ensures var e, given := AfterStart(d, tag, attributes).value, AttributeMap(attributes);
            var path := TagsOf(d.stack) + [tag];
            && (forall name, value :: name in given && given[name] == value <==> (name, value) in attributes)
            && e.elements == d.elements + [(tag, given)]
            && e.stack == (if IsEmptyTag(tag) then d.stack else d.stack + [Open(tag, given)])
            && Opened(d.captures, tag, given, path, |e.stack|, e.captures)
            && (!IsEmptyTag(tag) ==> Noted(d.records, tag, given, d.stack, path, e.records))
  {
    hide AttributeMap, Names, NamesDiffer, IsVoid, IsEmptyTag, StartCaptures, StartRecords, Opened, Noted, Label;
    hide LabelledOnly, LabelledPair, Labelled, ClassHas, TagsOf;
    var given, path := AttributeMap(attributes), TagsOf(d.stack) + [tag];
    StartAccepted(d, tag, attributes);
    AttributesHeld(attributes);
    EmptyRead(tag);
    if tag == "section" || IsPair(tag, given) {
      LabelHeld(given);
      SomeLabel(given);
    }
    CapturesOpened(d.captures, tag, given, path, |AfterStart(d, tag, attributes).value.stack|);
    RecordsNoted(d.records, d.stack, tag, given);
    assert (d.stack + [Open(tag, given)])[..|d.stack|] == d.stack;
  }

  lemma SomeLabel(given: Attributes)
    requires Labelled(given, Label(given))
    ensures Label(given).Some?
  {}

  // --- What an end tag does ---

  ghost predicate IsHeadingTag(tag: string) {
    tag == "h1" || tag == "h2" || tag == "h3"
  }

  /** What is recorded when an element is closed, of the captures that were open. */
  ghost predicate Finished(r: Records, c: Captures, tag: string, e: Records) {
    && e.styles == r.styles + (if tag == "style" && c.style.Some? then [Joined(c.style.value, "")] else [])
    && e.statisticRows == r.statisticRows + (if tag == "tr" && c.row.Some? then [c.row.value] else [])
    && (if tag == "p" && c.scope.Some? then
          exists text :: IsTextOf(c.scope.value, text) && e.scopeTexts == r.scopeTexts + [text]
        else e.scopeTexts == r.scopeTexts)
    && (if IsHeadingTag(tag) && c.heading.Some? && c.headingParts.Some? then
          exists text :: IsTextOf(c.headingParts.value, text)
                         && e.headings == r.headings + [(tag, c.heading.value.attributes, text, c.heading.value.path)]
        else e.headings == r.headings)
    && (if tag == "article" && c.pairId.Some? && c.pairParts.Some? then
          exists text :: IsTextOf(c.pairParts.value, text) && e.pairTexts == r.pairTexts[c.pairId.value := text]
        else e.pairTexts == r.pairTexts)
    && e.scopeVisibility == r.scopeVisibility && e.sectionIds == r.sectionIds && e.sectionPaths == r.sectionPaths
    && e.sectionParts == r.sectionParts && e.pairIds == r.pairIds
  }

  /** A cell's text joins its row. */
  ghost predicate CellFinished(c: Captures, tag: string, e: Captures) {
    if (tag == "th" || tag == "td") && c.cell.Some? then
      c.row.Some? && exists text :: IsTextOf(c.cell.value, text) && e.row == Some(c.row.value + [text]) && e.cell.None?
    else e.cell == c.cell && e.row == if tag == "tr" then None else c.row
  }

  lemma PartsRecorded(r: Records, c: Captures, tag: string)
    ensures RecordStyle(r, c, tag) ==
            r.(styles := r.styles + if tag == "style" && c.style.Some? then [Joined(c.style.value, "")] else [])
    ensures RecordRow(r, c, tag) ==
            r.(statisticRows := r.statisticRows + if tag == "tr" && c.row.Some? then [c.row.value] else [])
    ensures RecordDefinition(r, c, tag) ==
            r.(pairTerms := RecordDefinition(r, c, tag).pairTerms,
               sectionTerms := RecordDefinition(r, c, tag).sectionTerms)
  {
    hide Joined, EntryOf, Appended;
  }

  lemma TextsRecorded(r: Records, c: Captures, tag: string)
    requires IsHeading(tag) && c.heading.Some? ==> c.heading.value.tag == tag
    ensures RecordScopeText(r, c, tag) ==
            r.(scopeTexts := r.scopeTexts + if tag == "p" && c.scope.Some? then [Normalised(c.scope.value)] else [])
    ensures RecordHeading(r, c, tag) ==
            r.(headings := r.headings + if IsHeadingTag(tag) && c.heading.Some? && c.headingParts.Some? then
                 [(tag, c.heading.value.attributes, Normalised(c.headingParts.value), c.heading.value.path)] else [])
    ensures RecordPairText(r, c, tag) ==
            r.(pairTexts := if tag == "article" && c.pairId.Some? && c.pairParts.Some? then
                 r.pairTexts[c.pairId.value := Normalised(c.pairParts.value)] else r.pairTexts)
  {
    hide Normalised;
  }

  lemma AllRecorded(r: Records, c: Captures, tag: string)
    requires IsHeading(tag) && c.heading.Some? ==> c.heading.value.tag == tag
    ensures var e := EndRecords(r, c, tag);
            e == r.(styles := r.styles + (if tag == "style" && c.style.Some? then [Joined(c.style.value, "")] else []),
                    statisticRows := r.statisticRows + (if tag == "tr" && c.row.Some? then [c.row.value] else []),
                    scopeTexts :=
                      r.scopeTexts + (if tag == "p" && c.scope.Some? then [Normalised(c.scope.value)] else []),
                    headings :=
                      r.headings
                      + (if IsHeadingTag(tag) && c.heading.Some? && c.headingParts.Some? then
                           [(tag, c.heading.value.attributes, Normalised(c.headingParts.value), c.heading.value.path)]
                         else []),
                    pairTexts :=
                      if tag == "article" && c.pairId.Some? && c.pairParts.Some? then
                        r.pairTexts[c.pairId.value := Normalised(c.pairParts.value)]
                      else r.pairTexts,
                    pairTerms := e.pairTerms, sectionTerms := e.sectionTerms)
  {
    hide Normalised, Joined, RecordStyle, RecordRow, RecordScopeText, RecordHeading, IsHeading, RecordPairText;
    hide RecordDefinition, IsHeadingTag;
    PartsRecorded(r, c, tag);
    var r1 := RecordStyle(r, c, tag);
    PartsRecorded(r1, c, tag);
    var r2 := RecordRow(r1, c, tag);
    TextsRecorded(r2, c, tag);
    var r3 := RecordScopeText(r2, c, tag);
    TextsRecorded(r3, c, tag);
    var r4 := RecordHeading(r3, c, tag);
    PartsRecorded(r4, c, tag);
    TextsRecorded(RecordDefinition(r4, c, tag), c, tag);
  }

  lemma EndFinishes(d: Report, tag: string)
    requires AfterEnd(d, tag).Success?
    ensures Finished(d.records, d.captures, tag, AfterEnd(d, tag).value.records)
  {
    hide Normalised, Joined, IsTextOf, EndCaptures, EndRecords, IsHeading, IsHeadingTag;
    var c := d.captures;
    TextOfParts(if c.scope.Some? then c.scope.value else []);
    TextOfParts(if c.headingParts.Some? then c.headingParts.value else []);
    TextOfParts(if c.pairParts.Some? then c.pairParts.value else []);
    HeadingTagKept(d, tag);
    AllRecorded(d.records, c, tag);
  }

  lemma HeadingTagKept(d: Report, tag: string)
    requires AfterEnd(d, tag).Success?
    ensures IsHeading(tag) && d.captures.heading.Some? ==> d.captures.heading.value.tag == tag
  {
    hide Normalised, IsHeading, IsCell;
  }

  lemma EndFinishesCell(d: Report, tag: string)
    requires AfterEnd(d, tag).Success?
    ensures CellFinished(d.captures, tag, AfterEnd(d, tag).value.captures)
  {
    hide Normalised, IsTextOf, EndRecords;
    TextOfParts(if d.captures.cell.Some? then d.captures.cell.value else []);
  }
}
