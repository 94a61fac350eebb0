/** Record streams: one canonical JSON document a line, written by the store and read back strictly. */
module RunRecords {
  import opened Results
  import opened RunStreams

  const LF: Byte := 10
  const CR: Byte := 13

  /** How a kind of record is rendered and read, and the bounds on its stream. `placed` is what a record
      has to say about its own position. */
  datatype Format<!R> = Format(
    render: R -> Bytes,
    read: Bytes -> Option<R>,
    placed: (nat, R) -> bool,
    maxBytes: nat,
    maxRecords: nat,
    maxRecordBytes: nat)

  /** Rendering can be read back, and a rendered record is one non-empty line: canonical JSON escapes
      line breaks inside strings and puts none between tokens. */
  ghost predicate Canonical<R(!new)>(f: Format<R>) {
    forall r :: f.read(f.render(r)) == Some(r) && f.render(r) != [] && LF !in f.render(r) && CR !in f.render(r)
  }

  function Line<R>(f: Format<R>, r: R): Bytes {
    f.render(r) + [LF]
  }

  function Lines<R>(f: Format<R>, rs: seq<R>): (lines: seq<Bytes>)
    ensures |lines| == |rs|
  {
    seq(|rs|, i requires 0 <= i < |rs| => Line(f, rs[i]))
  }

  /** The stream as the store writes it. */
  function Rendered<R>(f: Format<R>, rs: seq<R>): Bytes {
    Concat(Lines(f, rs))
  }

  /** What may be stored: the bounds hold and every record is where it says it is. */
  ghost predicate Within<R>(f: Format<R>, rs: seq<R>) {
    && |Rendered(f, rs)| <= f.maxBytes
    && |rs| <= f.maxRecords
    && forall i :: 0 <= i < |rs| ==> |f.render(rs[i])| <= f.maxRecordBytes && f.placed(i, rs[i])
  }

  // --- Splitting into lines, as Python's `bytes.splitlines(keepends=True)` does ---

  function FirstLine(doc: Bytes): (n: nat)
    requires doc != []
    ensures 1 <= n <= |doc|
  {
    if doc[0] == LF || |doc| == 1 then 1
    else if doc[0] == CR then (if doc[1] == LF then 2 else 1)
    else 1 + FirstLine(doc[1..])
  }

  function SplitLines(doc: Bytes): seq<Bytes> {
    if doc == [] then [] else [doc[..FirstLine(doc)]] + SplitLines(doc[FirstLine(doc)..])
  }

  /** A line feed, or a carriage return that none follows. */
  ghost predicate EndsLine(doc: Bytes, i: nat)
    requires i < |doc|
  {
    doc[i] == LF || (doc[i] == CR && (i + 1 == |doc| || doc[i + 1] != LF))
  }

  /** The first line goes up to the first line end, or is the whole document. */
  lemma {:induction false} FirstLineRead(doc: Bytes)
    requires doc != []
    ensures var n := FirstLine(doc);
            (n == |doc| || EndsLine(doc, n - 1)) && forall i: nat :: i < n - 1 ==> !EndsLine(doc, i)
  {
    if !(doc[0] == LF || |doc| == 1 || doc[0] == CR) {
      FirstLineRead(doc[1..]);
      forall i: nat | i < |doc| - 1 ensures EndsLine(doc, i + 1) <==> EndsLine(doc[1..], i) {}
      forall i: nat | i < FirstLine(doc) - 1 ensures !EndsLine(doc, i) {
        assert i > 0 ==> !EndsLine(doc[1..], i - 1);
      }
    }
  }

  lemma {:induction false} ConcatFront(line: Bytes, lines: seq<Bytes>)
    ensures Concat([line] + lines) == line + Concat(lines)
  {
    var all := [line] + lines;
    if lines == [] {
      assert all[..0] == [];
    } else {
      assert all[..|all| - 1] == [line] + lines[..|lines| - 1];
      ConcatFront(line, lines[..|lines| - 1]);
    }
  }

  /** Splitting loses nothing. */
  lemma {:induction false} SplitLinesLossless(doc: Bytes)
    ensures Concat(SplitLines(doc)) == doc
  {
    if doc != [] {
      var n := FirstLine(doc);
      SplitLinesLossless(doc[n..]);
      ConcatFront(doc[..n], SplitLines(doc[n..]));
      assert doc == doc[..n] + doc[n..];
    }
  }

  lemma {:induction false} FirstLineOf(payload: Bytes, rest: Bytes)
    requires LF !in payload && CR !in payload
    ensures FirstLine(payload + [LF] + rest) == |payload| + 1
  {
    var doc := payload + [LF] + rest;
    if payload != [] {
      assert doc[0] == payload[0] && doc[0] in payload;
      assert doc[1..] == payload[1..] + [LF] + rest;
      FirstLineOf(payload[1..], rest);
    }
  }

  /** Splitting finds exactly the lines a stream of break-free payloads was made of. */
  lemma {:induction false} SplitLinesOf(payloads: seq<Bytes>, lines: seq<Bytes>)
    requires |lines| == |payloads|
    requires forall i :: 0 <= i < |payloads| ==>
               LF !in payloads[i] && CR !in payloads[i] && lines[i] == payloads[i] + [LF]
    ensures SplitLines(Concat(lines)) == lines
  {
    if lines != [] {
      var rest := Concat(lines[1..]);
      assert lines == [lines[0]] + lines[1..];
      ConcatFront(lines[0], lines[1..]);
      FirstLineOf(payloads[0], rest);
      var doc := Concat(lines);
      assert doc == payloads[0] + [LF] + rest;
      assert doc[..|lines[0]|] == lines[0] && doc[|lines[0]|..] == rest;
      SplitLinesOf(payloads[1..], lines[1..]);
    }
  }

  // --- Reading ---

  /** One line is a record only when it is, byte for byte, that record rendered. */
  function ReadLine<R>(f: Format<R>, i: nat, line: Bytes): Option<R> {
    if line == [] || line[|line| - 1] != LF || (|line| >= 2 && line[|line| - 2] == CR) then None else
      var payload := line[..|line| - 1];
      if payload == [] || |payload| > f.maxRecordBytes || f.read(payload).None? then None else
        var r := f.read(payload).value;
        if Line(f, r) == line && f.placed(i, r) then Some(r) else None
  }

  function ReadLines<R>(f: Format<R>, lines: seq<Bytes>): (rs: Option<seq<R>>)
    ensures rs.Some? ==> |rs.value| == |lines|
  {
    if lines == [] then Some([]) else
      var front := ReadLines(f, lines[..|lines| - 1]);
      var last := ReadLine(f, |lines| - 1, lines[|lines| - 1]);
      if front.Some? && last.Some? then Some(front.value + [last.value]) else None
  }

  function Parsed<R>(f: Format<R>, doc: Bytes): Option<seq<R>> {
    if |doc| > f.maxBytes || |SplitLines(doc)| > f.maxRecords then None else ReadLines(f, SplitLines(doc))
  }

  lemma {:induction false} ReadLinesPrefix<R>(f: Format<R>, lines: seq<Bytes>, i: nat)
    requires i < |lines| && ReadLines(f, lines).Some?
    ensures ReadLines(f, lines[..i]).Some? && ReadLine(f, i, lines[i]).Some?
    decreases |lines|
  {
    var front := lines[..|lines| - 1];
    if i < |front| {
      ReadLinesPrefix(f, front, i);
      assert front[..i] == lines[..i];
    } else {
      assert lines[..i] == front;
    }
  }

  method ParseStream<R>(f: Format<R>, doc: Bytes) returns (r: Option<seq<R>>)
    ensures r == Parsed(f, doc)
  {
    hide ReadLine, SplitLines;
    if |doc| > f.maxBytes {
      return None;
    }
    var lines := SplitLines(doc);
    if |lines| > f.maxRecords {
      return None;
    }
    var records := [];
    for i := 0 to |lines|
      invariant ReadLines(f, lines[..i]) == Some(records)
    {
      var record := ReadLine(f, i, lines[i]);
      assert lines[..i + 1][..i] == lines[..i];
      if record.None? {
        if ReadLines(f, lines).Some? {
          ReadLinesPrefix(f, lines, i);
        }
        return None;
      }
      records := records + [record.value];
    }
    assert lines[..|lines|] == lines;
    r := Some(records);
  }

  lemma {:induction false} ReadLinesExact<R>(f: Format<R>, lines: seq<Bytes>)
    requires ReadLines(f, lines).Some?
    ensures var rs := ReadLines(f, lines).value;
            lines == Lines(f, rs)
            && forall i :: 0 <= i < |rs| ==> |f.render(rs[i])| <= f.maxRecordBytes && f.placed(i, rs[i])
  {
    if lines != [] {
      ReadLinesExact(f, lines[..|lines| - 1]);
      var rs := ReadLines(f, lines).value;
      var last := rs[|rs| - 1];
      assert lines[|lines| - 1] == f.render(last) + [LF];
      assert f.render(last) == lines[|lines| - 1][..|lines[|lines| - 1]| - 1];
    }
  }

  /** What is read back, written again, is the very same document. */
  lemma RenderUndoesParse<R>(f: Format<R>, doc: Bytes)
    requires Parsed(f, doc).Some?
    ensures Rendered(f, Parsed(f, doc).value) == doc && Within(f, Parsed(f, doc).value)
  {
    SplitLinesLossless(doc);
    ReadLinesExact(f, SplitLines(doc));
  }

  lemma {:induction false} ReadLinesOf<R(!new)>(f: Format<R>, rs: seq<R>)
    requires Canonical(f)
    requires forall i :: 0 <= i < |rs| ==> |f.render(rs[i])| <= f.maxRecordBytes && f.placed(i, rs[i])
    ensures ReadLines(f, Lines(f, rs)) == Some(rs)
  {
    if rs != [] {
      var front, last := rs[..|rs| - 1], rs[|rs| - 1];
      ReadLinesOf(f, front);
      assert Lines(f, rs)[..|rs| - 1] == Lines(f, front);
      var line := Line(f, last);
      assert line[..|line| - 1] == f.render(last);
      assert |line| >= 2 ==> line[|line| - 2] in f.render(last);
      assert front + [last] == rs;
    }
  }

  /** Reading back what was written gives the same records. */
  lemma ParseUndoesRender<R(!new)>(f: Format<R>, rs: seq<R>)
    requires Canonical(f) && Within(f, rs)
    ensures Parsed(f, Rendered(f, rs)) == Some(rs)
  {
    SplitLinesOf(seq(|rs|, i requires 0 <= i < |rs| => f.render(rs[i])), Lines(f, rs));
    ReadLinesOf(f, rs);
  }

  /** The reader accepts exactly the documents the writer makes from records within the bounds, and no
      document stands for two lists of records. */
  lemma AcceptsExactlyRendered<R(!new)>(f: Format<R>, doc: Bytes)
    requires Canonical(f)
    ensures Parsed(f, doc).Some? <==> exists rs :: Within(f, rs) && Rendered(f, rs) == doc
    ensures forall a, b :: Within(f, a) && Within(f, b) && Rendered(f, a) == Rendered(f, b) ==> a == b
  {
    if Parsed(f, doc).Some? {
      RenderUndoesParse(f, doc);
    }
    forall rs | Within(f, rs) ensures Parsed(f, Rendered(f, rs)) == Some(rs) {
      ParseUndoesRender(f, rs);
    }
  }
}
