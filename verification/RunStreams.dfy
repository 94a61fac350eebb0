/** The line streams of a run directory: writing them, reading them back through reads that may return
    less than was asked, and checking them against the lines they should hold. */
module RunStreams {
  import opened Basics

  newtype Byte = x: int | 0 <= x < 256

  type Bytes = seq<Byte>

  const CHUNK: nat := 65_536

  function Concat(lines: seq<Bytes>): (r: Bytes) {
    if lines == [] then [] else Concat(lines[..|lines| - 1]) + lines[|lines| - 1]
  }

  /** An open file. `grants` is how much the operating system gives at each read; a read of a file that
      is not at its end returns at least one byte. */
  class Source {
    const data: Bytes
    const grants: nat -> nat
    var at: nat
    var calls: nat

    ghost predicate Valid() reads this {
      at <= |data|
    }

    constructor (data: Bytes, grants: nat -> nat)
      ensures Valid() && this.data == data && at == 0
    {
      this.data, this.grants := data, grants;
      at, calls := 0, 0;
    }

    method Read(count: nat) returns (part: Bytes)
      requires Valid()
      modifies this
      ensures Valid() && old(at) <= at <= old(at) + count
      ensures part == data[old(at)..at]
      ensures part == [] ==> count == 0 || old(at) == |data|
    {
      var granted := if grants(calls) == 0 then 1 else grants(calls);
      var left := |data| - at;
      var taken := if granted < count then granted else count;
      taken := if taken < left then taken else left;
      part := data[at..at + taken];
      at, calls := at + taken, calls + 1;
    }
  }

  /** However short the reads are, the result is the next `count` bytes, or all that is left. */
  method ReadExact(source: Source, count: nat) returns (r: Bytes)
    requires source.Valid()
    modifies source
    ensures source.Valid() && source.at == Smaller(old(source.at) + count, |source.data|)
    ensures r == source.data[old(source.at)..source.at]
  {
    r := [];
    var remaining: nat := count;
    while remaining != 0
      invariant source.Valid() && old(source.at) <= source.at
      invariant source.at - old(source.at) == count - remaining
      invariant r == source.data[old(source.at)..source.at]
      decreases remaining
    {
      var part := source.Read(Smaller(remaining, CHUNK));
      if part == [] {
        assert source.at == |source.data|;
        break;
      }
      r := r + part;
      remaining := remaining - |part|;
    }
  }

  lemma {:induction false} ConcatAt(lines: seq<Bytes>, i: nat)
    requires i < |lines|
    ensures Concat(lines[..i + 1]) == Concat(lines[..i]) + lines[i]
    ensures Concat(lines[..i + 1]) <= Concat(lines)
    decreases |lines|
  {
    assert lines[..i + 1][..i] == lines[..i];
    if i + 1 < |lines| {
      var front := lines[..|lines| - 1];
      ConcatAt(front, i);
      assert front[..i + 1] == lines[..i + 1];
    } else {
      assert lines[..i + 1] == lines;
    }
  }

  /** What a stream check should accept: a file of the declared size, within the limit, that is these lines. */
  ghost predicate Holds(data: Bytes, lines: seq<Bytes>, size: nat, limit: nat) {
    size <= limit && |data| == size && data == Concat(lines)
  }

  /** In a file that holds the lines, the next line comes next. */
  lemma LineInPlace(data: Bytes, lines: seq<Bytes>, i: nat)
    requires i < |lines| && Concat(lines[..i]) <= data
    ensures var from := |Concat(lines[..i])|;
            data == Concat(lines) ==> data[from..Smaller(from + |lines[i]|, |data|)] == lines[i]
  {
    if data == Concat(lines) {
      ConcatAt(lines, i);
      var from := |Concat(lines[..i])|;
      var next := Concat(lines[..i + 1]);
      assert data[..|next|] == next;
      assert data[from..|next|] == next[from..] == lines[i];
    }
  }

  /** The stream check accepts exactly the files that hold the lines, for any pattern of short reads. */
  method VerifyLines(source: Source, lines: seq<Bytes>, size: nat, limit: nat) returns (accepted: bool)
    requires source.Valid() && source.at == 0
    modifies source
    ensures accepted <==> Holds(source.data, lines, size, limit)
  {
    if size > limit || |source.data| != size {
      return false;
    }
    var total: nat := 0;
    for i := 0 to |lines|
      invariant source.Valid() && source.at == total <= limit
      invariant source.data[..total] == Concat(lines[..i])
    {
      ConcatAt(lines, i);
      total := total + |lines[i]|;
      if total > limit {
        assert |Concat(lines[..i + 1])| > limit;
        return false;
      }
      var line := ReadExact(source, |lines[i]|);
      if line != lines[i] {
        LineInPlace(source.data, lines, i);
        return false;
      }
      assert source.data[..total] == Concat(lines[..i]) + line;
    }
    assert lines[..|lines|] == lines;
    if total != size {
      return false;
    }
    var rest := source.Read(1);
    accepted := rest == [];
  }

  /** A file being written. `accepts` is how many bytes the operating system takes at each write. */
  class Target {
    const accepts: nat -> nat
    var content: Bytes
    var writes: nat

    constructor (accepts: nat -> nat)
      ensures content == []
    {
      this.accepts := accepts;
      content, writes := [], 0;
    }

    method Write(line: Bytes) returns (n: nat)
      modifies this
      ensures writes == old(writes) + 1
      ensures n == Smaller(|line|, accepts(old(writes)))
      ensures content == old(content) + line[..n]
    {
      n := Smaller(|line|, accepts(writes));
      content := content + line[..n];
      writes := writes + 1;
    }
  }

  /** The operating system takes every line of the stream whole. */
  ghost predicate TakesWhole(accepts: nat -> nat, lines: seq<Bytes>) {
    forall i :: 0 <= i < |lines| ==> accepts(i) >= |lines[i]|
  }

  /** Writing succeeds exactly when the stream fits and no write falls short, and then the file is the
      stream; a refused stream leaves a file that starts the stream and stays within the limit. */
  method WriteLines(target: Target, lines: seq<Bytes>, limit: nat) returns (done: bool)
    requires target.content == [] && target.writes == 0
    modifies target
    ensures done <==> |Concat(lines)| <= limit && TakesWhole(target.accepts, lines)
    ensures done ==> target.content == Concat(lines)
    ensures target.content <= Concat(lines) && |target.content| <= limit
  {
    var size: nat := 0;
    for i := 0 to |lines|
      invariant target.writes == i
      invariant size == |Concat(lines[..i])| <= limit
      invariant target.content == Concat(lines[..i]) <= Concat(lines)
      invariant TakesWhole(target.accepts, lines[..i])
    {
      ConcatAt(lines, i);
      size := size + |lines[i]|;
      if size > limit {
        return false;
      }
      var n := target.Write(lines[i]);
      if n != |lines[i]| {
        return false;
      }
    }
    assert lines[..|lines|] == lines;
    done := true;
  }
}
