/** Measuring test files: every test case's time goes to the file with the longest path its dotted name
    starts with. The parts of the name are tried from the whole name down to the first part, since a class
    inside a module adds parts that name no file; a case whose name begins with no known file is left out.
    The sum for each file is recorded to one decimal. */
module ShardTimes {
  import opened Orders
  import opened Results

  /** A test case of a report: the parts of its dotted name, and its time. */
  datatype Case = Case(parts: seq<string>, time: real)

  function Joined(parts: seq<string>): string {
    if parts == [] then ""
    else if |parts| == 1 then parts[0]
    else Joined(parts[..|parts| - 1]) + "/" + parts[|parts| - 1]
  }

  /** The file the first `n` parts name. */
  function FileName(parts: seq<string>, n: nat): string
    requires n <= |parts|
  {
    Joined(parts[..n]) + ".py"
  }

  /** The first part, a slash, and what the others name; the last part has the suffix. */
  lemma FileNameRead(parts: seq<string>, n: nat)
    requires 1 <= n <= |parts|
    ensures FileName(parts, n) == parts[0] + if n == 1 then ".py" else "/" + FileName(parts[1..], n - 1)
  {
    if n == 1 {
      assert parts[..1] == [parts[0]];
    } else {
      JoinedFromFront(parts[..n]);
      assert parts[..n][1..] == parts[1..][..n - 1];
    }
  }

  lemma {:induction false} JoinedFromFront(parts: seq<string>)
    requires |parts| >= 2
    ensures Joined(parts) == parts[0] + "/" + Joined(parts[1..])
  {
    var front, last := parts[..|parts| - 1], parts[|parts| - 1];
    if |parts| > 2 {
      JoinedFromFront(front);
      assert parts[1..][..|parts| - 2] == front[1..];
    } else {
      assert front == [parts[0]] && parts[1..] == [last];
    }
  }

  /** The file the longest known prefix, of at most `n` parts, names. */
  function LongestFile(parts: seq<string>, n: nat, known: set<string>): Option<string>
    requires n <= |parts|
  {
    if n == 0 then None
    else if FileName(parts, n) in known then Some(FileName(parts, n))
    else LongestFile(parts, n - 1, known)
  }

  function Home(c: Case, known: set<string>): Option<string> {
    LongestFile(c.parts, |c.parts|, known)
  }

  /** The first `k` parts name `file`, and no longer prefix of at most `n` parts names a known file. */
  ghost predicate LongestAt(parts: seq<string>, n: nat, k: nat, file: string, known: set<string>)
    requires n <= |parts|
  {
    && 1 <= k <= n && file == FileName(parts, k)
    && forall longer: nat :: k < longer <= n ==> FileName(parts, longer) !in known
  }

  /** A case belongs to a known file that a prefix of its name names, when no longer prefix names one, and to
      no file exactly when no prefix does. */
  lemma {:induction false} HomeIsLongest(parts: seq<string>, n: nat, known: set<string>)
    requires n <= |parts|
    ensures match LongestFile(parts, n, known)
            case Some(file) => file in known && exists k: nat :: LongestAt(parts, n, k, file, known)
            case None => forall k: nat :: 1 <= k <= n ==> FileName(parts, k) !in known
  {
    if n > 0 && FileName(parts, n) !in known {
      HomeIsLongest(parts, n - 1, known);
      if LongestFile(parts, n - 1, known).Some? {
        var file := LongestFile(parts, n - 1, known).value;
        var k: nat :| LongestAt(parts, n - 1, k, file, known);
        assert LongestAt(parts, n, k, file, known);
      }
    } else if n > 0 {
      assert LongestAt(parts, n, n, FileName(parts, n), known);
    }
  }

  /** The time of the cases that belong to `file`. */
  function TimeOf(cases: seq<Case>, known: set<string>, file: string): real {
    if cases == [] then 0.0 else
      var last := cases[|cases| - 1];
      TimeOf(cases[..|cases| - 1], known, file) + if Home(last, known) == Some(file) then last.time else 0.0
  }

  /** A real rounded to one decimal; a tie goes to the even tenth. */
  function Tenths(x: real): real {
    var tenths := (10.0 * x).Floor;
    var rest := 10.0 * x - tenths as real;
    (if rest > 0.5 || (rest == 0.5 && tenths % 2 == 1) then tenths + 1 else tenths) as real / 10.0
  }

  /** Rounding moves a time by at most half a tenth, and one that has one decimal not at all. */
  lemma TenthsNearest(x: real, tenths: int)
    ensures -0.05 <= Tenths(x) - x <= 0.05
    ensures 10.0 * x == tenths as real ==> Tenths(x) == x
  {}

  /** So many tenths are nearest to the time; of two that are, the even one. */
  ghost predicate NearestTenths(x: real, tenths: int) {
    && -0.5 <= tenths as real - 10.0 * x <= 0.5
    && (tenths as real - 10.0 * x == 0.5 || tenths as real - 10.0 * x == -0.5 ==> tenths % 2 == 0)
  }

  lemma TenthsRounded(x: real)
    ensures exists tenths :: NearestTenths(x, tenths) && Tenths(x) == tenths as real / 10.0
  {
    var tenths := (10.0 * x).Floor;
    assert NearestTenths(x, tenths) || NearestTenths(x, tenths + 1);
  }

  predicate HasCase(cases: seq<Case>, known: set<string>, file: string) {
    exists i :: 0 <= i < |cases| && Home(cases[i], known) == Some(file)
  }

  lemma HasCaseStep(cases: seq<Case>, i: nat, known: set<string>, file: string)
    requires i < |cases|
    ensures HasCase(cases[..i + 1], known, file) <==>
              HasCase(cases[..i], known, file) || Home(cases[i], known) == Some(file)
  {
    assert cases[..i + 1] == cases[..i] + [cases[i]];
    if HasCase(cases[..i], known, file) {
      var j :| 0 <= j < i && Home(cases[..i][j], known) == Some(file);
      assert cases[..i + 1][j] == cases[..i][j];
    }
    if HasCase(cases[..i + 1], known, file) {
      var j :| 0 <= j <= i && Home(cases[..i + 1][j], known) == Some(file);
      assert j < i ==> cases[..i][j] == cases[..i + 1][j];
    }
    assert cases[..i + 1][i] == cases[i];
  }

  /** The longest prefix is found by trying each length, the whole name first. */
  method FindHome(c: Case, known: set<string>) returns (home: Option<string>)
    ensures home == Home(c, known)
  {
    var n := |c.parts|;
    while n > 0
      invariant 0 <= n <= |c.parts| && LongestFile(c.parts, n, known) == Home(c, known)
    {
      if FileName(c.parts, n) in known {
        return Some(FileName(c.parts, n));
      }
      n := n - 1;
    }
    home := None;
  }

  /** Each file that has a case gets the time of its cases, to one decimal; no other file appears. */
  method MeasuredSeconds(cases: seq<Case>, known: set<string>) returns (rounded: map<string, real>)
    ensures forall file :: file in rounded <==> HasCase(cases, known, file)
    ensures forall file <- rounded :: rounded[file] == Tenths(TimeOf(cases, known, file))
  {
    hide Home, Tenths;
    var seconds: map<string, real> := map[];
    for i := 0 to |cases|
      invariant forall file :: file in seconds <==> HasCase(cases[..i], known, file)
      invariant forall file <- seconds :: seconds[file] == TimeOf(cases[..i], known, file)
      invariant forall file :: file !in seconds ==> TimeOf(cases[..i], known, file) == 0.0
    {
      var home := FindHome(cases[i], known);
      assert cases[..i + 1][..i] == cases[..i];
      forall file {
        HasCaseStep(cases, i, known, file);
      }
      if home.Some? {
        var before := if home.value in seconds then seconds[home.value] else 0.0;
        seconds := seconds[home.value := before + cases[i].time];
      }
    }
    assert cases[..|cases|] == cases;
    rounded := map file | file in seconds :: Tenths(seconds[file]);
  }

  // --- No time is lost or counted twice ---

  function Sum(files: seq<string>, cases: seq<Case>, known: set<string>): real {
    if files == [] then 0.0 else TimeOf(cases, known, files[0]) + Sum(files[1..], cases, known)
  }

  function TimeAtHome(cases: seq<Case>, known: set<string>): real {
    if cases == [] then 0.0 else
      var last := cases[|cases| - 1];
      TimeAtHome(cases[..|cases| - 1], known) + if Home(last, known).Some? then last.time else 0.0
  }

  lemma {:induction false} SumStep(files: seq<string>, cases: seq<Case>, known: set<string>)
    requires cases != [] && Distinct(files)
    ensures var last := cases[|cases| - 1];
            Sum(files, cases, known) ==
            Sum(files, cases[..|cases| - 1], known)
            + if Home(last, known).Some? && Home(last, known).value in files then last.time else 0.0
  {
    hide Home;
    if files != [] {
      SumStep(files[1..], cases, known);
      assert files == [files[0]] + files[1..];
      assert forall file <- files[1..] :: file != files[0];
    }
  }

  lemma HomeKnown(c: Case, known: set<string>)
    ensures Home(c, known).Some? ==> Home(c, known).value in known
  {
    HomeIsLongest(c.parts, |c.parts|, known);
  }

  lemma {:induction false} NothingMeasured(files: seq<string>, known: set<string>)
    ensures Sum(files, [], known) == 0.0
  {
    if files != [] {
      NothingMeasured(files[1..], known);
    }
  }

  /** The times of the known files add up to the times of all cases that belong to one. */
  lemma {:induction false} TimesAddUp(files: seq<string>, cases: seq<Case>)
    requires Distinct(files)
    ensures Sum(files, cases, Elements(files)) == TimeAtHome(cases, Elements(files))
  {
    hide Home;
    var known := Elements(files);
    if cases == [] {
      NothingMeasured(files, known);
    } else {
      TimesAddUp(files, cases[..|cases| - 1]);
      SumStep(files, cases, known);
      HomeKnown(cases[|cases| - 1], known);
    }
  }

  function RoundedSum(files: seq<string>, cases: seq<Case>, known: set<string>): real {
    if files == [] then 0.0 else Tenths(TimeOf(cases, known, files[0])) + RoundedSum(files[1..], cases, known)
  }

  lemma {:induction false} RoundedSumNear(files: seq<string>, cases: seq<Case>, known: set<string>)
    ensures var off := RoundedSum(files, cases, known) - Sum(files, cases, known);
            -0.05 * |files| as real <= off <= 0.05 * |files| as real
  {
    hide Tenths, TimeOf;
    if files != [] {
      RoundedSumNear(files[1..], cases, known);
      TenthsNearest(TimeOf(cases, known, files[0]), 0);
    }
  }

  /** The recorded times add up to the time of all cases that belong to a file, up to half a tenth a file. */
  lemma RecordedTimesAddUp(files: seq<string>, cases: seq<Case>)
    requires Distinct(files)
    ensures var off := RoundedSum(files, cases, Elements(files)) - TimeAtHome(cases, Elements(files));
            -0.05 * |files| as real <= off <= 0.05 * |files| as real
  {
    TimesAddUp(files, cases);
    RoundedSumNear(files, cases, Elements(files));
  }
}
