/** Longest-first packing of weighted jobs onto the lightest machine, and Graham's bound on its heaviest load. */
module Makespan {

  /** The total weight an assignment puts on machine `x`. Jobs are the positions of a list of weights; an
      assignment names a machine for each. */
  function Load(w: seq<real>, a: seq<nat>, x: nat): real
    requires |w| == |a|
  {
    if w == [] then 0.0
    else
      var last := |w| - 1;
      Load(w[..last], a[..last], x) + if a[last] == x then w[last] else 0.0
  }

  function Count(a: seq<nat>, x: nat): nat {
    if a == [] then 0 else Count(a[..|a| - 1], x) + if a[|a| - 1] == x then 1 else 0
  }

  /** The first machine among the first `m` with the least load. */
  function Lightest(w: seq<real>, a: seq<nat>, m: nat): (x: nat)
    requires |w| == |a| && m >= 1
    ensures x < m
    ensures forall y :: 0 <= y < m ==> Load(w, a, x) <= Load(w, a, y)
    ensures forall y :: 0 <= y < x ==> Load(w, a, x) < Load(w, a, y)
  {
    if m == 1 then 0
    else
      var x := Lightest(w, a, m - 1);
      if Load(w, a, m - 1) < Load(w, a, x) then m - 1 else x
  }

  /** Each job in turn goes to the machine that is lightest so far. */
  function Greedy(w: seq<real>, m: nat): (a: seq<nat>)
    requires m >= 1
    ensures |a| == |w| && forall x <- a :: x < m
  {
    if w == [] then []
    else
      var last := |w| - 1;
      var a := Greedy(w[..last], m);
      a + [Lightest(w[..last], a, m)]
  }

  ghost predicate Decreasing(w: seq<real>) {
    forall i, j :: 0 <= i < j < |w| ==> w[i] >= w[j]
  }

  ghost predicate NonNegative(w: seq<real>) {
    forall i :: 0 <= i < |w| ==> w[i] >= 0.0
  }

  ghost predicate Assigns(w: seq<real>, a: seq<nat>, m: nat) {
    |a| == |w| && forall i :: 0 <= i < |a| ==> a[i] < m
  }

  /** No machine carries more than `t`. */
  ghost predicate Within(w: seq<real>, a: seq<nat>, m: nat, t: real) {
    Assigns(w, a, m) && forall x :: 0 <= x < m ==> Load(w, a, x) <= t
  }

  // --- Sums over machines ---

  function Sum(w: seq<real>): real {
    if w == [] then 0.0 else Sum(w[..|w| - 1]) + w[|w| - 1]
  }

  function LoadSum(w: seq<real>, a: seq<nat>, m: nat): real
    requires |w| == |a|
  {
    if m == 0 then 0.0 else LoadSum(w, a, m - 1) + Load(w, a, m - 1)
  }

  function CountSum(a: seq<nat>, m: nat): nat {
    if m == 0 then 0 else CountSum(a, m - 1) + Count(a, m - 1)
  }

  lemma {:induction false} LoadSumStep(w: seq<real>, a: seq<nat>, m: nat)
    requires |w| == |a| > 0
    ensures LoadSum(w, a, m) == LoadSum(w[..|w| - 1], a[..|a| - 1], m) + if a[|a| - 1] < m then w[|w| - 1] else 0.0
  {
    if m > 0 {
      LoadSumStep(w, a, m - 1);
    }
  }

  /** Whatever the assignment, the machines together carry all the work. */
  lemma {:induction false} LoadsSumToTotal(w: seq<real>, a: seq<nat>, m: nat)
    requires Assigns(w, a, m)
    ensures LoadSum(w, a, m) == Sum(w)
  {
    if w == [] {
      EmptyLoadSum(m);
    } else {
      LoadSumStep(w, a, m);
      LoadsSumToTotal(w[..|w| - 1], a[..|a| - 1], m);
    }
  }

  lemma {:induction false} EmptyLoadSum(m: nat)
    ensures LoadSum([], [], m) == 0.0 && CountSum([], m) == 0
  {
    if m > 0 {
      EmptyLoadSum(m - 1);
    }
  }

  lemma {:induction false} CountSumStep(a: seq<nat>, m: nat)
    requires |a| > 0
    ensures CountSum(a, m) == CountSum(a[..|a| - 1], m) + if a[|a| - 1] < m then 1 else 0
  {
    if m > 0 {
      CountSumStep(a, m - 1);
    }
  }

  lemma {:induction false} CountsSumToTotal(a: seq<nat>, m: nat)
    requires forall i :: 0 <= i < |a| ==> a[i] < m
    ensures CountSum(a, m) == |a|
  {
    if a == [] {
      EmptyLoadSum(m);
    } else {
      CountSumStep(a, m);
      CountsSumToTotal(a[..|a| - 1], m);
    }
  }

  lemma {:induction false} LoadSumAtLeast(w: seq<real>, a: seq<nat>, m: nat, low: real)
    requires |w| == |a| && forall x :: 0 <= x < m ==> low <= Load(w, a, x)
    ensures m as real * low <= LoadSum(w, a, m)
  {
    if m > 0 {
      LoadSumAtLeast(w, a, m - 1, low);
      assert m as real * low == (m - 1) as real * low + low;
    }
  }

  lemma {:induction false} LoadSumAtMost(w: seq<real>, a: seq<nat>, m: nat, high: real)
    requires |w| == |a| && forall x :: 0 <= x < m ==> Load(w, a, x) <= high
    ensures LoadSum(w, a, m) <= m as real * high
  {
    if m > 0 {
      LoadSumAtMost(w, a, m - 1, high);
      assert m as real * high == (m - 1) as real * high + high;
    }
  }

  // --- Single machines ---

  lemma {:induction false} LoadNonNegative(w: seq<real>, a: seq<nat>, x: nat)
    requires |w| == |a| && NonNegative(w)
    ensures Load(w, a, x) >= 0.0
  {
    if w != [] {
      LoadNonNegative(w[..|w| - 1], a[..|a| - 1], x);
    }
  }

  /** A machine carries at least any one, and any two, of its jobs. */
  lemma {:induction false} LoadOfJobs(w: seq<real>, a: seq<nat>, x: nat, i: nat, j: nat)
    requires |w| == |a| && NonNegative(w) && i < |a| && j < |a| && a[i] == x && a[j] == x
    ensures Load(w, a, x) >= w[i] + if i == j then 0.0 else w[j]
  {
    var last := |w| - 1;
    LoadNonNegative(w[..last], a[..last], x);
    if i < last && j < last {
      LoadOfJobs(w[..last], a[..last], x, i, j);
    } else if i < last {
      LoadOfJobs(w[..last], a[..last], x, i, i);
    } else if j < last {
      LoadOfJobs(w[..last], a[..last], x, j, j);
    }
  }

  lemma {:induction false} LoadByCount(w: seq<real>, a: seq<nat>, x: nat, low: real)
    requires |w| == |a| && forall i :: 0 <= i < |w| ==> low <= w[i]
    ensures Load(w, a, x) >= Count(a, x) as real * low
  {
    if w != [] {
      LoadByCount(w[..|w| - 1], a[..|a| - 1], x, low);
    }
  }

  /** Some job of a machine that has one. */
  ghost function JobOn(a: seq<nat>, x: nat): (i: nat)
    requires Count(a, x) > 0
    ensures i < |a| && a[i] == x
  {
    if a[|a| - 1] == x then |a| - 1 else JobOn(a[..|a| - 1], x)
  }

  lemma {:induction false} CountOfJobs(a: seq<nat>, x: nat, i: nat, j: nat)
    requires i < |a| && j < |a| && a[i] == x && a[j] == x
    ensures Count(a, x) >= if i == j then 1 else 2
  {
    var last := |a| - 1;
    if i < last && j < last {
      CountOfJobs(a[..last], x, i, j);
    } else if i < last {
      CountOfJobs(a[..last], x, i, i);
    } else if j < last {
      CountOfJobs(a[..last], x, j, j);
    }
  }

  /** A machine with one job carries exactly that job. */
  lemma {:induction false} LoadOfOnlyJob(w: seq<real>, a: seq<nat>, x: nat)
    requires |w| == |a|
    ensures Count(a, x) == 0 ==> Load(w, a, x) == 0.0
    ensures Count(a, x) == 1 ==> Load(w, a, x) == w[JobOn(a, x)]
  {
    if w != [] {
      LoadOfOnlyJob(w[..|w| - 1], a[..|a| - 1], x);
    }
  }

  // --- Large jobs ---

  function Singles(a: seq<nat>, m: nat): set<nat> {
    set x: nat | x < m && Count(a, x) == 1
  }

  lemma {:induction false} CountSumBySingles(a: seq<nat>, m: nat)
    requires forall x :: 0 <= x < m ==> Count(a, x) <= 2
    ensures CountSum(a, m) <= 2 * m - |Singles(a, m)|
    ensures (forall x :: 0 <= x < m ==> Count(a, x) >= 1) ==> CountSum(a, m) == 2 * m - |Singles(a, m)|
  {
    if m == 0 {
      assert Singles(a, 0) == {};
    } else {
      CountSumBySingles(a, m - 1);
      assert Singles(a, m) == Singles(a, m - 1) + if Count(a, m - 1) == 1 then {m - 1} else {};
    }
  }

  lemma {:induction false} ImageNotLarger(s: set<nat>, t: set<nat>, f: nat -> nat)
    requires forall x <- s :: f(x) in t
    requires forall x, y :: x in s && y in s && f(x) == f(y) ==> x == y
    ensures |s| <= |t|
    decreases s
  {
    if s != {} {
      var x :| x in s;
      ImageNotLarger(s - {x}, t - {f(x)}, f);
    }
  }

  /** With every job above a third of `t`, a machine within `t` has at most two. */
  lemma AtMostTwo(w: seq<real>, a: seq<nat>, x: nat, low: real, t: real)
    requires |w| == |a| && (forall i :: 0 <= i < |w| ==> low <= w[i]) && 3.0 * low > t >= Load(w, a, x)
    requires low > 0.0
    ensures Count(a, x) <= 2
  {
    assert Count(a, x) >= 3 ==> Count(a, x) as real * low >= 3.0 * low;
    LoadByCount(w, a, x, low);
  }

  /** Jobs above a third of `t` leave room: if they are packed within `t`, and some assignment of them and
      one job more, no heavier than any of them, is within `t`, then some machine can take that job too.
      Otherwise the jobs that are alone on a machine would be alone in the other assignment as well, and
      that would have to put a third job on some machine. */
  lemma RoomForOneMore(w: seq<real>, a: seq<nat>, m: nat, low: real, b: seq<nat>, t: real)
    requires NonNegative(w) && Within(w, a, m, t) && (forall i :: 0 <= i < |w| ==> low <= w[i])
    requires 0.0 < low <= t < 3.0 * low
    requires Within(w + [low], b, m, t)
    ensures exists x :: 0 <= x < m && Load(w, a, x) + low <= t
  {
    if forall x :: 0 <= x < m ==> Load(w, a, x) + low > t {
      var v := w + [low];
      forall x: nat | x < m ensures 1 <= Count(a, x) <= 2 && Count(b, x) <= 2 {
        AtMostTwo(w, a, x, low, t);
        AtMostTwo(v, b, x, low, t);
        LoadOfOnlyJob(w, a, x);
      }
      var f := (x: nat) => if Count(a, x) == 1 then b[JobOn(a, x)] else 0;
      forall x | x in Singles(a, m) ensures f(x) in Singles(b, m) {
        AloneInBoth(w, a, m, low, b, t, x);
      }
      forall x, y | x in Singles(a, m) && y in Singles(a, m) && f(x) == f(y) ensures x == y {
        AloneInBoth(w, a, m, low, b, t, x);
        if x != y {
          CountOfJobs(b, f(x), JobOn(a, x), JobOn(a, y));
        }
      }
      ImageNotLarger(Singles(a, m), Singles(b, m), f);
      CountSumBySingles(a, m);
      CountSumBySingles(b, m);
      CountsSumToTotal(b, m);
      CountsSumToTotal(a, m);
    }
  }

  lemma AloneInBoth(w: seq<real>, a: seq<nat>, m: nat, low: real, b: seq<nat>, t: real, x: nat)
    requires NonNegative(w) && Within(w, a, m, t) && (forall i :: 0 <= i < |w| ==> low <= w[i])
    requires x < m && Count(a, x) == 1 && Load(w, a, x) + low > t
    requires 0.0 < low && Within(w + [low], b, m, t)
    ensures b[JobOn(a, x)] < m && Count(b, b[JobOn(a, x)]) == 1
  {
    var v, i := w + [low], JobOn(a, x);
    LoadOfOnlyJob(w, a, x);
    assert v[i] == w[i] && v[i] + low > t;
    var y := b[i];
    CountOfJobs(b, y, i, i);
    if Count(b, y) >= 2 {
      var j := SecondJob(b, y, i);
      assert v[j] >= low;
      LoadOfJobs(v, b, y, i, j);
    }
  }

  lemma {:induction false} SecondJob(a: seq<nat>, x: nat, i: nat) returns (j: nat)
    requires i < |a| && a[i] == x && Count(a, x) >= 2
    ensures j < |a| && j != i && a[j] == x
  {
    var last := |a| - 1;
    if i == last {
      j := JobOn(a[..last], x);
    } else if a[last] == x {
      j := last;
    } else {
      j := SecondJob(a[..last], x, i);
    }
  }

  // --- Prefixes ---

  lemma {:induction false} LoadOfPrefix(w: seq<real>, b: seq<nat>, x: nat, k: nat)
    requires |w| == |b| && k <= |w| && NonNegative(w)
    ensures Load(w[..k], b[..k], x) <= Load(w, b, x)
    decreases |w|
  {
    if k < |w| {
      var last := |w| - 1;
      LoadOfPrefix(w[..last], b[..last], x, k);
      assert w[..last][..k] == w[..k] && b[..last][..k] == b[..k];
    } else {
      assert w[..k] == w && b[..k] == b;
    }
  }

  lemma WithinPrefix(w: seq<real>, b: seq<nat>, m: nat, t: real)
    requires Within(w, b, m, t) && NonNegative(w) && |w| > 0
    ensures Within(w[..|w| - 1], b[..|w| - 1], m, t)
  {
    var front, before := w[..|w| - 1], b[..|w| - 1];
    forall x | 0 <= x < m ensures Load(front, before, x) <= t {
      LoadOfPrefix(w, b, x, |w| - 1);
    }
  }

  /** Greedy's last step: the last job is added to the machine that was lightest before it. */
  lemma GreedyStep(w: seq<real>, m: nat)
    requires |w| > 0 && m >= 1
    ensures var last := |w| - 1; var front, a := w[..last], Greedy(w[..last], m);
            && Assigns(front, a, m) && Assigns(w, Greedy(w, m), m)
            && Greedy(w, m)[..last] == a && Greedy(w, m)[last] == Lightest(front, a, m)
            && (forall x :: 0 <= x < m ==>
                  Load(w, Greedy(w, m), x) == Load(front, a, x) + if x == Lightest(front, a, m) then w[last] else 0.0)
  {
    var last := |w| - 1;
    var a := Greedy(w[..last], m);
    assert forall i :: 0 <= i < |a| ==> a[i] in a;
    assert Greedy(w, m)[..last] == a;
  }

  // --- The bounds ---

  /** `load` is at most 4/3 - 1/(3m) times `t`. */
  ghost predicate WithinGraham(m: nat, load: real, t: real) {
    3.0 * m as real * load <= (4.0 * m as real - 1.0) * t
  }

  /** `load` is at most `t` and the (m-1)/m part of one job. */
  ghost predicate WithinAverage(m: nat, load: real, t: real, job: real) {
    m as real * load <= m as real * t + (m as real - 1.0) * job
  }

  /** When all jobs exceed a third of what some assignment achieves, longest-first greedy achieves it too. */
  lemma {:induction false} GreedyPacksLargeJobs(w: seq<real>, m: nat, b: seq<nat>, t: real)
    requires m >= 1 && NonNegative(w) && Decreasing(w) && Within(w, b, m, t)
    requires |w| > 0 && 3.0 * w[|w| - 1] > t
    ensures Within(w, Greedy(w, m), m, t)
    decreases |w|
  {
    var last := |w| - 1;
    var front, a, low := w[..last], Greedy(w[..last], m), w[last];
    WithinPrefix(w, b, m, t);
    LoadOfJobs(w, b, b[last], last, last);
    if front != [] {
      GreedyPacksLargeJobs(front, m, b[..last], t);
    } else {
      LoadNonNegative(w, b, b[last]);
    }
    assert w == front + [low];
    LoadNonNegative(w, b, 0);
    RoomForOneMore(front, a, m, low, b, t);
    GreedyStep(w, m);
  }

  /** The load of the machine that receives the last job, against the best possible average. */
  lemma LastJobLoad(w: seq<real>, m: nat, b: seq<nat>, t: real)
    requires m >= 1 && |w| > 0 && NonNegative(w) && Within(w, b, m, t)
    ensures var x := Greedy(w, m)[|w| - 1];
            WithinAverage(m, Load(w, Greedy(w, m), x), t, w[|w| - 1])
  {
    hide Greedy, Load, LoadSum, Sum, NonNegative, WithinAverage;
    var last := |w| - 1;
    var front, a := w[..last], Greedy(w[..last], m);
    GreedyStep(w, m);
    SumStep(w);
    var x := Lightest(front, a, m);
    LoadSumAtLeast(front, a, m, Load(front, a, x));
    LoadsSumToTotal(front, a, m);
    LoadsSumToTotal(w, b, m);
    LoadSumAtMost(w, b, m, t);
    AverageBound(m, Load(front, a, x), Sum(front), w[last], t);
  }

  lemma SumStep(w: seq<real>)
    requires |w| > 0
    ensures Sum(w) == Sum(w[..|w| - 1]) + w[|w| - 1]
  {}

  lemma AverageBound(m: nat, load: real, sum: real, job: real, t: real)
    requires m as real * load <= sum && sum + job <= m as real * t
    ensures WithinAverage(m, load + job, t, job)
  {
    var n := m as real;
    assert n * (load + job) == n * load + n * job;
    assert (n - 1.0) * job == n * job - job;
  }

  /** Graham's bound. For weights in decreasing order, every load of the greedy packing is at most
      4/3 - 1/(3m) times the heaviest load of any assignment. */
  lemma {:induction false} GreedyNearOptimal(w: seq<real>, m: nat, b: seq<nat>, t: real, x: nat)
    requires m >= 1 && NonNegative(w) && Decreasing(w) && Within(w, b, m, t) && x < m
    ensures WithinGraham(m, Load(w, Greedy(w, m), x), t)
    decreases |w|
  {
    hide WithinGraham, WithinAverage, Decreasing;
    LoadNonNegative(w, b, 0);
    if w == [] {
      ScaleUp(m, Load(w, Greedy(w, m), x), t);
    } else {
      var last := |w| - 1;
      GreedyStep(w, m);
      hide Greedy, Load;
      DecreasingPrefix(w);
      if Greedy(w, m)[last] != x {
        WithinPrefix(w, b, m, t);
        GreedyNearOptimal(w[..last], m, b[..last], t, x);
      } else if 3.0 * w[last] > t {
        GreedyPacksLargeJobs(w, m, b, t);
        ScaleUp(m, Load(w, Greedy(w, m), x), t);
      } else {
        LastJobLoad(w, m, b, t);
        ThirdsAddUp(m, Load(w, Greedy(w, m), x), t, w[last]);
      }
    }
  }

  lemma DecreasingPrefix(w: seq<real>)
    requires Decreasing(w) && |w| > 0
    ensures Decreasing(w[..|w| - 1])
  {}

  lemma ScaleUp(m: nat, load: real, t: real)
    requires m >= 1 && 0.0 <= t && load <= t
    ensures WithinGraham(m, load, t)
  {
    var n := m as real;
    assert n * load <= n * t;
    assert (n - 1.0) * t >= 0.0;
    assert (4.0 * n - 1.0) * t == 3.0 * (n * t) + (n - 1.0) * t;
    assert 3.0 * n * load == 3.0 * (n * load);
  }

  lemma ThirdsAddUp(m: nat, load: real, t: real, low: real)
    requires m >= 1 && 3.0 * low <= t
    requires WithinAverage(m, load, t, low)
    ensures WithinGraham(m, load, t)
  {
    var n := m as real;
    assert (n - 1.0) * (3.0 * low) <= (n - 1.0) * t;
    assert (n - 1.0) * (3.0 * low) == 3.0 * ((n - 1.0) * low);
    assert (4.0 * n - 1.0) * t == 3.0 * (n * t) + (n - 1.0) * t;
    assert 3.0 * n * load == 3.0 * (n * load);
  }

  /** The packing is balanced: two machines never differ by more than the largest weight. */
  lemma {:induction false} LoadsDifferByOneJob(w: seq<real>, m: nat, largest: real, x: nat, y: nat)
    requires m >= 1 && x < m && y < m && NonNegative(w) && 0.0 <= largest
    requires forall i :: 0 <= i < |w| ==> w[i] <= largest
    ensures Load(w, Greedy(w, m), x) - Load(w, Greedy(w, m), y) <= largest
    decreases |w|
  {
    if w != [] {
      var last := |w| - 1;
      GreedyStep(w, m);
      LoadsDifferByOneJob(w[..last], m, largest, x, y);
      assert Load(w, Greedy(w, m), y) >= Load(w[..last], Greedy(w[..last], m), y);
    }
  }

  lemma LoadStep(w: seq<real>, a: seq<nat>, job: real, machine: nat, x: nat)
    requires |w| == |a|
    ensures Load(w + [job], a + [machine], x) == Load(w, a, x) + if machine == x then job else 0.0
  {
    assert (w + [job])[..|w|] == w && (a + [machine])[..|a|] == a;
  }

  // --- The bound is attained ---

  /** The weights 2m − 1, 2m − 1, 2m − 2, 2m − 2, ..., m, m, m. */
  function TightWeight(m: nat, i: nat): int {
    if i == 2 * m then m else 2 * m - 1 - i / 2
  }

  function TightJobs(m: nat, k: nat): (w: seq<real>)
    ensures |w| == k
  {
    if k == 0 then [] else TightJobs(m, k - 1) + [TightWeight(m, k - 1) as real]
  }

  lemma {:induction false} TightJobsAt(m: nat, k: nat, i: nat)
    requires i < k
    ensures TightJobs(m, k)[i] == TightWeight(m, i) as real
  {
    if i < k - 1 {
      TightJobsAt(m, k - 1, i);
    }
  }

  /** The second job greedy puts on machine `x`. */
  function Partner(m: nat, x: nat): int {
    if x % 2 == 1 then 2 * m - x else if 2 * m - 2 - x < m then m else 2 * m - 2 - x
  }

  /** What machine `x` carries after greedy has placed `k` of the first 2m jobs. */
  function TightLoad(m: nat, k: nat, x: nat): int {
    if k <= x then 0 else if k <= Partner(m, x) then 2 * m - 1 - x / 2 else 3 * m - 1
  }

  /** Where greedy puts job `i`. */
  function TightHome(m: nat, i: nat): int {
    if i < m then i
    else if i % 2 == 0 || i == m then 2 * (m - 1 - i / 2)
    else 2 * (m - 1 - i / 2) + 1
  }

  lemma LightestUnique(w: seq<real>, a: seq<nat>, m: nat, x: nat)
    requires |w| == |a| && x < m
    requires forall y :: 0 <= y < m ==> Load(w, a, x) <= Load(w, a, y)
    requires forall y :: 0 <= y < x ==> Load(w, a, x) < Load(w, a, y)
    ensures Lightest(w, a, m) == x
  {
    hide Load;
    var least := Lightest(w, a, m);
  }

  lemma TightHomeLightest(m: nat, k: nat)
    requires k < 2 * m
    ensures 0 <= TightHome(m, k) < m
    ensures forall y: nat | y < m :: TightLoad(m, k, TightHome(m, k)) <= TightLoad(m, k, y)
    ensures forall y: nat | y < TightHome(m, k) :: TightLoad(m, k, TightHome(m, k)) < TightLoad(m, k, y)
  {}

  lemma TightLoadStep(m: nat, k: nat, x: nat)
    requires k < 2 * m && x < m
    ensures TightLoad(m, k + 1, x) == TightLoad(m, k, x) + if TightHome(m, k) == x then TightWeight(m, k) else 0
  {}

  lemma {:induction false} GreedyTightLoads(m: nat, k: nat, x: nat)
    requires k <= 2 * m && x < m
    ensures Load(TightJobs(m, k), Greedy(TightJobs(m, k), m), x) == TightLoad(m, k, x) as real
    decreases k
  {
    if k > 0 {
      hide Load, Greedy, TightLoad, TightHome;
      var w := TightJobs(m, k - 1);
      forall y: nat | y < m ensures Load(w, Greedy(w, m), y) == TightLoad(m, k - 1, y) as real {
        GreedyTightLoads(m, k - 1, y);
      }
      TightHomeLightest(m, k - 1);
      LightestUnique(w, Greedy(w, m), m, TightHome(m, k - 1));
      assert TightJobs(m, k)[..k - 1] == w;
      GreedyStep(TightJobs(m, k), m);
      TightLoadStep(m, k - 1, x);
    }
  }

  /** The other assignment: the first jobs in pairs, and the last three together. */
  function OtherHome(m: nat, i: nat): nat
    requires m >= 1
  {
    if i + 2 <= m then i else if i + 3 <= 2 * m then 2 * m - 3 - i else m - 1
  }

  function OtherHomes(m: nat, k: nat): (b: seq<nat>)
    requires m >= 1
    ensures |b| == k && forall x <- b :: x < m
  {
    if k == 0 then [] else OtherHomes(m, k - 1) + [OtherHome(m, k - 1)]
  }

  function OtherLoad(m: nat, k: nat, x: nat): int
    requires m >= 1
  {
    if x == m - 1 then (if k <= 2 * m - 2 then 0 else m * (k - (2 * m - 2)))
    else if k <= x then 0
    else if k <= 2 * m - 3 - x then 2 * m - 1 - x / 2
    else 3 * m
  }

  lemma OtherLoadStep(m: nat, k: nat, x: nat)
    requires k < 2 * m + 1 && x < m
    ensures OtherLoad(m, k + 1, x) == OtherLoad(m, k, x) + if OtherHome(m, k) == x then TightWeight(m, k) else 0
  {}

  lemma NothingLoaded(m: nat, x: nat)
    requires x < m
    ensures Load([], [], x) == OtherLoad(m, 0, x) as real
  {}

  lemma {:induction false} OtherLoads(m: nat, k: nat, x: nat)
    requires k <= 2 * m + 1 && x < m
    ensures Load(TightJobs(m, k), OtherHomes(m, k), x) == OtherLoad(m, k, x) as real
    decreases k
  {
    hide Load, OtherLoad, OtherHome, TightWeight;
    if k == 0 {
      NothingLoaded(m, x);
    } else {
      OtherLoads(m, k - 1, x);
      LoadStep(TightJobs(m, k - 1), OtherHomes(m, k - 1), TightWeight(m, k - 1) as real, OtherHome(m, k - 1), x);
      OtherLoadStep(m, k - 1, x);
    }
  }

  /** For every number of machines the bound is attained: on these 2m + 1 jobs greedy gives 4m − 1 where
      another assignment gives 3m. */
  lemma BoundIsTight(m: nat)
    requires m >= 1
    ensures var w := TightJobs(m, 2 * m + 1); var n := m as real;
            && NonNegative(w) && Decreasing(w) && Within(w, OtherHomes(m, 2 * m + 1), m, 3.0 * n)
            && Load(w, Greedy(w, m), 0) == 4.0 * n - 1.0
            && 3.0 * n * Load(w, Greedy(w, m), 0) == (4.0 * n - 1.0) * (3.0 * n)
  {
    hide Load, Greedy, NonNegative, Decreasing, Within, TightJobs, OtherHomes, TightWeight;
    TightJobsDecrease(m);
    OtherWithin(m);
    GreedyLoadsFirst(m);
    var load, n := 4.0 * m as real - 1.0, m as real;
    assert 3.0 * n * load == load * (3.0 * n);
  }

  lemma TightJobsDecrease(m: nat)
    ensures NonNegative(TightJobs(m, 2 * m + 1)) && Decreasing(TightJobs(m, 2 * m + 1))
  {
    hide TightJobs;
    var w := TightJobs(m, 2 * m + 1);
    forall i, j | 0 <= i <= j < |w| ensures w[i] >= w[j] >= 0.0 {
      TightJobsAt(m, 2 * m + 1, i);
      TightJobsAt(m, 2 * m + 1, j);
    }
  }

  lemma OtherWithin(m: nat)
    requires m >= 1
    ensures Within(TightJobs(m, 2 * m + 1), OtherHomes(m, 2 * m + 1), m, 3.0 * m as real)
  {
    hide Load, TightJobs, OtherHomes;
    var w, b := TightJobs(m, 2 * m + 1), OtherHomes(m, 2 * m + 1);
    forall x: nat | x < m ensures Load(w, b, x) <= 3.0 * m as real {
      OtherLoads(m, 2 * m + 1, x);
    }
    assert forall i :: 0 <= i < |b| ==> b[i] in b;
  }

  /** Before the last job all machines are level, so the first takes it. */
  lemma GreedyLoadsFirst(m: nat)
    requires m >= 1
    ensures var w := TightJobs(m, 2 * m + 1); Load(w, Greedy(w, m), 0) == 4.0 * m as real - 1.0
  {
    hide Load, Greedy;
    var w, front := TightJobs(m, 2 * m + 1), TightJobs(m, 2 * m);
    forall y: nat | y < m ensures Load(front, Greedy(front, m), y) == (3 * m - 1) as real {
      GreedyTightLoads(m, 2 * m, y);
    }
    LightestUnique(front, Greedy(front, m), m, 0);
    assert w[..2 * m] == front;
    GreedyStep(w, m);
  }
}
