/** Test files packed into shards: longest first, onto whichever shard is lightest; what each shard holds and
    how long it can take. */
module Shards {
  import opened Orders
  import opened Makespan

  type Durations = map<string, real>

  predicate RealLeq(x: real, y: real) { x <= y }

  function Known(files: seq<string>, durations: Durations): seq<real> {
    if files == [] then []
    else
      var name := files[|files| - 1];
      Known(files[..|files| - 1], durations) + if name in durations then [durations[name]] else []
  }

  /** The middle value, or the mean of the two middle values. */
  function Median(values: seq<real>): real
    requires values != []
  {
    var sorted := SortBy(values, RealLeq);
    SortKeepsLength(values, RealLeq);
    var middle := |sorted| / 2;
    if |sorted| % 2 == 1 then sorted[middle] else (sorted[middle - 1] + sorted[middle]) / 2.0
  }

  lemma {:induction false} InsertKeepsLength<T>(x: T, s: seq<T>, leq: (T, T) -> bool)
    ensures |Insert(x, s, leq)| == |s| + 1
  {
    if s != [] {
      InsertKeepsLength(x, s[1..], leq);
    }
  }

  lemma {:induction false} SortKeepsLength<T>(s: seq<T>, leq: (T, T) -> bool)
    ensures |SortBy(s, leq)| == |s|
  {
    if s != [] {
      SortKeepsLength(s[1..], leq);
      InsertKeepsLength(s[0], SortBy(s[1..], leq), leq);
    }
  }

  /** The weight of an unmeasured file: the median of the known times, or one second when none is known. */
  function Default(files: seq<string>, durations: Durations): real {
    var known := Known(files, durations);
    if known == [] then 1.0 else Median(known)
  }

  function Weight(durations: Durations, default: real, name: string): real {
    if name in durations then durations[name] else default
  }

  /** Heavier files first, equal weights by name. */
  function PackingOrder(durations: Durations, default: real): (string, string) -> bool {
    (a, b) =>
      var u, v := Weight(durations, default, a), Weight(durations, default, b);
      u > v || (u == v && TextLeq(a, b))
  }

  function Weights(order: seq<string>, durations: Durations, default: real): (w: seq<real>)
    ensures |w| == |order|
  {
    seq(|order|, i requires 0 <= i < |order| => Weight(durations, default, order[i]))
  }

  /** The files an assignment gives to shard `x`, in packing order. */
  function Members(order: seq<string>, a: seq<nat>, x: nat): seq<string>
    requires |order| == |a|
  {
    if order == [] then []
    else
      var last := |order| - 1;
      Members(order[..last], a[..last], x) + if a[last] == x then [order[last]] else []
  }

  function Packed(files: seq<string>, durations: Durations, count: nat): seq<seq<string>>
    requires count >= 1
  {
    var default := Default(files, durations);
    var order := SortBy(files, PackingOrder(durations, default));
    var a := Greedy(Weights(order, durations, default), count);
    seq(count, x requires 0 <= x < count => SortBy(Members(order, a, x), TextLeq))
  }

  /** The loop's lists after the first `k` files: each shard's time and files under the greedy assignment. */
  ghost predicate PackedSoFar(order: seq<string>, w: seq<real>, k: nat, totals: seq<real>, groups: seq<seq<string>>)
    requires k <= |order| == |w| && |totals| >= 1
  {
    var a := Greedy(w[..k], |totals|);
    && |groups| == |totals|
    && (forall x :: 0 <= x < |totals| ==> totals[x] == Load(w[..k], a, x))
    && (forall x :: 0 <= x < |totals| ==> groups[x] == Members(order[..k], a, x))
  }

  lemma PlaceStep(order: seq<string>, w: seq<real>, k: nat, totals: seq<real>, groups: seq<seq<string>>, least: nat)
    requires k < |order| == |w| && |totals| >= 1 && PackedSoFar(order, w, k, totals, groups)
    requires least < |totals|
    requires forall y :: 0 <= y < |totals| ==> totals[least] <= totals[y]
    requires forall y :: 0 <= y < least ==> totals[least] < totals[y]
    ensures PackedSoFar(order, w, k + 1, totals[least := totals[least] + w[k]],
                        groups[least := groups[least] + [order[k]]])
  {
    hide Load, Greedy, Members;
    var m := |totals|;
    var a, b := Greedy(w[..k], m), Greedy(w[..k + 1], m);
    assert w[..k + 1][..k] == w[..k] && order[..k + 1][..k] == order[..k];
    GreedyStep(w[..k + 1], m);
    assert least == Lightest(w[..k], a, m);
    forall x | 0 <= x < m
      ensures Members(order[..k + 1], b, x) == Members(order[..k], a, x) + if x == least then [order[k]] else []
    {
      MembersStep(order[..k + 1], b, x);
    }
  }

  lemma MembersStep(order: seq<string>, a: seq<nat>, x: nat)
    requires |order| == |a| > 0
    ensures var last := |order| - 1;
            Members(order, a, x) == Members(order[..last], a[..last], x) + if a[last] == x then [order[last]] else []
  {}

  method Shard(files: seq<string>, durations: Durations, count: nat) returns (shards: seq<seq<string>>)
    requires count >= 1
    ensures shards == Packed(files, durations, count)
  {
    hide Load, Greedy, Members, SortBy, Default, Weight;
    var default := Default(files, durations);
    var order := SortBy(files, PackingOrder(durations, default));
    ghost var w := Weights(order, durations, default);
    var totals: seq<real> := seq(count, _ => 0.0);
    var groups: seq<seq<string>> := seq(count, _ => []);
    NothingPacked(order, w, totals, groups);
    for k := 0 to |order|
      invariant |totals| == |groups| == count
      invariant PackedSoFar(order, w, k, totals, groups)
    {
      var lightest := IndexOfLeast(totals);
      PlaceStep(order, w, k, totals, groups, lightest);
      totals := totals[lightest := totals[lightest] + Weight(durations, default, order[k])];
      groups := groups[lightest := groups[lightest] + [order[k]]];
    }
    assert w[..|order|] == w && order[..|order|] == order;
    shards := seq(count, x requires 0 <= x < count => SortBy(groups[x], TextLeq));
  }

  lemma NothingPacked(order: seq<string>, w: seq<real>, totals: seq<real>, groups: seq<seq<string>>)
    requires |order| == |w| && |totals| == |groups| >= 1
    requires forall x :: 0 <= x < |totals| ==> totals[x] == 0.0 && groups[x] == []
    ensures PackedSoFar(order, w, 0, totals, groups)
  {}

  /** Python's `min` over the indices, by value and then index. */
  method IndexOfLeast(totals: seq<real>) returns (least: nat)
    requires totals != []
    ensures least < |totals|
    ensures forall y :: 0 <= y < |totals| ==> totals[least] <= totals[y]
    ensures forall y :: 0 <= y < least ==> totals[least] < totals[y]
  {
    least := 0;
    for i := 1 to |totals|
      invariant least < i
      invariant forall y :: 0 <= y < i ==> totals[least] <= totals[y]
      invariant forall y :: 0 <= y < least ==> totals[least] < totals[y]
    {
      if totals[i] < totals[least] {
        least := i;
      }
    }
  }

  // --- The weights and the order ---

  /** How many of the files were measured at this time. */
  ghost function MeasuredAt(files: seq<string>, durations: Durations, time: real): nat {
    |set i | 0 <= i < |files| && files[i] in durations && durations[files[i]] == time|
  }

  lemma OneMoreMeasured(files: seq<string>, durations: Durations, name: string, time: real)
    ensures MeasuredAt(files + [name], durations, time) ==
            MeasuredAt(files, durations, time) + if name in durations && durations[name] == time then 1 else 0
  {
    var all := files + [name];
    var before := set i | 0 <= i < |files| && files[i] in durations && durations[files[i]] == time;
    var after := set i | 0 <= i < |all| && all[i] in durations && durations[all[i]] == time;
    assert after == before + if name in durations && durations[name] == time then {|files|} else {};
  }

  lemma {:induction false} KnownCounts(files: seq<string>, durations: Durations, time: real)
    ensures multiset(Known(files, durations))[time] == MeasuredAt(files, durations, time)
  {
    hide MeasuredAt;
    if files == [] {
      NoneMeasured(durations, time);
    } else {
      var front, name := files[..|files| - 1], files[|files| - 1];
      assert files == front + [name];
      KnownCounts(front, durations, time);
      OneMoreMeasured(front, durations, name, time);
    }
  }

  lemma NoneMeasured(durations: Durations, time: real)
    ensures MeasuredAt([], durations, time) == 0
  {
    var files: seq<string> := [];
    assert (set i | 0 <= i < |files| && files[i] in durations && durations[files[i]] == time) == {};
  }

  /** `middle` is the middle of the listed times, which are in order. */
  ghost predicate IsMiddle(sorted: seq<real>, middle: real) {
    && sorted != [] && (forall i, j :: 0 <= i < j < |sorted| ==> sorted[i] <= sorted[j])
    && (|sorted| % 2 == 1 ==> middle == sorted[|sorted| / 2])
    && (|sorted| % 2 == 0 ==> 2.0 * middle == sorted[|sorted| / 2 - 1] + sorted[|sorted| / 2])
  }

  /** An unmeasured file weighs the median of the measured ones, or one second when none is measured. */
  lemma DefaultIsMedian(files: seq<string>, durations: Durations) returns (sorted: seq<real>)
    ensures forall time :: multiset(sorted)[time] == MeasuredAt(files, durations, time)
    ensures if sorted == [] then Default(files, durations) == 1.0 else IsMiddle(sorted, Default(files, durations))
  {
    hide MeasuredAt, SortBy, Known;
    var known := Known(files, durations);
    RealOrder();
    SortBySorts(known, RealLeq);
    sorted := SortBy(known, RealLeq);
    forall time {
      KnownCounts(files, durations, time);
    }
    assert forall i, j :: 0 <= i < j < |sorted| ==> RealLeq(sorted[i], sorted[j]);
  }

  /** Heavier files come first, and files of one weight by name. */
  lemma PackingOrderRead(files: seq<string>, durations: Durations, default: real)
    ensures var order := SortBy(files, PackingOrder(durations, default));
            && multiset(order) == multiset(files)
            && forall i, j :: 0 <= i < j < |order| ==>
                 var u := if order[i] in durations then durations[order[i]] else default;
                 var v := if order[j] in durations then durations[order[j]] else default;
                 u >= v && (u == v ==> TextBefore(order[i], order[j]))
  {
    hide SortBy, TextLeq, TextBefore;
    PackingOrderSorts(durations, default);
    SortBySorts(files, PackingOrder(durations, default));
    var order := SortBy(files, PackingOrder(durations, default));
    forall i, j | 0 <= i < j < |order|
      ensures PackingOrder(durations, default)(order[i], order[j])
      ensures TextLeq(order[i], order[j]) <==> TextBefore(order[i], order[j])
    {
      TextLeqRead(order[i], order[j]);
    }
  }

  // --- Every file lands in exactly one shard ---

  function Flatten(groups: seq<seq<string>>): multiset<string> {
    if groups == [] then multiset{} else Flatten(groups[..|groups| - 1]) + multiset(groups[|groups| - 1])
  }

  /** The multisets of files an assignment gives to the first `m` shards, together. */
  function Gathered(order: seq<string>, a: seq<nat>, m: nat): multiset<string>
    requires |order| == |a|
  {
    if m == 0 then multiset{} else Gathered(order, a, m - 1) + multiset(Members(order, a, m - 1))
  }

  lemma {:induction false} GatheredStep(order: seq<string>, a: seq<nat>, m: nat)
    requires |order| == |a| > 0
    ensures var last := |order| - 1;
            Gathered(order, a, m) ==
            Gathered(order[..last], a[..last], m) + if a[last] < m then multiset{order[last]} else multiset{}
  {
    hide Members;
    if m > 0 {
      GatheredStep(order, a, m - 1);
      MembersStep(order, a, m - 1);
    }
  }

  lemma {:induction false} GatheredAll(order: seq<string>, a: seq<nat>, m: nat)
    requires |order| == |a| && forall i :: 0 <= i < |a| ==> a[i] < m
    ensures Gathered(order, a, m) == multiset(order)
  {
    hide Gathered;
    if order == [] {
      GatheredNothing(m);
    } else {
      var last := |order| - 1;
      GatheredStep(order, a, m);
      GatheredAll(order[..last], a[..last], m);
      assert order == order[..last] + [order[last]];
    }
  }

  lemma {:induction false} GatheredNothing(m: nat)
    ensures Gathered([], [], m) == multiset{}
  {
    if m > 0 {
      GatheredNothing(m - 1);
    }
  }

  lemma PackingOrderSorts(durations: Durations, default: real)
    ensures Preorder(PackingOrder(durations, default))
  {
    TextOrder();
  }

  lemma {:induction false} FlattenSorted(groups: seq<seq<string>>, order: seq<string>, a: seq<nat>)
    requires |order| == |a|
    requires forall x :: 0 <= x < |groups| ==> groups[x] == SortBy(Members(order, a, x), TextLeq)
    ensures Flatten(groups) == Gathered(order, a, |groups|)
  {
    if groups != [] {
      var last := |groups| - 1;
      FlattenSorted(groups[..last], order, a);
      TextOrder();
      SortBySorts(Members(order, a, last), TextLeq);
    }
  }

  /** The shards together hold every file as often as the input does. */
  lemma PackedHoldsEveryFile(files: seq<string>, durations: Durations, count: nat)
    requires count >= 1
    ensures |Packed(files, durations, count)| == count && Flatten(Packed(files, durations, count)) == multiset(files)
    ensures forall x, i, j :: 0 <= x < count && 0 <= i < j < |Packed(files, durations, count)[x]| ==>
              TextBefore(Packed(files, durations, count)[x][i], Packed(files, durations, count)[x][j])
  {
    hide Greedy, Default, SortBy, Members, TextLeq, TextBefore;
    var default := Default(files, durations);
    var leq := PackingOrder(durations, default);
    var order := SortBy(files, leq);
    var a := Greedy(Weights(order, durations, default), count);
    PackingOrderSorts(durations, default);
    SortBySorts(files, leq);
    FlattenSorted(Packed(files, durations, count), order, a);
    assert forall i :: 0 <= i < |a| ==> a[i] in a;
    GatheredAll(order, a, count);
    TextOrder();
    forall x, i, j | 0 <= x < count && 0 <= i < j < |Packed(files, durations, count)[x]|
      ensures TextBefore(Packed(files, durations, count)[x][i], Packed(files, durations, count)[x][j])
    {
      var shard := Packed(files, durations, count)[x];
      SortBySorts(Members(order, a, x), TextLeq);
      assert TextLeq(shard[i], shard[j]);
      TextLeqRead(shard[i], shard[j]);
    }
  }

  // --- The heaviest shard ---

  function Time(group: seq<string>, durations: Durations, default: real): real {
    if group == [] then 0.0
    else Time(group[..|group| - 1], durations, default) + Weight(durations, default, group[|group| - 1])
  }

  lemma {:induction false} TimeSplits(a: seq<string>, b: seq<string>, durations: Durations, default: real)
    ensures Time(a + b, durations, default) == Time(a, durations, default) + Time(b, durations, default)
  {
    if b == [] {
      assert a + b == a;
    } else {
      var last := |b| - 1;
      TimeSplits(a, b[..last], durations, default);
      assert (a + b)[..|a + b| - 1] == a + b[..last];
    }
  }

  /** A group's time does not depend on the order of its files. */
  lemma {:induction false} TimeIgnoresOrder(a: seq<string>, b: seq<string>, durations: Durations, default: real)
    requires multiset(a) == multiset(b)
    ensures Time(a, durations, default) == Time(b, durations, default)
    decreases |a|
  {
    hide Time, Weight;
    SameMultisetSameElements(a, b);
    if a == [] {
      assert b == [];
    } else {
      var last := |a| - 1;
      assert a[last] in Elements(b);
      var i :| 0 <= i < |b| && b[i] == a[last];
      WithoutOne(a, last);
      WithoutOne(b, i);
      assert a[..last] + a[last + 1..] == a[..last];
      CancelOne(multiset(a[..last]), multiset(b[..i] + b[i + 1..]), a[last]);
      TimeIgnoresOrder(a[..last], b[..i] + b[i + 1..], durations, default);
      TimeWithoutOne(a, last, durations, default);
      TimeWithoutOne(b, i, durations, default);
    }
  }

  lemma TimeWithoutOne(a: seq<string>, i: nat, durations: Durations, default: real)
    requires i < |a|
    ensures Time(a, durations, default) ==
            Time(a[..i] + a[i + 1..], durations, default) + Weight(durations, default, a[i])
  {
    hide Weight;
    assert a == a[..i + 1] + a[i + 1..] && a[..i + 1][..i] == a[..i];
    TimeSplits(a[..i + 1], a[i + 1..], durations, default);
    TimeSplits(a[..i], a[i + 1..], durations, default);
  }

  lemma {:induction false} LoadIsTime(order: seq<string>, a: seq<nat>, x: nat, durations: Durations, default: real)
    requires |order| == |a|
    ensures Load(Weights(order, durations, default), a, x) == Time(Members(order, a, x), durations, default)
  {
    if order != [] {
      hide Weight;
      var last := |order| - 1;
      LoadIsTime(order[..last], a[..last], x, durations, default);
      assert Weights(order, durations, default)[..last] == Weights(order[..last], durations, default);
      var front := Members(order[..last], a[..last], x);
      assert (front + [order[last]])[..|front|] == front;
      assert front + [] == front;
    }
  }

  /** Any grouping of the files, in any order, is an assignment of the packing order. */
  lemma {:induction false} AssignmentOfGrouping(order: seq<string>, groups: seq<seq<string>>) returns (b: seq<nat>)
    requires Flatten(groups) == multiset(order)
    ensures |b| == |order| && forall i :: 0 <= i < |b| ==> b[i] < |groups|
    ensures forall x :: 0 <= x < |groups| ==> multiset(Members(order, b, x)) == multiset(groups[x])
    decreases |order|
  {
    hide Flatten, Members;
    if order == [] {
      b := [];
      forall x | 0 <= x < |groups| ensures multiset(Members(order, b, x)) == multiset(groups[x]) {
        InFlatten(groups, x);
        NoMembers(b, x);
      }
    } else {
      var last := |order| - 1;
      var name := order[last];
      assert order == order[..last] + [name];
      assert name in Flatten(groups);
      var g, i := FindInFlatten(groups, name);
      RemoveOne(groups, g, i);
      var fewer := groups[g := groups[g][..i] + groups[g][i + 1..]];
      CancelOne(Flatten(fewer), multiset(order[..last]), name);
      var front := AssignmentOfGrouping(order[..last], fewer);
      b := front + [g];
      assert b[..last] == front;
      forall x | 0 <= x < |groups| ensures multiset(Members(order, b, x)) == multiset(groups[x]) {
        MembersStep(order, b, x);
      }
    }
  }

  lemma NoMembers(b: seq<nat>, x: nat)
    requires b == []
    ensures Members([], b, x) == []
  {}

  lemma {:induction false} InFlatten(groups: seq<seq<string>>, x: nat)
    requires x < |groups|
    ensures multiset(groups[x]) <= Flatten(groups)
  {
    if x < |groups| - 1 {
      InFlatten(groups[..|groups| - 1], x);
    }
  }

  lemma {:induction false} FindInFlatten(groups: seq<seq<string>>, name: string) returns (g: nat, i: nat)
    requires name in Flatten(groups)
    ensures g < |groups| && i < |groups[g]| && groups[g][i] == name
  {
    var last := |groups| - 1;
    if name in groups[last] {
      g := last;
      i :| 0 <= i < |groups[last]| && groups[last][i] == name;
    } else {
      g, i := FindInFlatten(groups[..last], name);
    }
  }

  lemma {:induction false} RemoveOne(groups: seq<seq<string>>, g: nat, i: nat)
    requires g < |groups| && i < |groups[g]|
    ensures var fewer := groups[g := groups[g][..i] + groups[g][i + 1..]];
            && multiset(fewer[g]) + multiset{groups[g][i]} == multiset(groups[g])
            && Flatten(fewer) + multiset{groups[g][i]} == Flatten(groups)
  {
    var last := |groups| - 1;
    var fewer := groups[g := groups[g][..i] + groups[g][i + 1..]];
    WithoutOne(groups[g], i);
    if g < last {
      RemoveOne(groups[..last], g, i);
      assert fewer[..last] == groups[..last][g := fewer[g]];
    } else {
      assert fewer[..last] == groups[..last];
    }
  }

  ghost predicate NonNegativeTimes(durations: Durations) {
    forall name <- durations.Keys :: durations[name] >= 0.0
  }

  lemma {:induction false} KnownNonNegative(files: seq<string>, durations: Durations)
    requires NonNegativeTimes(durations)
    ensures forall t <- Known(files, durations) :: t >= 0.0
  {
    if files != [] {
      KnownNonNegative(files[..|files| - 1], durations);
    }
  }

  lemma DefaultNonNegative(files: seq<string>, durations: Durations)
    requires NonNegativeTimes(durations)
    ensures Default(files, durations) >= 0.0
  {
    var known := Known(files, durations);
    KnownNonNegative(files, durations);
    if known != [] {
      MedianNonNegative(known);
    }
  }

  lemma MedianNonNegative(values: seq<real>)
    requires values != [] && forall t <- values :: t >= 0.0
    ensures Median(values) >= 0.0
  {
    hide SortBy, Ascending, Preorder;
    var sorted := SortBy(values, RealLeq);
    RealOrder();
    SortBySorts(values, RealLeq);
    SameMultisetSameElements(sorted, values);
    forall i | 0 <= i < |sorted| ensures sorted[i] >= 0.0 {
      assert sorted[i] in Elements(values);
    }
  }

  lemma RealOrder()
    ensures TotalOrder(RealLeq)
  {}

  lemma PackedOrderDecreasing(files: seq<string>, durations: Durations, default: real)
    requires NonNegativeTimes(durations) && default >= 0.0
    ensures var w := Weights(SortBy(files, PackingOrder(durations, default)), durations, default);
            Decreasing(w) && NonNegative(w)
  {
    hide TextLeq;
    PackingOrderSorts(durations, default);
    SortBySorts(files, PackingOrder(durations, default));
  }

  /** For non-negative times, no shard takes more than 4/3 - 1/(3 count) times the longest of any other
      grouping of the same files into as many shards. */
  lemma PackedNearOptimal(files: seq<string>, durations: Durations, count: nat, other: seq<seq<string>>, longest: real,
                          x: nat)
    requires count >= 1 && NonNegativeTimes(durations) && x < count
    requires |other| == count && Flatten(other) == multiset(files)
    requires forall y :: 0 <= y < count ==> Time(other[y], durations, Default(files, durations)) <= longest
    ensures WithinGraham(count, Time(Packed(files, durations, count)[x], durations, Default(files, durations)), longest)
  {
    hide Greedy, Default, SortBy, Members, Weights, Time, WithinGraham, NonNegative, Decreasing, Flatten, Load;
    var default := Default(files, durations);
    var leq := PackingOrder(durations, default);
    var order := SortBy(files, leq);
    var w := Weights(order, durations, default);
    DefaultNonNegative(files, durations);
    PackedOrderDecreasing(files, durations, default);
    PackingOrderSorts(durations, default);
    SortBySorts(files, leq);
    var b := AssignmentOfGrouping(order, other);
    forall y | 0 <= y < count ensures Load(w, b, y) <= longest {
      LoadIsTime(order, b, y, durations, default);
      TimeIgnoresOrder(Members(order, b, y), other[y], durations, default);
    }
    GreedyNearOptimal(w, count, b, longest, x);
    LoadIsTime(order, Greedy(w, count), x, durations, default);
    TextOrder();
    SortBySorts(Members(order, Greedy(w, count), x), TextLeq);
    TimeIgnoresOrder(Packed(files, durations, count)[x], Members(order, Greedy(w, count), x), durations, default);
  }
}
