/** The moments of a run and their order by day. A moment is one opportunity of one person, classified by
    what the evidence says of it. Within one person moments are ordered by minute, millisecond and
    identifier; over the whole run the person comes before the identifier. The story groups them by day,
    and each day is shown in this order. */
module StoryMoments {
  import opened Orders

  datatype Status =
    | Answered | Reused | Practice | Unsure | Warning | Failed | RulesOnly | OverLimit | NotChosen | NotNoticed

  /** One classified opportunity. `hasTerminal` says whether the run asked the model about it, `sent`
      whether that request reached a provider. */
  datatype Moment = Moment(agentId: string, momentId: string, dayIndex: int, minute: int, millisecond: int,
                           noticed: bool, status: Status, hasTerminal: bool, sent: bool, changed: bool)
  {
    function Priority(): nat {
      if hasTerminal then 0 else if noticed then 1 else 2
    }
  }

  /** Order within one person: by minute, millisecond and identifier. */
  predicate TimeLeq(a: Moment, b: Moment) {
    if a.minute != b.minute then a.minute < b.minute
    else if a.millisecond != b.millisecond then a.millisecond < b.millisecond
    else TextLeq(a.momentId, b.momentId)
  }

  /** Order over the whole run: by minute, millisecond, person and identifier. */
  predicate GlobalLeq(a: Moment, b: Moment) {
    if a.minute != b.minute then a.minute < b.minute
    else if a.millisecond != b.millisecond then a.millisecond < b.millisecond
    else if a.agentId != b.agentId then TextLess(a.agentId, b.agentId)
    else TextLeq(a.momentId, b.momentId)
  }

  // --- The same, on the fields ---

  /** `a` comes no later than `b` in the person's time. */
  ghost predicate OwnPrecedes(a: Moment, b: Moment) {
    || a.minute < b.minute
    || (a.minute == b.minute && a.millisecond < b.millisecond)
    || (a.minute == b.minute && a.millisecond == b.millisecond && TextBefore(a.momentId, b.momentId))
  }

  /** `a` comes no later than `b` in the run. */
  ghost predicate Precedes(a: Moment, b: Moment) {
    || a.minute < b.minute
    || (a.minute == b.minute && a.millisecond < b.millisecond)
    || (a.minute == b.minute && a.millisecond == b.millisecond && a.agentId != b.agentId
        && TextBefore(a.agentId, b.agentId))
    || (a.minute == b.minute && a.millisecond == b.millisecond && a.agentId == b.agentId
        && TextBefore(a.momentId, b.momentId))
  }

  ghost predicate InOwnOrder(moments: seq<Moment>) {
    forall i, j :: 0 <= i < j < |moments| ==> OwnPrecedes(moments[i], moments[j])
  }

  ghost predicate InTimeOrder(moments: seq<Moment>) {
    forall i, j :: 0 <= i < j < |moments| ==> Precedes(moments[i], moments[j])
  }

  lemma TimeRead(a: Moment, b: Moment)
    ensures TimeLeq(a, b) <==> OwnPrecedes(a, b)
    ensures GlobalLeq(a, b) <==> Precedes(a, b)
  {
    hide TextLeq, TextBefore;
    TextLeqRead(a.momentId, b.momentId);
    TextLeqRead(a.agentId, b.agentId);
  }

  lemma OrderRead(moments: seq<Moment>)
    ensures Ascending(moments, TimeLeq) <==> InOwnOrder(moments)
    ensures Ascending(moments, GlobalLeq) <==> InTimeOrder(moments)
  {
    hide TimeLeq, GlobalLeq, OwnPrecedes, Precedes;
    forall a, b ensures (TimeLeq(a, b) <==> OwnPrecedes(a, b)) && (GlobalLeq(a, b) <==> Precedes(a, b)) {
      TimeRead(a, b);
    }
  }

  /** `a` deserves its place at least as much as `b`: what the model was asked about comes before what was noticed,
      and that before the rest. */
  ghost predicate NoLessTelling(a: Moment, b: Moment) {
    (b.hasTerminal ==> a.hasTerminal) && (b.noticed ==> a.noticed || a.hasTerminal)
  }

  lemma PriorityRead(a: Moment, b: Moment)
    ensures a.Priority() <= b.Priority() <==> NoLessTelling(a, b)
  {}

  predicate TextLess(x: string, y: string) {
    TextLeq(x, y) && x != y
  }

  function GlobalKey(m: Moment): (int, int, string, string) {
    (m.minute, m.millisecond, m.agentId, m.momentId)
  }

  lemma TimeOrder()
    ensures Preorder(TimeLeq)
  {
    TextOrder();
    hide TextLeq;
  }

  lemma GlobalOrder()
    ensures Preorder(GlobalLeq)
    ensures forall a, b :: GlobalLeq(a, b) && GlobalLeq(b, a) ==> GlobalKey(a) == GlobalKey(b)
  {
    TextOrder();
    hide TextLeq;
  }

  // --- Grouping by day ---

  function OnDay(moments: seq<Moment>, day: int): seq<Moment> {
    if moments == [] then []
    else OnDay(moments[..|moments| - 1], day) +
         if moments[|moments| - 1].dayIndex == day then [moments[|moments| - 1]] else []
  }

  function DaysOf(moments: seq<Moment>): set<int> {
    set m | m in moments :: m.dayIndex
  }

  /** The moments split by day, as a list of days; a day without moments is not listed. */
  ghost function ByDay(moments: seq<Moment>): (days: seq<seq<Moment>>)
    ensures |days| == |DaysOf(moments)|
  {
    IntOrder();
    var order := Sorted(DaysOf(moments), IntLeq);
    seq(|order|, i requires 0 <= i < |order| => SortBy(OnDay(moments, order[i]), GlobalLeq))
  }

  /** The dictionary of lists the moments are dropped into, one by one. */
  ghost predicate Bucketed(days: map<int, seq<Moment>>, moments: seq<Moment>) {
    days.Keys == DaysOf(moments) && forall d <- days.Keys :: days[d] == OnDay(moments, d)
  }

  lemma BucketStep(days: map<int, seq<Moment>>, moments: seq<Moment>, m: Moment)
    requires Bucketed(days, moments)
    ensures var d := m.dayIndex;
            Bucketed(days[d := (if d in days then days[d] else []) + [m]], moments + [m])
  {
    var more := moments + [m];
    assert more[..|more| - 1] == moments;
    assert DaysOf(more) == DaysOf(moments) + {m.dayIndex};
    if m.dayIndex !in days {
      NothingOnDay(moments, m.dayIndex);
    }
  }

  lemma {:induction false} NothingOnDay(moments: seq<Moment>, day: int)
    requires day !in DaysOf(moments)
    ensures OnDay(moments, day) == []
  {
    if moments != [] {
      var front, last := moments[..|moments| - 1], moments[|moments| - 1];
      assert last.dayIndex in DaysOf(moments);
      assert forall m <- front :: m.dayIndex in DaysOf(moments);
      NothingOnDay(front, day);
    }
  }

  method GroupByDay(moments: seq<Moment>) returns (days: seq<seq<Moment>>)
    ensures days == ByDay(moments)
  {
    hide OnDay, SortBy;
    var buckets: map<int, seq<Moment>> := map[];
    for k := 0 to |moments|
      invariant Bucketed(buckets, moments[..k])
    {
      var m := moments[k];
      BucketStep(buckets, moments[..k], m);
      assert moments[..k + 1] == moments[..k] + [m];
      buckets := buckets[m.dayIndex := (if m.dayIndex in buckets then buckets[m.dayIndex] else []) + [m]];
    }
    assert moments[..|moments|] == moments;
    IntOrder();
    var order := SortedSet(buckets.Keys, IntLeq);
    assert forall d <- order :: d in Elements(order);
    days := seq(|order|, i requires 0 <= i < |order| => SortBy(buckets[order[i]], GlobalLeq));
  }

  // --- Grouping loses nothing ---

  /** The first `n[j]` moments of each day, together. */
  function Prefixes(days: seq<seq<Moment>>, n: seq<nat>): multiset<Moment>
    requires |n| == |days| && forall j :: 0 <= j < |n| ==> n[j] <= |days[j]|
  {
    if days == [] then multiset{}
    else
      var last := |days| - 1;
      Prefixes(days[..last], n[..last]) + multiset(days[last][..n[last]])
  }

  function Lengths(days: seq<seq<Moment>>): seq<nat> {
    seq(|days|, j requires 0 <= j < |days| => |days[j]|)
  }

  /** The moments on the first `k` of some days, as a bag. */
  function OnDays(moments: seq<Moment>, order: seq<int>): multiset<Moment> {
    if order == [] then multiset{}
    else OnDays(moments, order[..|order| - 1]) + multiset(OnDay(moments, order[|order| - 1]))
  }

  lemma {:induction false} OnDaysStep(moments: seq<Moment>, order: seq<int>)
    requires moments != [] && Distinct(order)
    ensures var front, last := moments[..|moments| - 1], moments[|moments| - 1];
            OnDays(moments, order) ==
            OnDays(front, order) + if last.dayIndex in order then multiset{last} else multiset{}
  {
    if order != [] {
      var k := |order| - 1;
      assert order == order[..k] + [order[k]];
      OnDaysStep(moments, order[..k]);
    }
  }

  lemma {:induction false} OnDaysAll(moments: seq<Moment>, order: seq<int>)
    requires Distinct(order) && forall m <- moments :: m.dayIndex in order
    ensures OnDays(moments, order) == multiset(moments)
  {
    hide OnDays, Distinct;
    if moments == [] {
      OnDaysEmpty(order);
    } else {
      var front, last := moments[..|moments| - 1], moments[|moments| - 1];
      OnDaysStep(moments, order);
      OnDaysAll(front, order);
      assert moments == front + [last];
    }
  }

  lemma {:induction false} OnDaysEmpty(order: seq<int>)
    ensures OnDays([], order) == multiset{}
  {
    if order != [] {
      OnDaysEmpty(order[..|order| - 1]);
    }
  }

  lemma {:induction false} PrefixesOfSorted(moments: seq<Moment>, order: seq<int>, days: seq<seq<Moment>>)
    requires |days| == |order| && forall i :: 0 <= i < |order| ==>
               days[i] == SortBy(OnDay(moments, order[i]), GlobalLeq)
    ensures Prefixes(days, Lengths(days)) == OnDays(moments, order)
  {
    hide OnDay, SortBy;
    if order != [] {
      var k := |order| - 1;
      PrefixesOfSorted(moments, order[..k], days[..k]);
      GlobalOrder();
      SortBySorts(OnDay(moments, order[k]), GlobalLeq);
      assert Lengths(days)[..k] == Lengths(days[..k]);
      assert days[k][..|days[k]|] == days[k];
    }
  }

  /** The days together hold every moment as often as the run does. */
  lemma ByDayHoldsAll(moments: seq<Moment>)
    ensures Prefixes(ByDay(moments), Lengths(ByDay(moments))) == multiset(moments)
  {
    IntOrder();
    var order := Sorted(DaysOf(moments), IntLeq);
    forall m | m in moments ensures m.dayIndex in order {
      assert m.dayIndex in Elements(order);
    }
    OnDaysAll(moments, order);
    PrefixesOfSorted(moments, order, ByDay(moments));
  }

  lemma {:induction false} OnDayOnly(moments: seq<Moment>, day: int)
    ensures forall m :: m in OnDay(moments, day) <==> m in moments && m.dayIndex == day
  {
    if moments != [] {
      var front, last := moments[..|moments| - 1], moments[|moments| - 1];
      assert moments == front + [last];
      OnDayOnly(front, day);
    }
  }

  /** Each listed day is a whole day: in time order, non-empty, and exactly that day's moments. */
  lemma ByDayWhole(moments: seq<Moment>, j: nat) returns (day: int)
    requires j < |ByDay(moments)|
    ensures InTimeOrder(ByDay(moments)[j]) && ByDay(moments)[j] != []
    ensures multiset(ByDay(moments)[j]) == multiset(OnDay(moments, day))
    ensures forall m :: m in ByDay(moments)[j] <==> m in moments && m.dayIndex == day
  {
    hide OnDay, SortBy;
    IntOrder();
    var order := Sorted(DaysOf(moments), IntLeq);
    day := order[j];
    assert day in Elements(order);
    GlobalOrder();
    var own := OnDay(moments, day);
    SortBySorts(own, GlobalLeq);
    OrderRead(SortBy(own, GlobalLeq));
    OnDayOnly(moments, day);
    SameMultisetSameElements(ByDay(moments)[j], own);
    assert forall m :: m in ByDay(moments)[j] <==> m in Elements(own);
    var m :| m in moments && m.dayIndex == day;
    assert m in own;
  }

  /** An earlier group is an earlier day. */
  lemma ByDayInOrder(moments: seq<Moment>, i: nat, j: nat)
    requires i < j < |ByDay(moments)|
    ensures forall a, b :: a in ByDay(moments)[i] && b in ByDay(moments)[j] ==> a.dayIndex < b.dayIndex
  {
    hide OnDay, SortBy;
    IntOrder();
    var order := Sorted(DaysOf(moments), IntLeq);
    assert IntLeq(order[i], order[j]) && order[i] != order[j];
    GroupIsDay(moments, order[i], ByDay(moments)[i]);
    GroupIsDay(moments, order[j], ByDay(moments)[j]);
  }

  lemma GroupIsDay(moments: seq<Moment>, day: int, group: seq<Moment>)
    requires group == SortBy(OnDay(moments, day), GlobalLeq)
    ensures forall m :: m in group <==> m in moments && m.dayIndex == day
  {
    hide OnDay, SortBy;
    GlobalOrder();
    SortBySorts(OnDay(moments, day), GlobalLeq);
    SameMultisetSameElements(group, OnDay(moments, day));
    OnDayOnly(moments, day);
    assert forall m :: m in group <==> m in Elements(OnDay(moments, day));
  }
}
