/** The story's key moments: a budget for each day, then the first moment of each telling kind. */
module StoryKey {
  import opened Basics
  import opened Orders
  import opened Spacing
  import opened StoryMoments

  const KEY_PER_RUN := 60
  const RULES_KEY_PER_RUN := 20
  const KEY_PER_DAY_MINIMUM := 3
  const KEY_PER_DAY_FILL := 6

  datatype Mode = RulesMode | AiMode

  predicate IsAi(m: Moment) {
    m.status in {Answered, Reused, Practice, Unsure, Warning, Failed}
  }

  predicate IsChanged(m: Moment) { IsAi(m) && m.changed }

  predicate IsUnchanged(m: Moment) { IsAi(m) && !m.changed }

  predicate IsRulesOnly(m: Moment) { m.status in {OverLimit, NotChosen} }

  predicate IsNoticed(m: Moment) { m.noticed }

  function Filter(day: seq<Moment>, p: Moment -> bool): (kept: seq<Moment>)
    ensures |kept| <= |day|
    ensures forall m :: m in kept <==> m in day && p(m)
  {
    if day == [] then []
    else
      var last := |day| - 1;
      assert day == day[..last] + [day[last]];
      Filter(day[..last], p) + if p(day[last]) then [day[last]] else []
  }

  /** The run's budget shared over its days, rounded up, but never below the daily minimum. */
  function DayBudget(mode: Mode, days: nat): int
    requires days >= 1
  {
    var perRun := if mode == RulesMode then RULES_KEY_PER_RUN else KEY_PER_RUN;
    Larger(KEY_PER_DAY_MINIMUM, (perRun + days - 1) / days)
  }

  /** What a day shows: first what the model changed, then what it left as it was, and what only the rules
      decided while fewer than six are shown. */
  function DayKeyMoments(day: seq<Moment>, budget: int): seq<Moment> {
    var changed := Spaced(Filter(day, IsChanged), budget);
    var ai := changed + Spaced(Filter(day, IsUnchanged), budget - |changed|);
    var fill := Smaller(KEY_PER_DAY_FILL, |Filter(day, IsNoticed)|) - |ai|;
    ai + Spaced(Filter(day, IsRulesOnly), fill)
  }

  function DayPicks(day: seq<Moment>, mode: Mode, budget: int): seq<Moment> {
    if mode == RulesMode then Spaced(Filter(day, IsNoticed), budget) else DayKeyMoments(day, budget)
  }

  function Firsts(mode: Mode): seq<Status> {
    if mode == RulesMode then [NotNoticed] else [OverLimit, NotChosen, NotNoticed, Failed, Unsure, Warning]
  }

  // --- One day ---

  lemma SpacedFromDay(day: seq<Moment>, p: Moment -> bool, count: int)
    ensures forall m <- Spaced(Filter(day, p), count) :: m in day && p(m)
  {
    hide Spaced;
    var at := SpacedSelects(Filter(day, p), count);
  }

  /** Rules only decide moments that were noticed, and the model is only asked about those. */
  ghost predicate Consistent(moments: seq<Moment>) {
    forall m <- moments :: (IsAi(m) || IsRulesOnly(m)) ==> m.noticed
  }

  /** A day's picks come from the day and stay within its budget. Changed AI moments have the first claim
      on it, unchanged ones use only what is left, and a day with an AI or rules-only moment (in rules
      mode, with any noticed moment) is never left out. */
  lemma DayPicksBounded(day: seq<Moment>, mode: Mode, budget: int)
    requires budget >= KEY_PER_DAY_MINIMUM && Consistent(day)
    ensures forall m <- DayPicks(day, mode, budget) :: m in day && m.noticed
    ensures |DayPicks(day, mode, budget)| <= if mode == RulesMode then budget else Larger(budget, KEY_PER_DAY_FILL)
    ensures (exists m :: m in day && (IsAi(m) || IsRulesOnly(m) || (mode == RulesMode && m.noticed))) ==>
              DayPicks(day, mode, budget) != []
  {
    if mode == RulesMode {
      SpacedFromDay(day, IsNoticed, budget);
      if m :| m in day && m.noticed {
        assert m in Filter(day, IsNoticed);
      }
      assert forall m <- day :: (IsAi(m) || IsRulesOnly(m)) ==> m.noticed;
    } else {
      DayKeyMomentsBounded(day, budget);
    }
  }

  lemma DayKeyMomentsBounded(day: seq<Moment>, budget: int)
    requires budget >= KEY_PER_DAY_MINIMUM && Consistent(day)
    ensures forall m <- DayKeyMoments(day, budget) :: m in day && m.noticed
    ensures |DayKeyMoments(day, budget)| <= Larger(budget, KEY_PER_DAY_FILL)
    ensures (exists m :: m in day && (IsAi(m) || IsRulesOnly(m))) ==> DayKeyMoments(day, budget) != []
  {
    hide Spaced, Filter;
    var changed := Spaced(Filter(day, IsChanged), budget);
    var ai := changed + Spaced(Filter(day, IsUnchanged), budget - |changed|);
    var fill := Smaller(KEY_PER_DAY_FILL, |Filter(day, IsNoticed)|) - |ai|;
    SpacedFromDay(day, IsChanged, budget);
    SpacedFromDay(day, IsUnchanged, budget - |changed|);
    SpacedFromDay(day, IsRulesOnly, fill);
    if m :| m in day && (IsAi(m) || IsRulesOnly(m)) {
      assert m in Filter(day, IsNoticed);
      assert m in Filter(day, IsChanged) || m in Filter(day, IsUnchanged) || m in Filter(day, IsRulesOnly);
    }
  }

  lemma KeepsOnly(a: seq<Moment>, kept: seq<Moment>, b: seq<Moment>, p: Moment -> bool)
    requires (forall m <- a :: !p(m)) && (forall m <- kept :: p(m)) && (forall m <- b :: !p(m))
    ensures Filter(a + kept + b, p) == kept
  {
    hide Filter;
    FilterSplits(a + kept, b, p);
    FilterSplits(a, kept, p);
    FilterNone(a, p);
    FilterAll(kept, p);
    FilterNone(b, p);
  }

  /** Picks of the three kinds, put together, can be told apart again. */
  lemma KindsApart(changed: seq<Moment>, steady: seq<Moment>, rest: seq<Moment>)
    requires (forall m <- changed :: IsChanged(m)) && (forall m <- steady :: IsUnchanged(m))
             && (forall m <- rest :: IsRulesOnly(m))
    ensures Filter(changed + steady + rest, IsChanged) == changed
            && Filter(changed + steady + rest, IsUnchanged) == steady
  {
    hide Filter;
    KeepsOnly([], changed, steady + rest, IsChanged);
    KeepsOnly(changed, steady, rest, IsUnchanged);
    assert [] + changed + (steady + rest) == changed + steady + rest;
  }

  /** A day's picks, kind by kind. */
  lemma DayPicksByKind(day: seq<Moment>, budget: int)
    returns (changed: seq<Moment>, steady: seq<Moment>, rest: seq<Moment>)
    ensures DayKeyMoments(day, budget) == changed + steady + rest
    ensures (forall m <- changed :: IsChanged(m)) && (forall m <- steady :: IsUnchanged(m))
            && (forall m <- rest :: IsRulesOnly(m))
    ensures changed == Spaced(Filter(day, IsChanged), budget)
    ensures steady == Spaced(Filter(day, IsUnchanged), budget - |changed|)
  {
    hide Spaced, Filter, IsChanged, IsUnchanged, IsRulesOnly;
    changed := Spaced(Filter(day, IsChanged), budget);
    steady := Spaced(Filter(day, IsUnchanged), budget - |changed|);
    var fill := Smaller(KEY_PER_DAY_FILL, |Filter(day, IsNoticed)|) - |changed + steady|;
    rest := Spaced(Filter(day, IsRulesOnly), fill);
    SpacedFromDay(day, IsChanged, budget);
    SpacedFromDay(day, IsUnchanged, budget - |changed|);
    SpacedFromDay(day, IsRulesOnly, fill);
  }

  /** How many AI moments a day shows: as many changed ones as the budget allows, then as many unchanged
      ones as it still allows. */
  lemma ChangedComeFirst(day: seq<Moment>, budget: int)
    requires budget >= 0
    ensures var changed, steady := |Filter(day, IsChanged)|, |Filter(day, IsUnchanged)|;
            && |Filter(DayKeyMoments(day, budget), IsChanged)| == Smaller(budget, changed)
            && |Filter(DayKeyMoments(day, budget), IsUnchanged)| == Smaller(budget - Smaller(budget, changed), steady)
  {
    hide Spaced, Filter, DayKeyMoments, IsChanged, IsUnchanged, IsRulesOnly;
    var changed, steady, rest := DayPicksByKind(day, budget);
    KindsApart(changed, steady, rest);
  }

  /** Rules-only moments fill a day up to six moments, or to as many as were noticed, as far as there are any. */
  lemma RulesOnlyFill(day: seq<Moment>, budget: int)
    requires budget >= 0 && Consistent(day)
    ensures var shown, most := |DayKeyMoments(day, budget)|, Smaller(6, |Filter(day, IsNoticed)|);
            var ai := |Filter(DayKeyMoments(day, budget), IsAi)|;
            shown == Larger(ai, Smaller(most, ai + |Filter(day, IsRulesOnly)|))
  {
    hide Spaced, Filter, IsChanged, IsUnchanged, IsRulesOnly, IsAi;
    var changed := Spaced(Filter(day, IsChanged), budget);
    var ai := changed + Spaced(Filter(day, IsUnchanged), budget - |changed|);
    var fill := Smaller(KEY_PER_DAY_FILL, |Filter(day, IsNoticed)|) - |ai|;
    var rest := Spaced(Filter(day, IsRulesOnly), fill);
    SpacedFromDay(day, IsChanged, budget);
    SpacedFromDay(day, IsUnchanged, budget - |changed|);
    SpacedFromDay(day, IsRulesOnly, fill);
    KindsOfAi();
    KeepsOnly([], ai, rest, IsAi);
    assert [] + ai + rest == DayKeyMoments(day, budget);
  }

  lemma KindsOfAi()
    ensures forall m :: IsChanged(m) || IsUnchanged(m) ==> IsAi(m)
    ensures forall m :: IsRulesOnly(m) ==> !IsAi(m)
  {}

  /** The days' budgets together cover the run's, and one less for each would not, unless the daily minimum of
      three applies. */
  lemma DayBudgetShares(mode: Mode, days: nat)
    requires days >= 1
    ensures var budget, perRun := DayBudget(mode, days), if mode == RulesMode then 20 else 60;
            budget >= 3 && budget * days >= perRun && (budget > 3 ==> (budget - 1) * days < perRun)
  {
    var perRun := if mode == RulesMode then RULES_KEY_PER_RUN else KEY_PER_RUN;
    RoundedUp(perRun, days);
    Scale((perRun + days - 1) / days, DayBudget(mode, days), days);
  }

  lemma RoundedUp(total: nat, parts: nat)
    requires parts >= 1
    ensures var each := (total + parts - 1) / parts; each * parts >= total && (each - 1) * parts < total
  {}

  lemma {:induction false} FilterSplits(a: seq<Moment>, b: seq<Moment>, p: Moment -> bool)
    ensures Filter(a + b, p) == Filter(a, p) + Filter(b, p)
  {
    if b == [] {
      assert a + b == a;
    } else {
      var last := |b| - 1;
      assert (a + b)[..|a + b| - 1] == a + b[..last];
      FilterSplits(a, b[..last], p);
    }
  }

  lemma {:induction false} FilterAll(a: seq<Moment>, p: Moment -> bool)
    requires forall m <- a :: p(m)
    ensures Filter(a, p) == a
  {
    if a != [] {
      var front, last := a[..|a| - 1], a[|a| - 1];
      assert a == front + [last];
      assert p(last) && forall m <- front :: p(m);
      FilterAll(front, p);
    }
  }

  lemma {:induction false} FilterNone(a: seq<Moment>, p: Moment -> bool)
    requires forall m <- a :: !p(m)
    ensures Filter(a, p) == []
  {
    if a != [] {
      FilterNone(a[..|a| - 1], p);
    }
  }

  // --- Picking never repeats a moment ---

  lemma {:induction false} SelectionWithin(picked: seq<Moment>, items: seq<Moment>, at: seq<nat>)
    requires IsSelection(picked, items, at)
    ensures multiset(picked) <= multiset(items)
    decreases |items|
  {
    if picked != [] {
      var last, k := |picked| - 1, at[|at| - 1];
      assert picked == picked[..last] + [picked[last]];
      assert items == items[..k] + [items[k]] + items[k + 1..];
      assert IsSelection(picked[..last], items[..k], at[..last]);
      SelectionWithin(picked[..last], items[..k], at[..last]);
    }
  }

  lemma SpacedWithin(items: seq<Moment>, count: int)
    ensures multiset(Spaced(items, count)) <= multiset(items)
  {
    hide Spaced;
    var at := SpacedSelects(items, count);
    SelectionWithin(Spaced(items, count), items, at);
  }

  lemma {:induction false} FilterCount(day: seq<Moment>, p: Moment -> bool, m: Moment)
    ensures multiset(Filter(day, p))[m] == if p(m) then multiset(day)[m] else 0
  {
    if day != [] {
      var last := |day| - 1;
      assert day == day[..last] + [day[last]];
      assert multiset(day)[m] == multiset(day[..last])[m] + if day[last] == m then 1 else 0;
      FilterCount(day[..last], p, m);
    }
  }

  lemma FilterWithin(day: seq<Moment>, p: Moment -> bool)
    ensures multiset(Filter(day, p)) <= multiset(day)
  {
    hide Filter;
    forall m ensures multiset(Filter(day, p))[m] <= multiset(day)[m] {
      FilterCount(day, p, m);
    }
  }

  lemma DayKeyMomentsWithin(day: seq<Moment>, budget: int)
    ensures multiset(DayKeyMoments(day, budget)) <= multiset(day)
  {
    hide Spaced, Filter;
    var changed := Spaced(Filter(day, IsChanged), budget);
    var ai := changed + Spaced(Filter(day, IsUnchanged), budget - |changed|);
    var fill := Smaller(KEY_PER_DAY_FILL, |Filter(day, IsNoticed)|) - |ai|;
    SpacedWithin(Filter(day, IsChanged), budget);
    SpacedWithin(Filter(day, IsUnchanged), budget - |changed|);
    SpacedWithin(Filter(day, IsRulesOnly), fill);
    ThreeKindsWithin(day);
  }

  lemma DayPicksWithin(day: seq<Moment>, mode: Mode, budget: int)
    ensures multiset(DayPicks(day, mode, budget)) <= multiset(day)
  {
    hide Spaced, Filter, DayKeyMoments;
    if mode == RulesMode {
      SpacedWithin(Filter(day, IsNoticed), budget);
      FilterWithin(day, IsNoticed);
    } else {
      DayKeyMomentsWithin(day, budget);
    }
  }

  /** Changed AI, unchanged AI and rules-only moments are different moments. */
  lemma ThreeKindsWithin(day: seq<Moment>)
    ensures multiset(Filter(day, IsChanged)) + multiset(Filter(day, IsUnchanged))
            + multiset(Filter(day, IsRulesOnly)) <= multiset(day)
  {
    hide Filter;
    forall m
      ensures multiset(Filter(day, IsChanged))[m] + multiset(Filter(day, IsUnchanged))[m]
              + multiset(Filter(day, IsRulesOnly))[m] <=
                     multiset(day)[m] {
      FilterCount(day, IsChanged, m);
      FilterCount(day, IsUnchanged, m);
      FilterCount(day, IsRulesOnly, m);
    }
  }

  // --- The whole selection ---

  function PickDays(days: seq<seq<Moment>>, mode: Mode, budget: int): seq<Moment> {
    if days == [] then []
    else PickDays(days[..|days| - 1], mode, budget) + DayPicks(days[|days| - 1], mode, budget)
  }

  /** The first moment of a kind, if there is one. */
  function FirstOf(ordered: seq<Moment>, status: Status): (first: seq<Moment>)
    ensures |first| <= 1 && forall m <- first :: m in ordered && m.status == status
  {
    if ordered == [] then []
    else if ordered[0].status == status then [ordered[0]]
    else FirstOf(ordered[1..], status)
  }

  function KeysOf(moments: seq<Moment>): set<(int, int, string, string)> {
    set m | m in moments :: GlobalKey(m)
  }

  function WithFirst(ordered: seq<Moment>, selected: seq<Moment>, status: Status): seq<Moment> {
    var first := FirstOf(ordered, status);
    if first != [] && GlobalKey(first[0]) !in KeysOf(selected) then selected + first else selected
  }

  function WithFirsts(ordered: seq<Moment>, selected: seq<Moment>, statuses: seq<Status>): seq<Moment> {
    if statuses == [] then selected
    else WithFirst(ordered, WithFirsts(ordered, selected, statuses[..|statuses| - 1]), statuses[|statuses| - 1])
  }

  ghost function Chosen(kept: seq<Moment>, mode: Mode, days: nat): seq<Moment>
    requires days >= 1
  {
    var ordered := SortBy(kept, GlobalLeq);
    WithFirsts(ordered, PickDays(ByDay(ordered), mode, DayBudget(mode, days)), Firsts(mode))
  }

  method KeyMoments(kept: seq<Moment>, mode: Mode, days: nat) returns (selected: seq<Moment>)
    requires days >= 1
    ensures selected == SortBy(Chosen(kept, mode, days), GlobalLeq)
  {
    hide SortBy, ByDay, DayPicks, FirstOf;
    var ordered := SortBy(kept, GlobalLeq);
    selected := [];
    var budget := DayBudget(mode, days);
    var grouped := GroupByDay(ordered);
    for k := 0 to |grouped|
      invariant selected == PickDays(grouped[..k], mode, budget)
    {
      assert grouped[..k + 1][..k] == grouped[..k];
      selected := selected + DayPicks(grouped[k], mode, budget);
    }
    assert grouped[..|grouped|] == grouped;
    ghost var picked := selected;
    var chosen := KeysOf(selected);
    var statuses := Firsts(mode);
    for k := 0 to |statuses|
      invariant chosen == KeysOf(selected) && selected == WithFirsts(ordered, picked, statuses[..k])
    {
      assert statuses[..k + 1][..k] == statuses[..k];
      var first := FirstOf(ordered, statuses[k]);
      if first != [] && GlobalKey(first[0]) !in chosen {
        assert KeysOf(selected + first) == KeysOf(selected) + {GlobalKey(first[0])} by { assert first == [first[0]]; }
        chosen := chosen + {GlobalKey(first[0])};
        selected := selected + first;
      }
    }
    assert statuses[..|statuses|] == statuses;
    selected := SortBy(selected, GlobalLeq);
  }

  // --- What the selection guarantees ---

  ghost predicate DistinctKeys(moments: seq<Moment>) {
    forall i, j :: 0 <= i < j < |moments| ==> GlobalKey(moments[i]) != GlobalKey(moments[j])
  }

  ghost predicate IsTelling(m: Moment, mode: Mode) {
    IsAi(m) || IsRulesOnly(m) || (mode == RulesMode && m.noticed)
  }

  /** If the day has a telling moment, some moment of it is selected. */
  ghost predicate DayShown(day: seq<Moment>, selected: seq<Moment>, mode: Mode) {
    (exists m :: m in day && IsTelling(m, mode)) ==> exists m :: m in day && m in selected
  }

  ghost predicate Represents(selected: seq<Moment>, days: seq<seq<Moment>>, mode: Mode) {
    forall j :: 0 <= j < |days| ==> DayShown(days[j], selected, mode)
  }

  lemma DayStillShown(day: seq<Moment>, selected: seq<Moment>, more: seq<Moment>, mode: Mode)
    requires DayShown(day, selected, mode) && forall m <- selected :: m in more
    ensures DayShown(day, more, mode)
  {
    hide IsTelling;
  }

  function PerDay(mode: Mode, budget: int): int {
    if mode == RulesMode then budget else Larger(budget, KEY_PER_DAY_FILL)
  }

  lemma {:induction false} PickDaysWithin(days: seq<seq<Moment>>, mode: Mode, budget: int)
    ensures multiset(PickDays(days, mode, budget)) <= Prefixes(days, Lengths(days))
  {
    hide DayPicks;
    if days != [] {
      var last := |days| - 1;
      PickDaysWithin(days[..last], mode, budget);
      DayPicksWithin(days[last], mode, budget);
      assert Lengths(days)[..last] == Lengths(days[..last]);
      assert days[last][..|days[last]|] == days[last];
    }
  }

  lemma {:induction false} PickDaysSound(days: seq<seq<Moment>>, mode: Mode, budget: int)
    requires budget >= KEY_PER_DAY_MINIMUM && forall day <- days :: Consistent(day)
    ensures |PickDays(days, mode, budget)| <= |days| * PerDay(mode, budget)
    ensures Represents(PickDays(days, mode, budget), days, mode)
  {
    hide DayPicks, Consistent, DayShown, PerDay;
    if days != [] {
      var last := |days| - 1;
      var front := days[..last];
      assert forall day <- front :: day in days;
      PickDaysSound(front, mode, budget);
      OneDayShown(days[last], mode, budget);
      OneMoreTime(last, PerDay(mode, budget));
      forall j | 0 <= j < |days| ensures DayShown(days[j], PickDays(days, mode, budget), mode) {
        if j < last {
          DayStillShown(front[j], PickDays(front, mode, budget), PickDays(days, mode, budget), mode);
        } else {
          DayStillShown(days[j], DayPicks(days[j], mode, budget), PickDays(days, mode, budget), mode);
        }
      }
    }
  }

  lemma OneMoreTime(k: nat, n: int)
    ensures (k + 1) * n == k * n + n
  {}

  lemma OneDayShown(day: seq<Moment>, mode: Mode, budget: int)
    requires budget >= KEY_PER_DAY_MINIMUM && Consistent(day)
    ensures |DayPicks(day, mode, budget)| <= PerDay(mode, budget)
    ensures DayShown(day, DayPicks(day, mode, budget), mode)
  {
    hide DayPicks;
    DayPicksBounded(day, mode, budget);
    if DayPicks(day, mode, budget) != [] {
      assert DayPicks(day, mode, budget)[0] in DayPicks(day, mode, budget);
    }
  }

  lemma {:induction false} FirstsSound(ordered: seq<Moment>, selected: seq<Moment>, statuses: seq<Status>)
    requires multiset(selected) <= multiset(ordered)
    ensures multiset(WithFirsts(ordered, selected, statuses)) <= multiset(ordered)
    ensures |WithFirsts(ordered, selected, statuses)| <= |selected| + |statuses|
    ensures forall m <- selected :: m in WithFirsts(ordered, selected, statuses)
  {
    if statuses != [] {
      hide FirstOf;
      var before := WithFirsts(ordered, selected, statuses[..|statuses| - 1]);
      FirstsSound(ordered, selected, statuses[..|statuses| - 1]);
      var first := FirstOf(ordered, statuses[|statuses| - 1]);
      if first != [] && GlobalKey(first[0]) !in KeysOf(before) {
        var m := first[0];
        assert first == [m] && m in multiset(ordered);
        assert m in before ==> GlobalKey(m) in KeysOf(before);
        assert multiset(before + first) == multiset(before) + multiset{m};
        assert m !in multiset(before);
      }
    }
  }

  // --- The first of each telling kind ---

  /** No moment of the same status comes before it. */
  ghost predicate IsFirst(m: Moment, moments: seq<Moment>) {
    m in moments && forall o <- moments :: o.status == m.status ==> Precedes(m, o)
  }

  /** The kinds whose first moment is shown. */
  ghost predicate IsKind(status: Status, mode: Mode) {
    match status
    case NotNoticed => true
    case OverLimit => mode == AiMode
    case NotChosen => mode == AiMode
    case Failed => mode == AiMode
    case Unsure => mode == AiMode
    case Warning => mode == AiMode
    case Answered => false
    case Reused => false
    case Practice => false
    case RulesOnly => false
  }

  lemma KindsListed(status: Status, mode: Mode)
    ensures status in Firsts(mode) <==> IsKind(status, mode)
  {}

  lemma {:induction false} FirstOfIsFirst(ordered: seq<Moment>, status: Status)
    requires InTimeOrder(ordered)
    ensures var first := FirstOf(ordered, status);
            if first == [] then forall m <- ordered :: m.status != status
            else first[0].status == status && IsFirst(first[0], ordered)
  {
    if ordered != [] {
      hide Precedes;
      assert ordered == [ordered[0]] + ordered[1..];
      if ordered[0].status == status {
        PrecedesSelf(ordered[0]);
      } else {
        FirstOfIsFirst(ordered[1..], status);
      }
    }
  }

  lemma PrecedesSelf(m: Moment)
    ensures Precedes(m, m)
  {
    assert BeforeFrom(m.momentId, m.momentId, |m.momentId|);
  }

  /** The first of each kind is shown, or another moment of the same minute, millisecond, person and identifier. */
  ghost predicate FirstShown(ordered: seq<Moment>, selected: seq<Moment>, status: Status) {
    (exists m :: m in ordered && m.status == status) ==>
      exists f: Moment :: f.status == status && IsFirst(f, ordered) && HasKey(selected, GlobalKey(f))
  }

  ghost predicate HasKey(moments: seq<Moment>, key: (int, int, string, string)) {
    exists m :: m in moments && (m.minute, m.millisecond, m.agentId, m.momentId) == key
  }

  lemma WithFirstShown(ordered: seq<Moment>, selected: seq<Moment>, status: Status)
    requires InTimeOrder(ordered)
    ensures FirstShown(ordered, WithFirst(ordered, selected, status), status)
  {
    hide IsFirst, InTimeOrder;
    FirstOfIsFirst(ordered, status);
    var first := FirstOf(ordered, status);
    if first != [] {
      var after := WithFirst(ordered, selected, status);
      assert first[0] in selected + first;
      assert HasKey(after, GlobalKey(first[0]));
    }
  }

  lemma StillShown(ordered: seq<Moment>, selected: seq<Moment>, more: seq<Moment>, status: Status)
    requires FirstShown(ordered, selected, status) && forall m <- selected :: m in more
    ensures FirstShown(ordered, more, status)
  {
    hide IsFirst;
  }

  lemma {:induction false} FirstsShown(ordered: seq<Moment>, selected: seq<Moment>, statuses: seq<Status>)
    requires InTimeOrder(ordered)
    ensures forall status <- statuses :: FirstShown(ordered, WithFirsts(ordered, selected, statuses), status)
    ensures forall m <- WithFirsts(ordered, selected, statuses) ::
              m in selected || (m.status in statuses && IsFirst(m, ordered))
  {
    hide FirstShown, IsFirst, InTimeOrder;
    if statuses != [] {
      var front, last := statuses[..|statuses| - 1], statuses[|statuses| - 1];
      assert statuses == front + [last];
      FirstsShown(ordered, selected, front);
      var before, after := WithFirsts(ordered, selected, front), WithFirsts(ordered, selected, statuses);
      WithFirstShown(ordered, before, last);
      FirstOfIsFirst(ordered, last);
      forall status | status in front ensures FirstShown(ordered, after, status) {
        StillShown(ordered, before, after, status);
      }
    }
  }

  /** Every key moment is a pick of its day or the first of its kind among the kept moments, and no kind that has
      a moment goes without its first. */
  lemma KeyMomentsFirsts(kept: seq<Moment>, mode: Mode, days: nat)
    requires days >= 1
    ensures var ordered := SortBy(kept, GlobalLeq);
            && (forall status :: IsKind(status, mode) ==> FirstShown(kept, Chosen(kept, mode, days), status))
            && (forall m <- Chosen(kept, mode, days) ::
                  m in PickDays(ByDay(ordered), mode, DayBudget(mode, days))
                  || (IsKind(m.status, mode) && IsFirst(m, kept)))
  {
    hide SortBy, ByDay, PickDays, WithFirsts, IsFirst, FirstShown, InTimeOrder, Firsts, IsKind;
    GlobalOrder();
    SortBySorts(kept, GlobalLeq);
    OrderRead(SortBy(kept, GlobalLeq));
    var ordered := SortBy(kept, GlobalLeq);
    FirstsShown(ordered, PickDays(ByDay(ordered), mode, DayBudget(mode, days)), Firsts(mode));
    SameMultisetSameElements(ordered, kept);
    FirstIgnoresOrder(ordered, kept, Chosen(kept, mode, days));
    forall status ensures status in Firsts(mode) <==> IsKind(status, mode) {
      KindsListed(status, mode);
    }
  }

  lemma FirstIgnoresOrder(ordered: seq<Moment>, kept: seq<Moment>, selected: seq<Moment>)
    requires Elements(ordered) == Elements(kept)
    ensures forall m :: IsFirst(m, ordered) <==> IsFirst(m, kept)
    ensures forall status :: FirstShown(ordered, selected, status) <==> FirstShown(kept, selected, status)
  {
    hide Precedes, HasKey;
    assert forall m :: m in ordered <==> m in Elements(ordered);
    assert forall m :: m in kept <==> m in Elements(kept);
  }

  /** The key moments are among the kept ones, none of them twice; they fit the daily budgets and the
      number of telling kinds; and every day with a telling moment is represented. */
  lemma KeyMomentsSound(kept: seq<Moment>, mode: Mode, days: nat)
    requires days >= 1 && Consistent(kept)
    ensures var budget := DayBudget(mode, days);
            && multiset(Chosen(kept, mode, days)) <= multiset(kept)
            && |Chosen(kept, mode, days)| <= |DaysOf(kept)| * PerDay(mode, budget) + |Firsts(mode)|
            && Represents(Chosen(kept, mode, days), ByDay(SortBy(kept, GlobalLeq)), mode)
  {
    hide SortBy, ByDay, PickDays, WithFirsts, Prefixes, Consistent, DayShown;
    var ordered, budget := SortBy(kept, GlobalLeq), DayBudget(mode, days);
    GlobalOrder();
    SortBySorts(kept, GlobalLeq);
    SameMultisetSameElements(ordered, kept);
    DaysIgnoreOrder(kept, ordered);
    forall day <- ByDay(ordered) ensures Consistent(day) {
      var j :| 0 <= j < |ByDay(ordered)| && ByDay(ordered)[j] == day;
      var d := ByDayWhole(ordered, j);
      ConsistentPart(kept, ordered, day);
    }
    PickDaysSound(ByDay(ordered), mode, budget);
    PickDaysWithin(ByDay(ordered), mode, budget);
    ByDayHoldsAll(ordered);
    FirstsSound(ordered, PickDays(ByDay(ordered), mode, budget), Firsts(mode));
    forall j | 0 <= j < |ByDay(ordered)| ensures DayShown(ByDay(ordered)[j], Chosen(kept, mode, days), mode) {
      DayStillShown(ByDay(ordered)[j], PickDays(ByDay(ordered), mode, budget), Chosen(kept, mode, days), mode);
    }
  }

  /** A run of `days` days has moments on at most as many. */
  lemma {:induction false} DaysInRange(moments: set<int>, days: nat)
    requires forall d <- moments :: 0 <= d < days
    ensures |moments| <= days
  {
    if days > 0 {
      DaysInRange(moments - {days - 1}, days - 1);
    } else {
      assert forall d :: d !in moments;
      assert moments == {};
    }
  }

  /** For a run whose moments fall on its days, the number of key moments. */
  lemma KeyMomentsFew(kept: seq<Moment>, mode: Mode, days: nat)
    requires days >= 1 && Consistent(kept) && forall m <- kept :: 0 <= m.dayIndex < days
    ensures |Chosen(kept, mode, days)| <= days * PerDay(mode, DayBudget(mode, days)) + |Firsts(mode)|
  {
    hide Chosen, PerDay, Represents;
    KeyMomentsSound(kept, mode, days);
    DaysInRange(DaysOf(kept), days);
    PerDayPositive(mode, days);
    Scale(|DaysOf(kept)|, days, PerDay(mode, DayBudget(mode, days)));
  }

  lemma PerDayPositive(mode: Mode, days: nat)
    requires days >= 1
    ensures PerDay(mode, DayBudget(mode, days)) >= 0
  {}

  lemma Scale(a: nat, b: nat, n: int)
    requires a <= b && n >= 0
    ensures a * n <= b * n
  {}

  lemma DaysIgnoreOrder(kept: seq<Moment>, ordered: seq<Moment>)
    requires Elements(kept) == Elements(ordered)
    ensures DaysOf(ordered) == DaysOf(kept)
  {
    assert forall m :: m in kept <==> m in Elements(kept);
    assert forall m :: m in ordered <==> m in Elements(ordered);
  }

  lemma ConsistentPart(kept: seq<Moment>, ordered: seq<Moment>, day: seq<Moment>)
    requires Consistent(kept) && Elements(kept) == Elements(ordered) && forall m <- day :: m in ordered
    ensures Consistent(day)
  {
    assert forall m <- day :: m in Elements(ordered);
  }

  /** When no two kept moments share a key, the key moments come out in strict time order. */
  lemma KeyMomentsStrictlyOrdered(kept: seq<Moment>, mode: Mode, days: nat)
    requires days >= 1 && Consistent(kept) && DistinctKeys(kept)
    ensures var selected := SortBy(Chosen(kept, mode, days), GlobalLeq);
            && InTimeOrder(selected) && DistinctKeys(selected)
  {
    hide SortBy, Chosen, DistinctKeys, InTimeOrder;
    var chosen := Chosen(kept, mode, days);
    KeyMomentsSound(kept, mode, days);
    GlobalOrder();
    SortBySorts(chosen, GlobalLeq);
    OrderRead(SortBy(chosen, GlobalLeq));
    SubBagDistinctKeys(SortBy(chosen, GlobalLeq), kept);
  }

  lemma SubBagDistinctKeys(part: seq<Moment>, whole: seq<Moment>)
    requires multiset(part) <= multiset(whole) && DistinctKeys(whole)
    ensures DistinctKeys(part)
  {
    forall i, j | 0 <= i < j < |part| ensures GlobalKey(part[i]) != GlobalKey(part[j]) {
      assert part == part[..j] + [part[j]] + part[j + 1..];
      assert part[i] in part[..j];
      if part[i] == part[j] {
        assert multiset(part)[part[i]] >= 2;
        TwiceMeansEqualKeys(whole, part[i]);
      } else {
        assert part[i] in multiset(part) && part[j] in multiset(part);
        assert part[i] in multiset(whole) && part[j] in multiset(whole);
      }
    }
  }

  lemma TwiceMeansEqualKeys(whole: seq<Moment>, m: Moment)
    requires DistinctKeys(whole)
    ensures multiset(whole)[m] <= 1
  {
    if m in whole {
      var i :| 0 <= i < |whole| && whole[i] == m;
      assert whole == whole[..i] + [m] + whole[i + 1..];
      assert m !in whole[..i] && m !in whole[i + 1..];
    }
  }
}
