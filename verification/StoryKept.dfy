/** Which of a person's moments the story keeps: at most forty, by priority, days taking turns. */
module StoryKept {
  import opened Orders
  import opened StoryMoments

  const MAX_KEPT := 40

  function OfPriority(moments: seq<Moment>, priority: nat): seq<Moment> {
    if moments == [] then []
    else OfPriority(moments[..|moments| - 1], priority) +
         if moments[|moments| - 1].Priority() == priority then [moments[|moments| - 1]] else []
  }

  /** How many of each day are kept: never more than there are. */
  ghost predicate Takes(days: seq<seq<Moment>>, n: seq<nat>) {
    |n| == |days| && forall j :: 0 <= j < |n| ==> n[j] <= |days[j]|
  }

  /** A day that has more to give is at most one behind any other day. */
  ghost predicate Fair(days: seq<seq<Moment>>, n: seq<nat>) {
    Takes(days, n) && forall i, j :: 0 <= i < |n| && 0 <= j < |n| && n[i] < |days[i]| ==> n[j] <= n[i] + 1
  }

  /** What is kept of one priority: a prefix of each day, fairly, and everything unless forty are kept. */
  ghost predicate KeptOf(days: seq<seq<Moment>>, n: seq<nat>, full: bool) {
    Fair(days, n) && (!full ==> n == Lengths(days))
  }

  lemma OneLonger(day: seq<Moment>, k: nat)
    requires k < |day|
    ensures multiset(day[..k + 1]) == multiset(day[..k]) + multiset{day[k]}
  {
    assert day[..k + 1] == day[..k] + [day[k]];
  }

  /** One more moment of day `d`. */
  lemma {:induction false} TakeOne(days: seq<seq<Moment>>, n: seq<nat>, d: nat)
    requires Takes(days, n) && d < |n| && n[d] < |days[d]|
    ensures Takes(days, n[d := n[d] + 1])
    ensures Prefixes(days, n[d := n[d] + 1]) == Prefixes(days, n) + multiset{days[d][n[d]]}
  {
    var last := |days| - 1;
    var more := n[d := n[d] + 1];
    if d < last {
      TakeOne(days[..last], n[..last], d);
      assert more[..last] == n[..last][d := n[d] + 1];
    } else {
      assert more[..last] == n[..last];
      OneLonger(days[d], n[d]);
    }
  }

  // --- One priority, turn by turn ---

  /** Before day `d`'s turn in round `turn`: earlier days have given `turn + 1` moments, as far as they have
      them and there was room; the others `turn`. */
  ghost predicate InRound(days: seq<seq<Moment>>, n: seq<nat>, turn: nat, d: nat, full: bool) {
    && Takes(days, n)
    && (forall j :: 0 <= j < |n| ==> n[j] >= turn || n[j] == |days[j]|)
    && (forall j :: 0 <= j < |n| ==> n[j] <= turn + if j < d then 1 else 0)
    && (!full ==> forall j :: 0 <= j < d && j < |n| ==> n[j] >= turn + 1 || n[j] == |days[j]|)
  }

  lemma InRoundIsFair(days: seq<seq<Moment>>, n: seq<nat>, turn: nat, d: nat, full: bool)
    requires InRound(days, n, turn, d, full)
    ensures Fair(days, n)
  {}

  lemma RoundStep(days: seq<seq<Moment>>, n: seq<nat>, turn: nat, d: nat, full: bool, after: bool)
    requires InRound(days, n, turn, d, full) && d < |days|
    ensures turn < |days[d]| ==> n[d] == turn
    ensures turn < |days[d]| && !full ==> InRound(days, n[d := turn + 1], turn, d + 1, after)
    ensures !(turn < |days[d]| && !full) ==> InRound(days, n, turn, d + 1, full)
  {}

  /** One round: each day in order gives its next moment, if it has one and there is room. */
  method TakeRound(days: seq<seq<Moment>>, turn: nat, before: seq<Moment>, ghost taken: seq<nat>,
                   ghost base: multiset<Moment>)
    returns (kept: seq<Moment>, ghost n: seq<nat>)
    requires |before| < MAX_KEPT && InRound(days, taken, turn, 0, false)
    requires multiset(before) == base + Prefixes(days, taken)
    ensures |before| <= |kept| <= MAX_KEPT
    ensures InRound(days, n, turn, |days|, |kept| == MAX_KEPT)
    ensures multiset(kept) == base + Prefixes(days, n)
  {
    hide Prefixes, InRound;
    assert Takes(days, taken) by { InRoundTakes(days, taken, turn, 0, false); }
    kept, n := before, taken;
    for d := 0 to |days|
      invariant |before| <= |kept| <= MAX_KEPT
      invariant InRound(days, n, turn, d, |kept| == MAX_KEPT) && Takes(days, n)
      invariant multiset(kept) == base + Prefixes(days, n)
    {
      RoundStep(days, n, turn, d, |kept| == MAX_KEPT, |kept| + 1 == MAX_KEPT);
      if turn < |days[d]| && |kept| < MAX_KEPT {
        TakeOne(days, n, d);
        kept := kept + [days[d][turn]];
        n := n[d := turn + 1];
      }
    }
  }

  lemma InRoundTakes(days: seq<seq<Moment>>, n: seq<nat>, turn: nat, d: nat, full: bool)
    requires InRound(days, n, turn, d, full)
    ensures Takes(days, n)
  {}

  lemma RoundEnds(days: seq<seq<Moment>>, n: seq<nat>, turn: nat)
    requires InRound(days, n, turn, |days|, false)
    ensures InRound(days, n, turn + 1, 0, false)
  {}

  lemma AllTaken(days: seq<seq<Moment>>, n: seq<nat>, turn: nat)
    requires InRound(days, n, turn, 0, false) && forall day <- days :: turn >= |day|
    ensures n == Lengths(days)
  {
    assert forall j :: 0 <= j < |days| ==> days[j] in days;
  }

  method TakeTurns(days: seq<seq<Moment>>, before: seq<Moment>) returns (kept: seq<Moment>, ghost n: seq<nat>)
    requires |before| <= MAX_KEPT
    ensures |before| <= |kept| <= MAX_KEPT
    ensures KeptOf(days, n, |kept| == MAX_KEPT)
    ensures multiset(kept) == multiset(before) + Prefixes(days, n)
  {
    kept := before;
    n := seq(|days|, _ => 0);
    NothingTaken(days);
    assert InRound(days, n, 0, 0, false);
    var turn := 0;
    var longest := Longest(days);
    hide InRound, Prefixes;
    while |kept| < MAX_KEPT && exists day <- days :: turn < |day|
      invariant |before| <= |kept| <= MAX_KEPT
      invariant Fair(days, n) && (|kept| < MAX_KEPT ==> InRound(days, n, turn, 0, false))
      invariant multiset(kept) == multiset(before) + Prefixes(days, n)
      decreases longest - turn
    {
      kept, n := TakeRound(days, turn, kept, n, multiset(before));
      InRoundIsFair(days, n, turn, |days|, |kept| == MAX_KEPT);
      if |kept| < MAX_KEPT {
        RoundEnds(days, n, turn);
      }
      turn := turn + 1;
    }
    if |kept| < MAX_KEPT {
      AllTaken(days, n, turn);
    }
  }

  function Longest(days: seq<seq<Moment>>): (longest: nat)
    ensures forall day <- days :: |day| <= longest
  {
    if days == [] then 0
    else
      var front, last := Longest(days[..|days| - 1]), days[|days| - 1];
      assert days == days[..|days| - 1] + [last];
      if |last| > front then |last| else front
  }

  lemma {:induction false} NothingTaken(days: seq<seq<Moment>>)
    ensures Prefixes(days, seq(|days|, _ => 0)) == multiset{}
  {
    if days != [] {
      var last := |days| - 1;
      NothingTaken(days[..last]);
      var none: seq<nat> := seq(|days|, _ => 0);
      assert none[..last] == seq(last, _ => 0);
    }
  }

  // --- All three priorities ---

  ghost function Days(moments: seq<Moment>, priority: nat): seq<seq<Moment>> {
    ByDay(OfPriority(moments, priority))
  }

  /** What is taken of the first `p` priorities. */
  ghost function Taken(moments: seq<Moment>, n: seq<seq<nat>>, p: nat): multiset<Moment>
    requires p <= |n| && forall q :: 0 <= q < p ==> Takes(Days(moments, q), n[q])
  {
    if p == 0 then multiset{}
    else
      assert Takes(Days(moments, p - 1), n[p - 1]);
      Taken(moments, n, p - 1) + Prefixes(Days(moments, p - 1), n[p - 1])
  }

  /** The first `p` priorities have been dealt with: of each, a prefix of every day is kept, fairly, and a
      priority gives up a moment only if the better ones filled the story. */
  ghost predicate KeptSoFar(moments: seq<Moment>, kept: seq<Moment>, n: seq<seq<nat>>, p: nat) {
    && |n| == p && |kept| <= MAX_KEPT
    && (forall q :: 0 <= q < p ==> Fair(Days(moments, q), n[q]))
    && multiset(kept) == Taken(moments, n, p)
    && (forall q :: 0 <= q < p && n[q] != Lengths(Days(moments, q)) ==>
          |kept| == MAX_KEPT && forall later :: q < later < p ==>
            Prefixes(Days(moments, later), n[later]) == multiset{})
  }

  lemma PriorityStep(moments: seq<Moment>, before: seq<Moment>, ns: seq<seq<nat>>, p: nat, kept: seq<Moment>,
                     n: seq<nat>)
    requires KeptSoFar(moments, before, ns, p) && |before| <= |kept| <= MAX_KEPT
    requires KeptOf(Days(moments, p), n, |kept| == MAX_KEPT)
    requires multiset(kept) == multiset(before) + Prefixes(Days(moments, p), n)
    ensures KeptSoFar(moments, kept, ns + [n], p + 1)
  {
    hide Days, Prefixes, Fair;
    var more := ns + [n];
    assert Takes(Days(moments, p), n) by { FairTakes(Days(moments, p), n); }
    forall q | 0 <= q < p ensures Takes(Days(moments, q), ns[q]) {
      FairTakes(Days(moments, q), ns[q]);
    }
    TakenStable(moments, ns, more, p);
    assert |Prefixes(Days(moments, p), n)| == |kept| - |before| by {
      assert |multiset(kept)| == |multiset(before)| + |Prefixes(Days(moments, p), n)|;
    }
  }

  lemma FairTakes(days: seq<seq<Moment>>, n: seq<nat>)
    requires Fair(days, n)
    ensures Takes(days, n)
  {}

  lemma {:induction false} TakenStable(moments: seq<Moment>, n: seq<seq<nat>>, more: seq<seq<nat>>, p: nat)
    requires p <= |n| <= |more| && forall q :: 0 <= q < p ==> more[q] == n[q] && Takes(Days(moments, q), n[q])
    ensures Taken(moments, more, p) == Taken(moments, n, p)
  {
    hide Days, Prefixes, Takes;
    if p > 0 {
      TakenStable(moments, n, more, p - 1);
      assert more[p - 1] == n[p - 1];
    }
  }

  /** The moments a person's story keeps, in time order. */
  method KeptMoments(moments: seq<Moment>) returns (kept: seq<Moment>, ghost n: seq<seq<nat>>)
    ensures KeptSoFar(moments, kept, n, 3)
    ensures InOwnOrder(kept)
  {
    hide KeptSoFar, KeptOf, Prefixes, ByDay, Taken, Ascending, InOwnOrder, TimeLeq;
    kept, n := [], [];
    NothingKept(moments);
    for priority := 0 to 3
      invariant |kept| <= MAX_KEPT && KeptSoFar(moments, kept, n, priority)
    {
      var days := GroupByDay(OfPriority(moments, priority));
      var before := kept;
      ghost var taken;
      kept, taken := TakeTurns(days, before);
      PriorityStep(moments, before, n, priority, kept, taken);
      n := n + [taken];
    }
    TimeOrder();
    SortBySorts(kept, TimeLeq);
    OrderRead(SortBy(kept, TimeLeq));
    SortedStillKept(moments, kept, n, SortBy(kept, TimeLeq));
    kept := SortBy(kept, TimeLeq);
  }

  lemma NothingKept(moments: seq<Moment>)
    ensures KeptSoFar(moments, [], [], 0)
  {}

  lemma SortedStillKept(moments: seq<Moment>, kept: seq<Moment>, n: seq<seq<nat>>, sorted: seq<Moment>)
    requires KeptSoFar(moments, kept, n, 3) && multiset(sorted) == multiset(kept) && |sorted| == |kept|
    ensures KeptSoFar(moments, sorted, n, 3)
  {}

  // --- What that means ---

  ghost function Whole(moments: seq<Moment>, priority: nat): multiset<Moment> {
    Prefixes(Days(moments, priority), Lengths(Days(moments, priority)))
  }

  lemma NoneOfPriority()
    ensures OfPriority([], 0) == OfPriority([], 1) == OfPriority([], 2) == []
  {}

  lemma {:induction false} PrioritiesCount(moments: seq<Moment>, m: Moment)
    ensures multiset(OfPriority(moments, 0))[m] + multiset(OfPriority(moments, 1))[m]
            + multiset(OfPriority(moments, 2))[m] ==
            multiset(moments)[m]
  {
    hide OfPriority;
    if moments == [] {
      NoneOfPriority();
    } else {
      var front, last := moments[..|moments| - 1], moments[|moments| - 1];
      PrioritiesCount(front, m);
      assert moments == front + [last];
      assert multiset(moments)[m] == multiset(front)[m] + if last == m then 1 else 0;
      CountStep(moments, 0, m);
      CountStep(moments, 1, m);
      CountStep(moments, 2, m);
    }
  }

  lemma PrioritiesPartition(moments: seq<Moment>)
    ensures multiset(OfPriority(moments, 0)) + multiset(OfPriority(moments, 1))
            + multiset(OfPriority(moments, 2)) == multiset(moments)
  {
    hide OfPriority;
    forall m {
      PrioritiesCount(moments, m);
    }
  }

  lemma CountStep(moments: seq<Moment>, priority: nat, m: Moment)
    requires moments != []
    ensures var front, last := moments[..|moments| - 1], moments[|moments| - 1];
            multiset(OfPriority(moments, priority))[m] ==
            multiset(OfPriority(front, priority))[m] + if last.Priority() == priority && last == m then 1 else 0
  {}

  lemma {:induction false} OfPriorityOnly(moments: seq<Moment>, priority: nat)
    ensures forall m <- OfPriority(moments, priority) :: m.Priority() == priority
  {
    if moments != [] {
      OfPriorityOnly(moments[..|moments| - 1], priority);
    }
  }

  lemma WholePriority(moments: seq<Moment>, priority: nat)
    ensures Whole(moments, priority) == multiset(OfPriority(moments, priority))
    ensures forall m :: m in Whole(moments, priority) ==> m.Priority() == priority
  {
    hide ByDay, Prefixes;
    ByDayHoldsAll(OfPriority(moments, priority));
    OfPriorityOnly(moments, priority);
  }

  lemma {:induction false} PrefixesWithin(days: seq<seq<Moment>>, n: seq<nat>)
    requires Takes(days, n)
    ensures Prefixes(days, n) <= Prefixes(days, Lengths(days))
  {
    if days != [] {
      var last := |days| - 1;
      PrefixesWithin(days[..last], n[..last]);
      assert Lengths(days)[..last] == Lengths(days[..last]);
      assert days[last] == days[last][..n[last]] + days[last][n[last]..];
      assert days[last][..|days[last]|] == days[last];
    }
  }

  /** The part of what is kept that has this priority. */
  ghost function Part(moments: seq<Moment>, n: seq<seq<nat>>, priority: nat): multiset<Moment>
    requires priority < |n| && Fair(Days(moments, priority), n[priority])
  {
    Prefixes(Days(moments, priority), n[priority])
  }

  lemma PartWithin(moments: seq<Moment>, n: seq<seq<nat>>, priority: nat)
    requires priority < |n| && Fair(Days(moments, priority), n[priority])
    ensures Part(moments, n, priority) <= Whole(moments, priority)
    ensures Part(moments, n, priority) != Whole(moments, priority) ==> n[priority] != Lengths(Days(moments, priority))
  {
    PrefixesWithin(Days(moments, priority), n[priority]);
  }

  lemma ThreeTaken(moments: seq<Moment>, n: seq<seq<nat>>)
    requires |n| == 3 && forall q :: 0 <= q < 3 ==> Fair(Days(moments, q), n[q])
    ensures forall q :: 0 <= q < 3 ==> Takes(Days(moments, q), n[q])
    ensures Taken(moments, n, 3) == Part(moments, n, 0) + Part(moments, n, 1) + Part(moments, n, 2)
  {
    hide Days, Prefixes, Fair;
    forall q | 0 <= q < 3 ensures Takes(Days(moments, q), n[q]) {
      FairTakes(Days(moments, q), n[q]);
    }
    assert Taken(moments, n, 1) == multiset{} + Part(moments, n, 0);
    assert Taken(moments, n, 2) == Taken(moments, n, 1) + Part(moments, n, 1);
  }

  /** The three parts of what is kept, each within its priority. */
  lemma KeptParts(moments: seq<Moment>, kept: seq<Moment>, n: seq<seq<nat>>) returns (parts: seq<multiset<Moment>>)
    requires KeptSoFar(moments, kept, n, 3)
    ensures |parts| == 3 && multiset(kept) == parts[0] + parts[1] + parts[2]
    ensures forall q :: 0 <= q < 3 ==> parts[q] <= Whole(moments, q)
    ensures forall q :: 0 <= q < 3 && parts[q] != Whole(moments, q) ==>
              |kept| == MAX_KEPT && forall later :: q < later < 3 ==> parts[later] == multiset{}
  {
    hide Days, Prefixes, Fair, Taken, Whole;
    ThreeTaken(moments, n);
    parts := [Part(moments, n, 0), Part(moments, n, 1), Part(moments, n, 2)];
    PartWithin(moments, n, 0);
    PartWithin(moments, n, 1);
    PartWithin(moments, n, 2);
  }

  lemma WholeIsAll(moments: seq<Moment>)
    ensures Whole(moments, 0) + Whole(moments, 1) + Whole(moments, 2) == multiset(moments)
  {
    hide Whole;
    WholePriority(moments, 0);
    WholePriority(moments, 1);
    WholePriority(moments, 2);
    PrioritiesPartition(moments);
  }

  /** Exactly as many moments are kept as fit, all of them the person's own. */
  lemma KeepsAsManyAsFit(moments: seq<Moment>, kept: seq<Moment>, n: seq<seq<nat>>)
    requires KeptSoFar(moments, kept, n, 3)
    ensures multiset(kept) <= multiset(moments)
    ensures |kept| == if |moments| < 40 then |moments| else 40
  {
    hide Whole;
    assert |kept| <= MAX_KEPT;
    var parts := KeptParts(moments, kept, n);
    WholeIsAll(moments);
    hide KeptSoFar;
    assert multiset(kept) <= multiset(moments);
    SubBag(multiset(kept), multiset(moments));
  }

  lemma SubBag(a: multiset<Moment>, b: multiset<Moment>)
    requires a <= b
    ensures |a| <= |b| && (|a| == |b| ==> a == b)
  {
    assert b == a + (b - a);
  }

  lemma KeptInPart(moments: seq<Moment>, parts: seq<multiset<Moment>>, a: Moment)
    requires |parts| == 3 && forall q :: 0 <= q < 3 ==> parts[q] <= Whole(moments, q)
    requires a in parts[0] + parts[1] + parts[2]
    ensures a.Priority() < 3 && a in parts[a.Priority()]
  {
    hide Whole, Moment.Priority;
    PriorityRange(a);
    WholePriority(moments, 0);
    WholePriority(moments, 1);
    WholePriority(moments, 2);
  }

  lemma DroppedFromPart(moments: seq<Moment>, parts: seq<multiset<Moment>>, b: Moment)
    requires |parts| == 3 && forall q :: 0 <= q < 3 ==> parts[q] <= Whole(moments, q)
    requires b in multiset(moments) - (parts[0] + parts[1] + parts[2])
    ensures b.Priority() < 3 && parts[b.Priority()][b] < Whole(moments, b.Priority())[b]
  {
    hide Whole, Moment.Priority;
    PriorityRange(b);
    WholeIsAll(moments);
    WholePriority(moments, 0);
    WholePriority(moments, 1);
    WholePriority(moments, 2);
  }

  lemma NeverDropsPriority(moments: seq<Moment>, kept: seq<Moment>, n: seq<seq<nat>>, a: Moment, b: Moment)
    requires KeptSoFar(moments, kept, n, 3)
    requires a in kept && b in multiset(moments) - multiset(kept)
    ensures a.Priority() <= b.Priority()
  {
    hide KeptSoFar, Whole, Moment.Priority;
    var parts := KeptParts(moments, kept, n);
    assert a in multiset(kept);
    KeptInPart(moments, parts, a);
    DroppedFromPart(moments, parts, b);
  }

  /** A moment is never dropped while one that deserves its place less is kept. */
  lemma NeverDropsBetter(moments: seq<Moment>, kept: seq<Moment>, n: seq<seq<nat>>, a: Moment, b: Moment)
    requires KeptSoFar(moments, kept, n, 3)
    requires a in kept && b in multiset(moments) - multiset(kept)
    ensures NoLessTelling(a, b)
  {
    hide KeptSoFar, Moment.Priority;
    NeverDropsPriority(moments, kept, n, a, b);
    PriorityRead(a, b);
  }

  // --- Each day keeps its earliest moments of a priority ---

  /** Among prefixes of different days a moment is counted on its own day only. */
  lemma {:induction false} CountedOnItsDay(days: seq<seq<Moment>>, n: seq<nat>, j: nat, m: Moment)
    requires Takes(days, n) && j < |days| && forall i :: 0 <= i < |days| && i != j ==> m !in days[i]
    ensures Prefixes(days, n)[m] == multiset(days[j][..n[j]])[m]
  {
    var last := |days| - 1;
    assert last != j ==> m !in days[last][..n[last]];
    if j < last {
      CountedOnItsDay(days[..last], n[..last], j, m);
    } else {
      NotCounted(days[..last], n[..last], m);
    }
  }

  lemma {:induction false} NotCounted(days: seq<seq<Moment>>, n: seq<nat>, m: Moment)
    requires Takes(days, n) && forall i :: 0 <= i < |days| ==> m !in days[i]
    ensures Prefixes(days, n)[m] == 0
  {
    if days != [] {
      var last := |days| - 1;
      NotCounted(days[..last], n[..last], m);
      assert m !in days[last][..n[last]];
    }
  }

  /** The group that holds the moments of `m`'s day is the only one to hold any. */
  lemma OnlyGroup(moments: seq<Moment>, j: nat, m: Moment, other: Moment)
    requires j < |ByDay(moments)| && m in ByDay(moments)[j] && other.dayIndex == m.dayIndex
    ensures forall i :: 0 <= i < |ByDay(moments)| && i != j ==> other !in ByDay(moments)[i]
  {
    hide ByDay;
    forall i | 0 <= i < |ByDay(moments)| && i != j ensures other !in ByDay(moments)[i] {
      if i < j {
        ByDayInOrder(moments, i, j);
      } else {
        ByDayInOrder(moments, j, i);
      }
    }
  }

  lemma PrefixFirst(day: seq<Moment>, k: nat, a: Moment, b: Moment)
    requires k <= |day| && InTimeOrder(day) && a in day[..k] && multiset(day[..k])[b] < multiset(day)[b]
    ensures Precedes(a, b)
  {
    hide Precedes;
    assert day == day[..k] + day[k..];
    assert multiset(day) == multiset(day[..k]) + multiset(day[k..]);
    assert b in day[k..];
    var i :| 0 <= i < k && day[i] == a;
    var l :| 0 <= l < |day[k..]| && day[k..][l] == b;
    assert day[k + l] == b;
  }

  /** Of the moments of one priority on one day, whatever is kept comes before whatever is dropped. */
  lemma EarliestOfDay(moments: seq<Moment>, priority: nat, n: seq<nat>, a: Moment, b: Moment)
    requires Fair(Days(moments, priority), n) && a.dayIndex == b.dayIndex
    requires a in Prefixes(Days(moments, priority), n)
    requires Prefixes(Days(moments, priority), n)[b] < multiset(OfPriority(moments, priority))[b]
    ensures Precedes(a, b)
  {
    hide ByDay, Prefixes, OfPriority, Precedes, InTimeOrder;
    var own, days := OfPriority(moments, priority), Days(moments, priority);
    ByDayHoldsAll(own);
    assert b in multiset(own);
    var j := DayListed(own, b);
    OnlyGroup(own, j, b, a);
    OnlyGroup(own, j, b, b);
    CountedOnItsDay(days, n, j, a);
    CountedOnItsDay(days, n, j, b);
    CountedOnItsDay(days, Lengths(days), j, b);
    assert days[j][..Lengths(days)[j]] == days[j];
    var day := ByDayWhole(own, j);
    PrefixFirst(days[j], n[j], a, b);
  }

  /** A day keeps its earliest: of two moments of one day and one priority, the kept one is no later than the
      dropped one. */
  lemma EarliestKept(moments: seq<Moment>, kept: seq<Moment>, n: seq<seq<nat>>, a: Moment, b: Moment)
    requires KeptSoFar(moments, kept, n, 3) && a in kept && b in multiset(moments) - multiset(kept)
    requires a.dayIndex == b.dayIndex && NoLessTelling(b, a)
    ensures Precedes(a, b)
  {
    hide Days, Prefixes, Fair, Taken, Whole, Moment.Priority, OfPriority, Precedes, NoLessTelling;
    NeverDropsBetter(moments, kept, n, a, b);
    PriorityRead(a, b);
    PriorityRead(b, a);
    PriorityRange(a);
    var p := a.Priority();
    ThreeTaken(moments, n);
    PrioritiesCount(moments, b);
    assert a in multiset(kept);
    forall q: nat | q < 3 ensures (a in Part(moments, n, q) ==> q == p) && (b in Part(moments, n, q) ==> q == p)
      && multiset(OfPriority(moments, q))[b] == if q == p then multiset(moments)[b] else 0 {
      PartWithin(moments, n, q);
      WholePriority(moments, q);
      OthersCount(moments, q, b);
    }
    EarliestOfDay(moments, p, n[p], a, b);
  }

  lemma OthersCount(moments: seq<Moment>, q: nat, b: Moment)
    requires q < 3
    ensures multiset(OfPriority(moments, q))[b] == if q == b.Priority() then multiset(moments)[b] else 0
  {
    hide OfPriority;
    PrioritiesCount(moments, b);
    PriorityRange(b);
    forall o: nat | o < 3 && o != b.Priority() ensures b !in OfPriority(moments, o) {
      OfPriorityOnly(moments, o);
    }
  }

  // --- No day is left out ---

  /** When every day gives at most one moment and day `j` none, fewer are taken than there are days. */
  lemma {:induction false} PrefixesFew(days: seq<seq<Moment>>, n: seq<nat>, j: nat)
    requires Takes(days, n) && (forall i :: 0 <= i < |n| ==> n[i] <= 1) && (j < |n| ==> n[j] == 0)
    ensures |Prefixes(days, n)| <= |days| - if j < |days| then 1 else 0
  {
    if days != [] {
      var last := |days| - 1;
      PrefixesFew(days[..last], n[..last], j);
      assert |multiset(days[last][..n[last]])| == n[last];
    }
  }

  lemma {:induction false} TakenOf(days: seq<seq<Moment>>, n: seq<nat>, j: nat)
    requires Takes(days, n) && j < |days| && n[j] > 0
    ensures days[j][0] in Prefixes(days, n)
  {
    var last := |days| - 1;
    if j < last {
      TakenOf(days[..last], n[..last], j);
    } else {
      assert days[j][..n[j]][0] == days[j][0];
    }
  }

  lemma DayListed(moments: seq<Moment>, m: Moment) returns (j: nat)
    requires m in moments
    ensures j < |ByDay(moments)| && m in ByDay(moments)[j]
    ensures forall k <- ByDay(moments)[j] :: k in moments && k.dayIndex == m.dayIndex
  {
    hide OnDay, SortBy;
    IntOrder();
    var order := Sorted(DaysOf(moments), IntLeq);
    assert m.dayIndex in Elements(order);
    j :| 0 <= j < |order| && order[j] == m.dayIndex;
    var day := ByDayWhole(moments, j);
    GlobalOrder();
    SortBySorts(OnDay(moments, order[j]), GlobalLeq);
    OnDayOnly(moments, order[j]);
    SameMultisetSameElements(ByDay(moments)[j], OnDay(moments, order[j]));
    assert m in OnDay(moments, order[j]);
    assert m in Elements(ByDay(moments)[j]);
  }

  /** With no more days than places, each day of a person's best priority keeps a moment of it. */
  lemma BestOfEveryDayKept(moments: seq<Moment>, kept: seq<Moment>, n: seq<seq<nat>>, m: Moment)
    requires KeptSoFar(moments, kept, n, 3) && m in moments && |DaysOf(moments)| <= MAX_KEPT
    requires forall o <- moments :: NoLessTelling(m, o)
    ensures exists k :: k in kept && k in moments && NoLessTelling(k, m) && k.dayIndex == m.dayIndex
  {
    hide KeptSoFar, OfPriority, ByDay, Prefixes, Takes, Moment.Priority, NoLessTelling;
    forall o | o in moments ensures o.Priority() >= m.Priority() {
      PriorityRead(m, o);
    }
    var p := m.Priority();
    var own := OfPriority(moments, p);
    PriorityRange(m);
    forall q | 0 <= q < p ensures OfPriority(moments, q) == [] {
      NoneBetter(moments, p, q);
    }
    InPriority(moments, p, m);
    var j := DayListed(own, m);
    var days := Days(moments, p);
    var k := days[j][0];
    assert k in days[j];
    InPriority(moments, p, k);
    SomethingTaken(moments, kept, n, p, j);
    TakenOf(days, n[p], j);
    PartKept(moments, kept, n, p);
    assert k in multiset(kept);
    PriorityRead(k, m);
  }

  lemma PriorityRange(m: Moment)
    ensures m.Priority() < 3
  {}

  lemma NoneBetter(moments: seq<Moment>, p: nat, q: nat)
    requires q < p && forall o <- moments :: o.Priority() >= p
    ensures OfPriority(moments, q) == []
  {
    hide OfPriority;
    if OfPriority(moments, q) != [] {
      assert OfPriority(moments, q)[0] in OfPriority(moments, q);
      InPriorityAll(moments, q);
    }
  }

  lemma InPriority(moments: seq<Moment>, priority: nat, m: Moment)
    ensures m in OfPriority(moments, priority) <==> m in moments && m.Priority() == priority
  {
    InPriorityAll(moments, priority);
  }

  lemma {:induction false} InPriorityAll(moments: seq<Moment>, priority: nat)
    ensures forall m :: m in OfPriority(moments, priority) <==> m in moments && m.Priority() == priority
  {
    if moments != [] {
      var front, last := moments[..|moments| - 1], moments[|moments| - 1];
      assert moments == front + [last];
      InPriorityAll(front, priority);
    }
  }

  lemma PartKept(moments: seq<Moment>, kept: seq<Moment>, n: seq<seq<nat>>, p: nat)
    requires KeptSoFar(moments, kept, n, 3) && p < 3
    ensures Takes(Days(moments, p), n[p]) && Prefixes(Days(moments, p), n[p]) <= multiset(kept)
  {
    hide Days, Prefixes, Fair, Taken;
    ThreeTaken(moments, n);
  }

  /** Nothing is kept of a better priority that there is none of, and nothing of a worse one when a day of
      this one was left out. */
  lemma SomethingTaken(moments: seq<Moment>, kept: seq<Moment>, n: seq<seq<nat>>, p: nat, j: nat)
    requires KeptSoFar(moments, kept, n, 3) && p < 3 && j < |Days(moments, p)| && Days(moments, p)[j] != []
    requires |DaysOf(moments)| <= MAX_KEPT && forall q :: 0 <= q < p ==> OfPriority(moments, q) == []
    ensures |n| == 3 && Takes(Days(moments, p), n[p]) && n[p][j] > 0
  {
    hide OfPriority, Taken, ByDay;
    var days := Days(moments, p);
    FairTakes(days, n[p]);
    if n[p][j] == 0 {
      PrefixesFew(days, n[p], j);
      FewerDays(moments, p);
      assert n[p] != Lengths(days);
      ThreeTaken(moments, n);
      forall q | 0 <= q < p ensures Part(moments, n, q) == multiset{} {
        PartWithin(moments, n, q);
        WholePriority(moments, q);
      }
      assert false;
    }
  }

  lemma FewerDays(moments: seq<Moment>, p: nat)
    ensures |Days(moments, p)| <= |DaysOf(moments)|
  {
    hide ByDay;
    InPriorityAll(moments, p);
    var some, all := DaysOf(OfPriority(moments, p)), DaysOf(moments);
    assert some <= all;
    assert all == some + (all - some);
  }
}
