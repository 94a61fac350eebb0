/** A run's story from its evidence: classified moments, each person's share, the key moments and the days. */
module StoryPeople {
  import opened Results
  import opened Orders
  import opened StoryMoments
  import opened StoryKept
  import opened StoryKey
  import opened StoryTotals

  /** One person's part: what was counted, what is told, and how many moments were left out. */
  datatype Person = Person(agentId: string, totals: Totals, moments: seq<Moment>, omitted: int)

  datatype Story = Story(people: seq<Person>, keyMoments: seq<Moment>, days: seq<DayRow>)

  /** The told moments of everyone, person by person. */
  function AllKept(people: seq<Person>): seq<Moment> {
    if people == [] then [] else AllKept(people[..|people| - 1]) + people[|people| - 1].moments
  }

  /** The moments are those of the evidence, one for each opportunity, in time order. */
  ghost predicate Classified(e: Evidence, moments: seq<Moment>) {
    && InTimeOrder(moments)
    && exists ms: seq<Moment> :: Lists(e, ms) && multiset(ms) == multiset(moments)
  }

  ghost predicate Lists(e: Evidence, ms: seq<Moment>) {
    |ms| == |e.opportunities| && forall i :: 0 <= i < |ms| ==> Classifies(e, e.opportunities[i], ms[i])
  }

  // --- One person ---

  /** The person's totals count all their own moments; as many of these are told as fit, in time order, none while a
      more telling one is left out nor while an as telling one earlier on the day is; and the rest is counted as
      omitted. */
  ghost predicate TellsPerson(own: seq<Moment>, providerMode: bool, p: Person) {
    && CountsMoments(p.totals, own, providerMode)
    && multiset(p.moments) <= multiset(own) && InOwnOrder(p.moments)
    && |p.moments| == (if |own| < 40 then |own| else 40)
    && p.omitted == |own| - |p.moments|
    && (forall a, b :: a in p.moments && b in multiset(own) - multiset(p.moments) ==>
          && NoLessTelling(a, b)
          && (NoLessTelling(b, a) && a.dayIndex == b.dayIndex ==> Precedes(a, b)))
  }

  /** Each day on which the person has a moment of their best priority tells one of these. */
  ghost predicate TellsEveryDay(own: seq<Moment>, p: Person) {
    forall m <- own | IsBest(own, m) :: exists k :: SameKindOfDay(own, p, m, k)
  }

  ghost predicate IsBest(own: seq<Moment>, m: Moment) {
    forall o <- own :: NoLessTelling(m, o)
  }

  ghost predicate SameKindOfDay(own: seq<Moment>, p: Person, m: Moment, k: Moment) {
    k in p.moments && k in own && NoLessTelling(k, m) && k.dayIndex == m.dayIndex
  }

  lemma {:induction false} TotalsSplit(a: seq<Moment>, b: seq<Moment>, providerMode: bool)
    ensures TotalsOf(a + b, providerMode) == TotalsOf(a, providerMode).Plus(TotalsOf(b, providerMode))
  {
    hide CountOne, Totals.Plus;
    if b == [] {
      assert a + b == a;
      PlusRegroups(TotalsOf(a, providerMode), NOTHING, NOTHING);
    } else {
      var last := |b| - 1;
      TotalsSplit(a, b[..last], providerMode);
      assert (a + b)[..|a + b| - 1] == a + b[..last];
      PlusRegroups(TotalsOf(a, providerMode), TotalsOf(b[..last], providerMode), CountOne(b[last], providerMode));
    }
  }

  lemma TotalsWithout(b: seq<Moment>, i: nat, providerMode: bool)
    requires i < |b|
    ensures TotalsOf(b, providerMode) ==
            TotalsOf(b[..i] + b[i + 1..], providerMode).Plus(CountOne(b[i], providerMode))
  {
    hide CountOne, Totals.Plus;
    assert b == b[..i + 1] + b[i + 1..] && b[..i + 1][..i] == b[..i];
    TotalsSplit(b[..i + 1], b[i + 1..], providerMode);
    TotalsSplit(b[..i], b[i + 1..], providerMode);
    PlusRegroups(TotalsOf(b[..i], providerMode), CountOne(b[i], providerMode), TotalsOf(b[i + 1..], providerMode));
  }

  lemma {:induction false} TotalsIgnoreOrder(a: seq<Moment>, b: seq<Moment>, providerMode: bool)
    requires multiset(a) == multiset(b)
    ensures TotalsOf(a, providerMode) == TotalsOf(b, providerMode)
    decreases |a|
  {
    hide TotalsOf, CountOne, Totals.Plus;
    SameMultisetSameElements(a, b);
    if a == [] {
      assert b == [];
    } else {
      var last := |a| - 1;
      assert a[last] in Elements(b);
      var i :| 0 <= i < |b| && b[i] == a[last];
      WithoutOne(a, last);
      WithoutOne(b, i);
      assert a[..last] + a[last + 1..] == a[..last];
      CancelOne(multiset(a[..last]), multiset(b[..i] + b[i + 1..]), a[last]);
      TotalsIgnoreOrder(a[..last], b[..i] + b[i + 1..], providerMode);
      TotalsWithout(a, last, providerMode);
      TotalsWithout(b, i, providerMode);
    }
  }

  method TellPerson(moments: seq<Moment>, agentId: string, providerMode: bool) returns (p: Person)
    ensures TellsOne(moments, agentId, providerMode, p)
  {
    hide KeptSoFar, TotalsOf, OfPerson, SortBy, Ascending, TimeLeq, CountsMoments, NoLessTelling, Precedes, InOwnOrder;
    ghost var mine := OfPerson(moments, agentId);
    TimeOrder();
    SortBySorts(mine, TimeLeq);
    var own := SortBy(OfPerson(moments, agentId), TimeLeq);
    SameMultisetSameElements(own, mine);
    var kept, n := KeptMoments(own);
    KeepsAsManyAsFit(own, kept, n);
    var totals := CountMoments(own, providerMode);
    TotalsIgnoreOrder(own, mine, providerMode);
    TotalsCount(mine, providerMode);
    ShownCountsMoments(mine, providerMode);
    p := Person(agentId, totals, kept, |own| - |kept|);
    forall a: Moment, b: Moment | a in kept && b in multiset(mine) - multiset(kept)
      ensures NoLessTelling(a, b) && (NoLessTelling(b, a) && a.dayIndex == b.dayIndex ==> Precedes(a, b)) {
      NeverDropsBetter(own, kept, n, a, b);
      if NoLessTelling(b, a) && a.dayIndex == b.dayIndex {
        EarliestKept(own, kept, n, a, b);
      }
    }
    assert |own| == |multiset(own)| == |mine|;
    if |DaysOf(moments)| <= MAX_KEPT {
      EveryDayTold(moments, own, kept, n, p);
    }
  }

  lemma EveryDayTold(moments: seq<Moment>, own: seq<Moment>, kept: seq<Moment>, n: seq<seq<nat>>, p: Person)
    requires KeptSoFar(own, kept, n, 3) && p.moments == kept && |DaysOf(moments)| <= MAX_KEPT
    requires multiset(own) == multiset(OfPerson(moments, p.agentId))
    ensures TellsEveryDay(OfPerson(moments, p.agentId), p)
  {
    hide KeptSoFar, OfPerson, NoLessTelling;
    var mine := OfPerson(moments, p.agentId);
    SameMultisetSameElements(own, mine);
    assert forall o :: o in own <==> o in Elements(own);
    assert forall o :: o in mine <==> o in Elements(mine);
    OfPersonOnly(moments, p.agentId);
    FewerDaysOf(own, moments);
    forall m <- mine | IsBest(mine, m) ensures exists k :: SameKindOfDay(mine, p, m, k) {
      BestOfEveryDayKept(own, kept, n, m);
      var k :| k in kept && k in own && NoLessTelling(k, m) && k.dayIndex == m.dayIndex;
      assert SameKindOfDay(mine, p, m, k);
    }
  }

  lemma FewerDaysOf(part: seq<Moment>, whole: seq<Moment>)
    requires forall m <- part :: m in whole
    ensures |DaysOf(part)| <= |DaysOf(whole)|
  {
    var some, all := DaysOf(part), DaysOf(whole);
    assert some <= all;
    assert all == some + (all - some);
  }

  lemma {:induction false} OfPersonOnly(moments: seq<Moment>, agentId: string)
    ensures forall m :: m in OfPerson(moments, agentId) <==> m in moments && m.agentId == agentId
  {
    if moments != [] {
      var front, last := moments[..|moments| - 1], moments[|moments| - 1];
      assert moments == front + [last];
      OfPersonOnly(front, agentId);
    }
  }

  // --- Everyone ---

  ghost predicate TellsPeople(moments: seq<Moment>, agents: seq<string>, providerMode: bool, people: seq<Person>) {
    |people| == |agents| && forall i :: 0 <= i < |agents| ==> TellsOne(moments, agents[i], providerMode, people[i])
  }

  ghost predicate TellsOne(moments: seq<Moment>, agentId: string, providerMode: bool, p: Person) {
    && p.agentId == agentId
    && TellsPerson(OfPerson(moments, agentId), providerMode, p)
    && p.totals.shown == |p.moments| + p.omitted
    && (|DaysOf(moments)| <= MAX_KEPT ==> TellsEveryDay(OfPerson(moments, agentId), p))
  }

  method TellPeople(moments: seq<Moment>, agents: seq<string>, providerMode: bool)
      returns (people: seq<Person>, kept: seq<Moment>)
    ensures TellsPeople(moments, agents, providerMode, people) && kept == AllKept(people)
  {
    hide TellsOne;
    people, kept := [], [];
    for i := 0 to |agents|
      invariant TellsPeople(moments, agents[..i], providerMode, people) && kept == AllKept(people)
    {
      var p := TellPerson(moments, agents[i], providerMode);
      assert (people + [p])[..i] == people && agents[..i + 1] == agents[..i] + [agents[i]];
      people := people + [p];
      kept := kept + p.moments;
    }
    assert agents[..|agents|] == agents;
  }

  /** Told moments are moments of the run, and as distinct people have distinct moments, none is told twice. */
  lemma {:induction false} KeptWithin(moments: seq<Moment>, agents: seq<string>, providerMode: bool,
                                      people: seq<Person>)
    requires TellsPeople(moments, agents, providerMode, people) && Distinct(agents)
    ensures multiset(AllKept(people)) <= multiset(moments)
    ensures forall m <- AllKept(people) :: m.agentId in agents
  {
    hide TellsEveryDay, OfPerson, CountsMoments, InOwnOrder, Precedes, NoLessTelling;
    if people != [] {
      var last := |people| - 1;
      assert agents == agents[..last] + [agents[last]];
      KeptWithin(moments, agents[..last], providerMode, people[..last]);
      OneMoreWithin(moments, AllKept(people[..last]), people[last].moments, agents[last]);
    }
  }

  lemma OneMoreWithin(moments: seq<Moment>, before: seq<Moment>, own: seq<Moment>, agentId: string)
    requires multiset(before) <= multiset(moments) && forall m <- before :: m.agentId != agentId
    requires multiset(own) <= multiset(OfPerson(moments, agentId))
    ensures multiset(before + own) <= multiset(moments) && forall m <- own :: m.agentId == agentId
  {
    hide OfPerson;
    OfPersonOnly(moments, agentId);
    forall m <- own ensures m.agentId == agentId {
      assert m in multiset(own) && m in multiset(OfPerson(moments, agentId));
    }
    forall m ensures multiset(before + own)[m] <= multiset(moments)[m] {
      if m in own {
        assert m !in before;
        OfPersonCount(moments, agentId, m);
      }
    }
  }

  lemma {:induction false} OfPersonCount(moments: seq<Moment>, agentId: string, m: Moment)
    ensures multiset(OfPerson(moments, agentId))[m] <= multiset(moments)[m]
  {
    if moments != [] {
      var front, last := moments[..|moments| - 1], moments[|moments| - 1];
      assert moments == front + [last];
      OfPersonCount(front, agentId, m);
    }
  }

  lemma KeptHas(people: seq<Person>, i: nat, m: Moment)
    requires i < |people| && m in people[i].moments
    ensures m in AllKept(people)
  {
    if i < |people| - 1 {
      KeptHas(people[..|people| - 1], i, m);
    }
  }

  // --- The whole story ---

  /** What the story tells of the classified moments. */
  ghost predicate Tells(moments: seq<Moment>, agents: seq<string>, mode: Mode, providerMode: bool, days: nat,
                        story: Story)
    requires days >= 1
  {
    && TellsPeople(moments, agents, providerMode, story.people)
    && story.keyMoments == SortBy(Chosen(AllKept(story.people), mode, days), GlobalLeq)
    && |story.days| == days
    && forall d :: 0 <= d < days ==> CountsDay(story.days[d], moments, d)
  }

  /** Building the story. It fails exactly when an opportunity cannot be classified or lies outside the
      run's days. */
  method Tell(e: Evidence, agents: seq<string>, mode: Mode, providerMode: bool, days: nat)
      returns (r: Result<Story, StoryError>, ghost moments: seq<Moment>)
    requires days >= 1
    ensures r.Success? <==> forall o <- e.opportunities :: Tellable(e, o) && 0 <= o.dayIndex < days
    ensures r.Success? ==> Classified(e, moments) && Tells(moments, agents, mode, providerMode, days, r.value)
  {
    hide Tellable, Classifies, Chosen, SortBy, CountsDay, TellsPeople;
    moments := [];
    var classified := Classify(e);
    if classified.Failure? {
      return Failure(classified.error), moments;
    }
    moments := classified.value;
    ghost var ms: seq<Moment> :| |ms| == |e.opportunities| && multiset(ms) == multiset(moments)
      && forall i :: 0 <= i < |ms| ==> Classifies(e, e.opportunities[i], ms[i]);
    assert Lists(e, ms);
    SameDays(e, ms, moments, days);
    var people, kept := TellPeople(classified.value, agents, providerMode);
    var key := KeyMoments(kept, mode, days);
    var rows := DayTotals(classified.value, days);
    if rows.Failure? {
      return Failure(rows.error), moments;
    }
    r := Success(Story(people, key, rows.value));
  }

  lemma SameDays(e: Evidence, ms: seq<Moment>, moments: seq<Moment>, days: nat)
    requires Lists(e, ms) && multiset(ms) == multiset(moments)
    ensures (forall m <- moments :: 0 <= m.dayIndex < days) <==> (forall o <- e.opportunities :: 0 <= o.dayIndex < days)
  {
    hide Classifies;
    SameMultisetSameElements(ms, moments);
    assert forall m :: m in ms <==> m in Elements(ms);
    assert forall m :: m in moments <==> m in Elements(moments);
    forall i | 0 <= i < |ms| ensures ms[i].dayIndex == e.opportunities[i].dayIndex {
      ClassifiedWell(e, e.opportunities[i], ms[i]);
    }
    if forall m <- moments :: 0 <= m.dayIndex < days {
      forall o <- e.opportunities ensures 0 <= o.dayIndex < days {
        var i :| 0 <= i < |ms| && e.opportunities[i] == o;
        assert ms[i] in moments;
      }
    }
  }

  // --- What the story guarantees ---

  lemma ClassifiedConsistent(e: Evidence, moments: seq<Moment>, part: seq<Moment>)
    requires Classified(e, moments) && multiset(part) <= multiset(moments)
    ensures Consistent(part) && forall m <- part :: WellClassified(m)
  {
    hide Classifies, InTimeOrder;
    var ms: seq<Moment> :| Lists(e, ms) && multiset(ms) == multiset(moments);
    forall m <- part ensures WellClassified(m) {
      assert m in multiset(part) && m in multiset(moments) && m in multiset(ms);
      var i :| 0 <= i < |ms| && ms[i] == m;
      ClassifiedWell(e, e.opportunities[i], m);
    }
  }

  /** The key moments of an accepted run are among its moments, told of some person, none twice; they fit the
      budgets of its days; and they are in strict time order when no two moments of the run share a key. */
  lemma StorySound(
      e: Evidence, moments: seq<Moment>, agents: seq<string>, mode: Mode, providerMode: bool, days: nat, story: Story)
    requires days >= 1 && Classified(e, moments) && Tells(moments, agents, mode, providerMode, days, story)
    requires Distinct(agents) && forall o <- e.opportunities :: 0 <= o.dayIndex < days
    ensures multiset(story.keyMoments) <= multiset(AllKept(story.people)) <= multiset(moments)
    ensures |story.keyMoments| <= days * PerDay(mode, DayBudget(mode, days)) + |Firsts(mode)|
    ensures InTimeOrder(story.keyMoments)
    ensures forall status :: IsKind(status, mode) ==> FirstShown(AllKept(story.people), story.keyMoments, status)
    ensures DistinctKeys(moments) ==> DistinctKeys(story.keyMoments)
  {
    hide TellsPeople, Chosen, SortBy, Ascending, PerDay, DistinctKeys, Consistent, CountsDay, Classifies, InTimeOrder;
    hide IsKind, FirstShown;
    var kept := AllKept(story.people);
    KeptWithin(moments, agents, providerMode, story.people);
    ClassifiedConsistent(e, moments, kept);
    KeyMomentsSound(kept, mode, days);
    GlobalOrder();
    SortBySorts(Chosen(kept, mode, days), GlobalLeq);
    OrderRead(story.keyMoments);
    KeptInRange(e, moments, kept, days);
    KeyMomentsFew(kept, mode, days);
    KindsShown(kept, mode, days);
    if DistinctKeys(moments) {
      SubBagDistinctKeys(story.keyMoments, moments);
    }
  }

  lemma KindsShown(kept: seq<Moment>, mode: Mode, days: nat)
    requires days >= 1
    ensures forall status ::
              IsKind(status, mode) ==> FirstShown(kept, SortBy(Chosen(kept, mode, days), GlobalLeq), status)
  {
    hide Chosen, SortBy, IsKind, FirstShown, PickDays, IsFirst, ByDay;
    var chosen := Chosen(kept, mode, days);
    KeyMomentsFirsts(kept, mode, days);
    GlobalOrder();
    SortBySorts(chosen, GlobalLeq);
    SameMultisetSameElements(chosen, SortBy(chosen, GlobalLeq));
    assert forall m :: m in chosen <==> m in Elements(chosen);
    assert forall m :: m in SortBy(chosen, GlobalLeq) <==> m in Elements(SortBy(chosen, GlobalLeq));
    forall status | FirstShown(kept, chosen, status)
      ensures FirstShown(kept, SortBy(chosen, GlobalLeq), status)
    {
      StillShown(kept, chosen, SortBy(chosen, GlobalLeq), status);
    }
  }

  lemma KeptInRange(e: Evidence, moments: seq<Moment>, kept: seq<Moment>, days: nat)
    requires Classified(e, moments) && multiset(kept) <= multiset(moments)
    requires forall o <- e.opportunities :: 0 <= o.dayIndex < days
    ensures forall m <- kept :: 0 <= m.dayIndex < days
  {
    hide Classifies, InTimeOrder;
    var ms: seq<Moment> :| Lists(e, ms) && multiset(ms) == multiset(moments);
    SameDays(e, ms, moments, days);
    forall m <- kept ensures m in moments {
      assert m in multiset(kept) && m in multiset(moments);
    }
  }

  /** A response has a terminal record exactly when its question was selected, and the rules answer in rules
      mode only. */
  ghost predicate Coherent(e: Evidence, mode: Mode) {
    forall id <- e.applied ::
      && (e.applied[id].terminalHash.None? <==> e.applied[id].source == Unselected)
      && (mode == AiMode ==> e.applied[id].source != Rules)
  }

  lemma AskedIsTelling(e: Evidence, mode: Mode, o: Opportunity, m: Moment)
    requires Coherent(e, mode) && Classifies(e, o, m) && m.hasTerminal
    ensures IsTelling(m, mode)
  {}

  lemma AskedIsBest(own: seq<Moment>, m: Moment)
    requires m.hasTerminal
    ensures IsBest(own, m)
  {}

  lemma AskedToo(own: seq<Moment>, p: Person, m: Moment, t: Moment)
    requires m.hasTerminal && SameKindOfDay(own, p, m, t)
    ensures t.hasTerminal && t in p.moments && t in own && t.dayIndex == m.dayIndex
  {}

  lemma MomentSource(e: Evidence, moments: seq<Moment>, m: Moment) returns (o: Opportunity)
    requires Classified(e, moments) && m in moments
    ensures Classifies(e, o, m)
  {
    hide Classifies, InTimeOrder;
    var ms: seq<Moment> :| Lists(e, ms) && multiset(ms) == multiset(moments);
    assert m in multiset(moments) && m in multiset(ms);
    var i :| 0 <= i < |ms| && ms[i] == m;
    o := e.opportunities[i];
  }

  lemma DaysWithin(moments: seq<Moment>, days: nat)
    requires forall m <- moments :: 0 <= m.dayIndex < days
    ensures |DaysOf(moments)| <= days
  {
    DaysInRange(DaysOf(moments), days);
  }

  /** In a run of at most forty days, every day on which some listed person's moment was put to the model or,
      in rules mode, decided by the rules has a key moment. */
  lemma EveryAskedDayShown(
      e: Evidence, moments: seq<Moment>, agents: seq<string>, mode: Mode, providerMode: bool, days: nat, story: Story,
      m: Moment)
    requires 1 <= days <= MAX_KEPT && Classified(e, moments) && Tells(moments, agents, mode, providerMode, days, story)
    requires Distinct(agents) && forall o <- e.opportunities :: 0 <= o.dayIndex < days
    requires Coherent(e, mode) && m in moments && m.hasTerminal && m.agentId in agents
    ensures exists k :: k in story.keyMoments && k.dayIndex == m.dayIndex
  {
    hide Chosen, SortBy, InTimeOrder, CountsDay, Classifies, TellsPerson, OfPerson, DaysOf, ByDay, IsBest;
    hide SameKindOfDay;
    hide Represents;
    var kept := AllKept(story.people);
    KeptWithin(moments, agents, providerMode, story.people);
    KeptInRange(e, moments, moments, days);
    DaysWithin(moments, days);
    var i :| 0 <= i < |agents| && agents[i] == m.agentId;
    var own := OfPerson(moments, agents[i]);
    OfPersonOnly(moments, agents[i]);
    AskedIsBest(own, m);
    var t :| SameKindOfDay(own, story.people[i], m, t);
    AskedToo(own, story.people[i], m, t);
    KeptHas(story.people, i, t);
    var o := MomentSource(e, moments, t);
    AskedIsTelling(e, mode, o, t);
    ClassifiedConsistent(e, moments, kept);
    TellingDayShown(kept, mode, days, t);
  }

  /** A day with a telling moment among the kept ones has a key moment. */
  lemma TellingDayShown(kept: seq<Moment>, mode: Mode, days: nat, t: Moment)
    requires days >= 1 && Consistent(kept) && t in kept && IsTelling(t, mode)
    ensures exists k :: k in SortBy(Chosen(kept, mode, days), GlobalLeq) && k.dayIndex == t.dayIndex
  {
    hide Chosen, SortBy, IsTelling, ByDay, Consistent;
    KeyMomentsSound(kept, mode, days);
    GlobalOrder();
    var ordered, chosen := SortBy(kept, GlobalLeq), Chosen(kept, mode, days);
    SortBySorts(kept, GlobalLeq);
    SortBySorts(chosen, GlobalLeq);
    assert t in multiset(kept) && t in multiset(ordered);
    var j := DayListed(ordered, t);
    assert DayShown(ByDay(ordered)[j], chosen, mode);
    var k :| k in ByDay(ordered)[j] && k in chosen;
    assert k in multiset(chosen) && k in multiset(SortBy(chosen, GlobalLeq));
  }
}
