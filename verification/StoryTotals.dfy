/** Classifying a run's opportunities into moments, and counting them: by person, by day, and overall. Every
    opportunity needs an impression; a noticed one also needs its applied response, the state change that
    response caused, and the terminal record it names. Anything missing makes the evidence inconsistent, and
    then there is no story. */
module StoryTotals {
  import opened Results
  import opened Orders
  import opened StoryMoments

  // --- Classification ---

  datatype Opportunity = Opportunity(id: string, agentId: string, dayIndex: int, minute: int, millisecond: int)

  datatype Source = Provider | Cache | Mock | Rules | Fallback | BudgetSkipped | Unselected

  datatype Neutralization = Neutral | Uncertain | Safety

  /** The applied response of a noticed opportunity; `changed` is its effect compared with the rules. */
  datatype Applied = Applied(eventId: string, source: Source, neutralization: Neutralization,
                             terminalHash: Option<string>, changed: bool)

  datatype Evidence = Evidence(opportunities: seq<Opportunity>, impressions: map<string, bool>,
                               applied: map<string, Applied>, dualCauses: set<string>, terminals: map<string, Source>)

  datatype StoryError = Inconsistent

  function StatusOf(applied: Applied): Status {
    match applied.neutralization
    case Uncertain => Unsure
    case Safety => Warning
    case Neutral =>
      match applied.source
      case Provider => Answered
      case Cache => Reused
      case Mock => Practice
      case Rules => RulesOnly
      case Fallback => Failed
      case BudgetSkipped => OverLimit
      case Unselected => NotChosen
  }

  function MomentId(o: Opportunity): string {
    if |o.id| <= 16 then o.id else o.id[..16]
  }

  function ClassifyOne(e: Evidence, o: Opportunity): Result<Moment, StoryError> {
    if o.id !in e.impressions then Failure(Inconsistent)
    else if !e.impressions[o.id] then
      Success(Moment(o.agentId, MomentId(o), o.dayIndex, o.minute, o.millisecond, false, NotNoticed, false, false,
                     false))
    else if o.id !in e.applied || e.applied[o.id].eventId !in e.dualCauses then Failure(Inconsistent)
    else
      var applied := e.applied[o.id];
      match applied.terminalHash
      case None =>
        Success(Moment(o.agentId, MomentId(o), o.dayIndex, o.minute, o.millisecond, true, StatusOf(applied), false,
                       false, applied.changed))
      case Some(hash) =>
        if hash !in e.terminals then Failure(Inconsistent)
        else
          Success(Moment(o.agentId, MomentId(o), o.dayIndex, o.minute, o.millisecond, true, StatusOf(applied), true,
                         e.terminals[hash] in {Provider, Cache, Fallback}, applied.changed))
  }

  /** The evidence holds what an opportunity needs. */
  ghost predicate Tellable(e: Evidence, o: Opportunity) {
    && o.id in e.impressions
    && (e.impressions[o.id] ==>
          && o.id in e.applied && e.applied[o.id].eventId in e.dualCauses
          && (e.applied[o.id].terminalHash.Some? ==> e.applied[o.id].terminalHash.value in e.terminals))
  }

  /** The outcome is the one that this neutralization and source call for. */
  ghost predicate Outcome(a: Applied, status: Status) {
    && (status == Unsure <==> a.neutralization == Uncertain) && (status == Warning <==> a.neutralization == Safety)
    && (status == Answered <==> a.neutralization == Neutral && a.source == Provider)
    && (status == Reused <==> a.neutralization == Neutral && a.source == Cache)
    && (status == Practice <==> a.neutralization == Neutral && a.source == Mock)
    && (status == RulesOnly <==> a.neutralization == Neutral && a.source == Rules)
    && (status == Failed <==> a.neutralization == Neutral && a.source == Fallback)
    && (status == OverLimit <==> a.neutralization == Neutral && a.source == BudgetSkipped)
    && (status == NotChosen <==> a.neutralization == Neutral && a.source == Unselected)
  }

  /** The moment agrees with the evidence about the opportunity. */
  ghost predicate Classifies(e: Evidence, o: Opportunity, m: Moment) {
    && Tellable(e, o)
    && m.agentId == o.agentId && m.dayIndex == o.dayIndex && m.minute == o.minute && m.millisecond == o.millisecond
    && |m.momentId| <= |o.id| && m.momentId == o.id[..|m.momentId|]
    && (|m.momentId| == 16 || (|m.momentId| < 16 && |m.momentId| == |o.id|))
    && m.noticed == e.impressions[o.id]
    && (!m.noticed ==> m.status == NotNoticed && !m.hasTerminal && !m.sent && !m.changed)
    && (m.noticed ==> var a := e.applied[o.id];
                      && Outcome(a, m.status) && m.changed == a.changed && (m.hasTerminal <==> a.terminalHash.Some?)
                      && (m.sent <==> a.terminalHash.Some?
                                      && (e.terminals[a.terminalHash.value] == Provider
                                          || e.terminals[a.terminalHash.value] == Cache
                                          || e.terminals[a.terminalHash.value] == Fallback)))
  }

  lemma ClassifiedRightly(e: Evidence, o: Opportunity)
    ensures ClassifyOne(e, o).Success? <==> Tellable(e, o)
    ensures ClassifyOne(e, o).Success? ==> Classifies(e, o, ClassifyOne(e, o).value)
  {}

  method Classify(e: Evidence) returns (r: Result<seq<Moment>, StoryError>)
    ensures r.Success? <==> forall o <- e.opportunities :: Tellable(e, o)
    ensures r.Success? ==> InTimeOrder(r.value)
    ensures r.Success? ==> exists ms: seq<Moment> :: |ms| == |e.opportunities| && multiset(ms) == multiset(r.value) &&
                             forall i :: 0 <= i < |ms| ==> Classifies(e, e.opportunities[i], ms[i])
  {
    hide ClassifyOne, Classifies, Tellable, InTimeOrder;
    var moments: seq<Moment> := [];
    for k := 0 to |e.opportunities|
      invariant |moments| == k && forall i :: 0 <= i < k ==> Classifies(e, e.opportunities[i], moments[i])
      invariant forall i :: 0 <= i < k ==> Tellable(e, e.opportunities[i])
    {
      ClassifiedRightly(e, e.opportunities[k]);
      var one := ClassifyOne(e, e.opportunities[k]);
      if one.Failure? {
        return Failure(one.error);
      }
      moments := moments + [one.value];
    }
    GlobalOrder();
    SortBySorts(moments, GlobalLeq);
    OrderRead(SortBy(moments, GlobalLeq));
    r := Success(SortBy(moments, GlobalLeq));
  }

  /** A moment has an undecided status exactly when it went unnoticed, and only noticed moments are ever
      put to the model. */
  ghost predicate WellClassified(m: Moment) {
    (m.status == NotNoticed <==> !m.noticed) && (m.hasTerminal ==> m.noticed) && (m.sent ==> m.hasTerminal)
  }

  lemma ClassifiedWell(e: Evidence, o: Opportunity, m: Moment)
    requires Classifies(e, o, m)
    ensures WellClassified(m) && m.noticed == e.impressions[o.id] && m.agentId == o.agentId && m.dayIndex == o.dayIndex
  {}

  // --- Counting ---

  datatype Totals = Totals(shown: nat, noticed: nat, chosen: nat, sent: nat, used: nat, setAside: nat, failed: nat,
                           overLimit: nat, notChosen: nat)
  {
    function Plus(t: Totals): Totals {
      Totals(shown + t.shown, noticed + t.noticed, chosen + t.chosen, sent + t.sent, used + t.used,
             setAside + t.setAside, failed + t.failed, overLimit + t.overLimit, notChosen + t.notChosen)
    }
  }

  const NOTHING := Totals(0, 0, 0, 0, 0, 0, 0, 0, 0)

  function One(b: bool): nat { if b then 1 else 0 }

  function CountOne(m: Moment, providerMode: bool): Totals {
    Totals(1, One(m.noticed), One(m.hasTerminal), One(providerMode && m.sent),
           One(m.status in {Answered, Reused, Practice}),
           One(m.status in {Unsure, Warning}), One(m.status == Failed), One(m.status == OverLimit),
           One(m.status == NotChosen))
  }

  function TotalsOf(moments: seq<Moment>, providerMode: bool): Totals {
    if moments == [] then NOTHING
    else TotalsOf(moments[..|moments| - 1], providerMode).Plus(CountOne(moments[|moments| - 1], providerMode))
  }

  function WithStatus(moments: seq<Moment>, status: Status): nat {
    if moments == [] then 0
    else WithStatus(moments[..|moments| - 1], status) + One(moments[|moments| - 1].status == status)
  }

  lemma OneOutcome(m: Moment, providerMode: bool)
    requires WellClassified(m)
    ensures var t := CountOne(m, providerMode);
            && t.noticed == t.used + t.setAside + t.failed + t.overLimit + t.notChosen + One(m.status == RulesOnly)
            && t.shown == t.noticed + One(m.status == NotNoticed)
            && t.sent <= t.chosen <= t.noticed && (!providerMode ==> t.sent == 0)
  {}

  /** How many of the moments are such. */
  ghost function HowMany(moments: seq<Moment>, such: Moment -> bool): nat {
    |set i | 0 <= i < |moments| && such(moments[i])|
  }

  lemma OneMoreSuch(moments: seq<Moment>, m: Moment, such: Moment -> bool)
    ensures HowMany(moments + [m], such) == HowMany(moments, such) + One(such(m))
  {
    var before, after := set i | 0 <= i < |moments| && such(moments[i]),
                         set i | 0 <= i < |moments| + 1 && such((moments + [m])[i]);
    assert after == before + if such(m) then {|moments|} else {};
  }

  /** The totals count moments: so many of them were noticed, so many asked about, and so on. */
  ghost predicate CountsMoments(t: Totals, moments: seq<Moment>, providerMode: bool) {
    && t.shown == |moments|
    && t.noticed == HowMany(moments, (m: Moment) => m.noticed)
    && t.chosen == HowMany(moments, (m: Moment) => m.hasTerminal)
    && t.sent == (if providerMode then HowMany(moments, (m: Moment) => m.sent) else 0)
    && t.used == HowMany(moments, (m: Moment) => m.status == Answered || m.status == Reused || m.status == Practice)
    && t.setAside == HowMany(moments, (m: Moment) => m.status == Unsure || m.status == Warning)
    && t.failed == HowMany(moments, (m: Moment) => m.status == Failed)
    && t.overLimit == HowMany(moments, (m: Moment) => m.status == OverLimit)
    && t.notChosen == HowMany(moments, (m: Moment) => m.status == NotChosen)
  }

  lemma NothingCounts(providerMode: bool)
    ensures CountsMoments(TotalsOf([], providerMode), [], providerMode)
  {}

  lemma OneMoreCounts(t: Totals, moments: seq<Moment>, m: Moment, providerMode: bool)
    requires CountsMoments(t, moments, providerMode)
    ensures CountsMoments(t.Plus(CountOne(m, providerMode)), moments + [m], providerMode)
  {
    hide HowMany;
    forall such: Moment -> bool ensures HowMany(moments + [m], such) == HowMany(moments, such) + One(such(m)) {
      OneMoreSuch(moments, m, such);
    }
  }

  lemma {:induction false} TotalsCount(moments: seq<Moment>, providerMode: bool)
    ensures CountsMoments(TotalsOf(moments, providerMode), moments, providerMode)
  {
    hide CountsMoments, CountOne, TotalsOf, Totals.Plus;
    if moments == [] {
      NothingCounts(providerMode);
    } else {
      var front, last := moments[..|moments| - 1], moments[|moments| - 1];
      assert moments == front + [last];
      TotalsCount(front, providerMode);
      TotalsStep(front, last, providerMode);
      OneMoreCounts(TotalsOf(front, providerMode), front, last, providerMode);
    }
  }

  /** Every noticed moment is counted under exactly one outcome; those the rules decided in a rules-only run
      have no counter of their own. */
  lemma {:induction false} NoticedSplitsByOutcome(moments: seq<Moment>, providerMode: bool)
    requires forall m <- moments :: WellClassified(m)
    ensures var t := TotalsOf(moments, providerMode);
            && t.noticed == t.used + t.setAside + t.failed + t.overLimit + t.notChosen + WithStatus(moments, RulesOnly)
            && t.shown == t.noticed + WithStatus(moments, NotNoticed)
            && t.sent <= t.chosen <= t.noticed && (!providerMode ==> t.sent == 0)
  {
    hide CountOne, WellClassified, One;
    if moments != [] {
      var front, last := moments[..|moments| - 1], moments[|moments| - 1];
      assert forall m <- front :: m in moments;
      NoticedSplitsByOutcome(front, providerMode);
      assert last in moments;
      OneOutcome(last, providerMode);
    }
  }

  lemma {:induction false} ShownCountsMoments(moments: seq<Moment>, providerMode: bool)
    ensures TotalsOf(moments, providerMode).shown == |moments|
  {
    if moments != [] {
      ShownCountsMoments(moments[..|moments| - 1], providerMode);
    }
  }

  // --- Two ways of grouping ---

  function OfPerson(moments: seq<Moment>, agentId: string): seq<Moment> {
    if moments == [] then []
    else OfPerson(moments[..|moments| - 1], agentId) +
         if moments[|moments| - 1].agentId == agentId then [moments[|moments| - 1]] else []
  }

  /** The days' totals added up. */
  function SumByDay(moments: seq<Moment>, days: nat, providerMode: bool): Totals {
    if days == 0 then NOTHING
    else SumByDay(moments, days - 1, providerMode).Plus(TotalsOf(OnDay(moments, days - 1), providerMode))
  }

  /** The listed people's totals added up. */
  function SumByPerson(moments: seq<Moment>, agents: seq<string>, providerMode: bool): Totals {
    if agents == [] then NOTHING
    else
      var own := OfPerson(moments, agents[|agents| - 1]);
      SumByPerson(moments, agents[..|agents| - 1], providerMode).Plus(TotalsOf(own, providerMode))
  }

  lemma PlusRegroups(a: Totals, b: Totals, c: Totals)
    ensures a.Plus(b).Plus(c) == a.Plus(c).Plus(b) == a.Plus(b.Plus(c))
    ensures a.Plus(NOTHING) == a
  {}

  lemma TotalsStep(moments: seq<Moment>, m: Moment, providerMode: bool)
    ensures TotalsOf(moments + [m], providerMode) == TotalsOf(moments, providerMode).Plus(CountOne(m, providerMode))
  {
    assert (moments + [m])[..|moments|] == moments;
  }

  lemma DayStep(moments: seq<Moment>, day: int, providerMode: bool)
    requires moments != []
    ensures var front, last := moments[..|moments| - 1], moments[|moments| - 1];
            var more := if last.dayIndex == day then CountOne(last, providerMode) else NOTHING;
            TotalsOf(OnDay(moments, day), providerMode) == TotalsOf(OnDay(front, day), providerMode).Plus(more)
  {
    hide CountOne, TotalsOf;
    var front, last := moments[..|moments| - 1], moments[|moments| - 1];
    TotalsStep(OnDay(front, day), last, providerMode);
    assert OnDay(front, day) + [] == OnDay(front, day);
    PlusRegroups(TotalsOf(OnDay(front, day), providerMode), NOTHING, NOTHING);
  }

  lemma PersonStep(moments: seq<Moment>, agentId: string, providerMode: bool)
    requires moments != []
    ensures var front, last := moments[..|moments| - 1], moments[|moments| - 1];
            var more := if last.agentId == agentId then CountOne(last, providerMode) else NOTHING;
            TotalsOf(OfPerson(moments, agentId), providerMode) ==
            TotalsOf(OfPerson(front, agentId), providerMode).Plus(more)
  {
    hide CountOne, TotalsOf;
    var front, last := moments[..|moments| - 1], moments[|moments| - 1];
    TotalsStep(OfPerson(front, agentId), last, providerMode);
    assert OfPerson(front, agentId) + [] == OfPerson(front, agentId);
    PlusRegroups(TotalsOf(OfPerson(front, agentId), providerMode), NOTHING, NOTHING);
  }

  lemma {:induction false} SumByDayStep(moments: seq<Moment>, days: nat, providerMode: bool)
    requires moments != []
    ensures var front, last := moments[..|moments| - 1], moments[|moments| - 1];
            var more := if 0 <= last.dayIndex < days then CountOne(last, providerMode) else NOTHING;
            SumByDay(moments, days, providerMode) == SumByDay(front, days, providerMode).Plus(more)
  {
    hide CountOne, TotalsOf, OnDay, Totals.Plus;
    var front, last := moments[..|moments| - 1], moments[|moments| - 1];
    if days == 0 {
      PlusRegroups(NOTHING, NOTHING, NOTHING);
    } else {
      SumByDayStep(moments, days - 1, providerMode);
      DayStep(moments, days - 1, providerMode);
      var sum, day := SumByDay(front, days - 1, providerMode), TotalsOf(OnDay(front, days - 1), providerMode);
      Regroup(sum, if 0 <= last.dayIndex < days - 1 then CountOne(last, providerMode) else NOTHING, day,
              if last.dayIndex == days - 1 then CountOne(last, providerMode) else NOTHING);
    }
  }

  lemma Regroup(a: Totals, x: Totals, b: Totals, y: Totals)
    requires x == NOTHING || y == NOTHING
    ensures a.Plus(x).Plus(b.Plus(y)) == a.Plus(b).Plus(if x == NOTHING then y else x)
  {}

  lemma {:induction false} SumByPersonStep(moments: seq<Moment>, agents: seq<string>, providerMode: bool)
    requires moments != [] && Distinct(agents)
    ensures var front, last := moments[..|moments| - 1], moments[|moments| - 1];
            var more := if last.agentId in agents then CountOne(last, providerMode) else NOTHING;
            SumByPerson(moments, agents, providerMode) == SumByPerson(front, agents, providerMode).Plus(more)
  {
    hide CountOne, TotalsOf, OfPerson, Totals.Plus;
    var front, last := moments[..|moments| - 1], moments[|moments| - 1];
    if agents == [] {
      PlusRegroups(NOTHING, NOTHING, NOTHING);
    } else {
      var k := |agents| - 1;
      assert agents == agents[..k] + [agents[k]];
      SumByPersonStep(moments, agents[..k], providerMode);
      PersonStep(moments, agents[k], providerMode);
      var sum, own := SumByPerson(front, agents[..k], providerMode), TotalsOf(OfPerson(front, agents[k]), providerMode);
      Regroup(sum, if last.agentId in agents[..k] then CountOne(last, providerMode) else NOTHING, own,
              if last.agentId == agents[k] then CountOne(last, providerMode) else NOTHING);
    }
  }

  lemma {:induction false} NoDaysOfNothing(days: nat, providerMode: bool)
    ensures SumByDay([], days, providerMode) == NOTHING
  {
    if days > 0 {
      NoDaysOfNothing(days - 1, providerMode);
    }
  }

  lemma {:induction false} NobodysNothing(agents: seq<string>, providerMode: bool)
    ensures SumByPerson([], agents, providerMode) == NOTHING
  {
    hide OfPerson, TotalsOf, Totals.Plus;
    if agents != [] {
      var front := agents[..|agents| - 1];
      NobodysNothing(front, providerMode);
      OwnsNothing(agents[|agents| - 1], providerMode);
      PlusRegroups(NOTHING, NOTHING, NOTHING);
    }
  }

  lemma OwnsNothing(agentId: string, providerMode: bool)
    ensures TotalsOf(OfPerson([], agentId), providerMode) == NOTHING
  {}

  /** Grouped by day or by person, the moments add up to the same totals: those of the whole run. */
  lemma {:induction false} GroupingsAgree(moments: seq<Moment>, days: nat, agents: seq<string>, providerMode: bool)
    requires Distinct(agents) && forall m <- moments :: 0 <= m.dayIndex < days && m.agentId in agents
    ensures SumByDay(moments, days, providerMode) == SumByPerson(moments, agents, providerMode) ==
              TotalsOf(moments, providerMode)
  {
    hide CountOne, SumByDay, SumByPerson;
    if moments == [] {
      NoDaysOfNothing(days, providerMode);
      NobodysNothing(agents, providerMode);
    } else {
      var front, last := moments[..|moments| - 1], moments[|moments| - 1];
      assert forall m <- front :: m in moments;
      GroupingsAgree(front, days, agents, providerMode);
      SumByDayStep(moments, days, providerMode);
      SumByPersonStep(moments, agents, providerMode);
      assert last in moments;
    }
  }

  // --- The loops ---

  function Reported(t: Totals, providerMode: bool): Totals {
    if providerMode then t else t.(sent := 0)
  }

  /** Outside the provider modes nothing counts as sent, whichever way it is left out. */
  lemma {:induction false} ReportedTotals(moments: seq<Moment>, providerMode: bool)
    ensures TotalsOf(moments, providerMode) == Reported(TotalsOf(moments, true), providerMode)
  {
    if moments != [] {
      ReportedTotals(moments[..|moments| - 1], providerMode);
    }
  }

  /** Everything is counted, and what was sent is left out at the end unless a provider was asked. */
  method CountMoments(moments: seq<Moment>, providerMode: bool) returns (t: Totals)
    ensures t == TotalsOf(moments, providerMode)
  {
    t := NOTHING;
    for k := 0 to |moments|
      invariant t == TotalsOf(moments[..k], true)
    {
      assert moments[..k + 1][..k] == moments[..k];
      t := t.Plus(CountOne(moments[k], true));
    }
    assert moments[..|moments|] == moments;
    ReportedTotals(moments, providerMode);
    if !providerMode {
      t := t.(sent := 0);
    }
  }

  /** What a day's row shows. */
  datatype DayRow = DayRow(shown: nat, noticed: nat, chosen: nat, used: nat, notChosen: nat)

  function RowOf(t: Totals): DayRow {
    DayRow(t.shown, t.noticed, t.chosen, t.used, t.notChosen)
  }

  /** The row with one more moment of its day. */
  function RowAnd(row: DayRow, m: Moment): DayRow {
    DayRow(row.shown + 1, row.noticed + One(m.noticed), row.chosen + One(m.hasTerminal),
           row.used + One(m.status in {Answered, Reused, Practice}), row.notChosen + One(m.status == NotChosen))
  }

  lemma RowStep(t: Totals, m: Moment)
    ensures RowOf(t.Plus(CountOne(m, true))) == RowAnd(RowOf(t), m)
  {}

  lemma {:induction false} SuchOnDay(moments: seq<Moment>, day: int, such: Moment -> bool, suchThen: Moment -> bool)
    requires forall m :: suchThen(m) <==> m.dayIndex == day && such(m)
    ensures HowMany(OnDay(moments, day), such) == HowMany(moments, suchThen)
  {
    hide HowMany;
    if moments == [] {
      NoneSuch(such);
      NoneSuch(suchThen);
    } else {
      var front, last := moments[..|moments| - 1], moments[|moments| - 1];
      assert moments == front + [last];
      SuchOnDay(front, day, such, suchThen);
      OneMoreSuch(front, last, suchThen);
      OneMoreSuch(OnDay(front, day), last, such);
      assert OnDay(front, day) + [] == OnDay(front, day);
    }
  }

  lemma NoneSuch(such: Moment -> bool)
    ensures HowMany([], such) == 0
  {}

  /** The row counts the day's moments. */
  ghost predicate CountsDay(row: DayRow, moments: seq<Moment>, day: int) {
    && row.shown == HowMany(moments, (m: Moment) => m.dayIndex == day)
    && row.noticed == HowMany(moments, (m: Moment) => m.dayIndex == day && m.noticed)
    && row.chosen == HowMany(moments, (m: Moment) => m.dayIndex == day && m.hasTerminal)
    && row.used == HowMany(moments, (m: Moment) => m.dayIndex == day
                                                         && (m.status == Answered || m.status == Reused
                                                             || m.status == Practice))
    && row.notChosen == HowMany(moments, (m: Moment) => m.dayIndex == day && m.status == NotChosen)
  }

  lemma DayRowCounts(moments: seq<Moment>, day: int)
    ensures CountsDay(RowOf(TotalsOf(OnDay(moments, day), true)), moments, day)
  {
    hide HowMany, OnDay, TotalsOf;
    var own := OnDay(moments, day);
    TotalsCount(own, true);
    ShownSuch(own);
    SuchOnDay(moments, day, (m: Moment) => true, (m: Moment) => m.dayIndex == day);
    SuchOnDay(moments, day, (m: Moment) => m.noticed, (m: Moment) => m.dayIndex == day && m.noticed);
    SuchOnDay(moments, day, (m: Moment) => m.hasTerminal, (m: Moment) => m.dayIndex == day && m.hasTerminal);
    SuchOnDay(moments, day, (m: Moment) => m.status == Answered || m.status == Reused || m.status == Practice,
              (m: Moment) => m.dayIndex == day && (m.status == Answered || m.status == Reused || m.status == Practice));
    SuchOnDay(moments, day, (m: Moment) => m.status == NotChosen,
              (m: Moment) => m.dayIndex == day && m.status == NotChosen);
  }

  lemma {:induction false} ShownSuch(moments: seq<Moment>)
    ensures HowMany(moments, (m: Moment) => true) == |moments|
  {
    hide HowMany;
    if moments == [] {
      NoneSuch((m: Moment) => true);
    } else {
      var front, last := moments[..|moments| - 1], moments[|moments| - 1];
      assert moments == front + [last];
      ShownSuch(front);
      OneMoreSuch(front, last, (m: Moment) => true);
    }
  }

  lemma NoMomentsNoRows(days: nat)
    ensures forall d :: 0 <= d < days ==> RowOf(TotalsOf(OnDay([], d), true)) == DayRow(0, 0, 0, 0, 0)
  {}

  /** One row for each day of the run, with that day's totals; a moment outside them makes the evidence
      inconsistent. */
  method DayTotals(moments: seq<Moment>, days: nat) returns (r: Result<seq<DayRow>, StoryError>)
    ensures r.Success? <==> forall m <- moments :: 0 <= m.dayIndex < days
    ensures r.Success? ==>
              |r.value| == days && forall d :: 0 <= d < days ==> CountsDay(r.value[d], moments, d)
  {
    hide CountOne, TotalsOf, OnDay, Totals.Plus, RowOf, RowAnd, CountsDay;
    NoMomentsNoRows(days);
    var rows := seq(days, _ => DayRow(0, 0, 0, 0, 0));
    for k := 0 to |moments|
      invariant |rows| == days && forall m <- moments[..k] :: 0 <= m.dayIndex < days
      invariant forall d :: 0 <= d < days ==> rows[d] == RowOf(TotalsOf(OnDay(moments[..k], d), true))
    {
      var m := moments[k];
      if !(0 <= m.dayIndex < days) {
        return Failure(Inconsistent);
      }
      assert moments[..k + 1] == moments[..k] + [m] && moments[..k + 1][..k] == moments[..k];
      forall d | 0 <= d < days
        ensures RowOf(TotalsOf(OnDay(moments[..k + 1], d), true)) ==
                if d == m.dayIndex then RowAnd(rows[d], m) else rows[d]
      {
        var t := TotalsOf(OnDay(moments[..k], d), true);
        DayStep(moments[..k + 1], d, true);
        PlusRegroups(t, NOTHING, NOTHING);
        RowStep(t, m);
      }
      rows := rows[m.dayIndex := RowAnd(rows[m.dayIndex], m)];
    }
    assert moments[..|moments|] == moments;
    forall d | 0 <= d < days ensures CountsDay(rows[d], moments, d) {
      DayRowCounts(moments, d);
    }
    r := Success(rows);
  }
}
