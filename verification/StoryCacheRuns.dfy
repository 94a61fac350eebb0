/** Concurrent `get` calls on the verified-story cache, interleaved with changes of the run files. */
module StoryCacheRuns {
  import opened Results
  import opened StoryCache

  type Content = string

  /** How content is fingerprinted, and the story that is built from it. */
  datatype World = World(fingerprint: Content -> Fingerprint, build: Content -> Story)

  /** A fingerprint stands for one content. */
  ghost predicate Faithful(w: World) {
    forall c, d :: w.fingerprint(c) == w.fingerprint(d) ==> c == d
  }

  /** `from` is where in the call's history its load may begin. */
  datatype Phase =
    | Fingerprinted(before: Option<Fingerprint>)
    | Missed(before: Option<Fingerprint>, from: nat)
    | Built(before: Option<Fingerprint>, story: Story)
    | Confirmed(fingerprint: Fingerprint, story: Story)
    | Returned(story: Story, hit: bool)
    | Raised

  /** One call of `get`. `history` lists the contents its run has had since the call began, without
      repeating one that did not change; None means the files are missing. */
  datatype Call = Call(run: RunId, phase: Phase, history: seq<Option<Content>>) {
    predicate Active() {
      !phase.Returned? && !phase.Raised?
    }
  }

  /** `used` is the time at which a run's entry was last stored or hit. */
  datatype State = State(files: map<RunId, Content>, items: seq<Entry>, calls: map<nat, Call>, clock: nat,
                         used: map<RunId, nat>)

  datatype Step =
    | Begin(id: nat, run: RunId)
    | Lookup(id: nat)
    | Load(id: nat, story: Story)
    | LoadFails(id: nat)
    | Recheck(id: nat)
    | Store(id: nat)
    | Clear
    | Change(run: RunId, content: Option<Content>)

  function Current(s: State, run: RunId): Option<Content> {
    if run in s.files then Some(s.files[run]) else None
  }

  function Read(w: World, content: Option<Content>): Option<Fingerprint> {
    if content.Some? then Some(w.fingerprint(content.value)) else None
  }

  /** A load holds every file of the run and refuses those that changed while it held them, so the story it
      comes back with is that of one content the run has had since the load could begin. */
  predicate LoadAllows(w: World, history: seq<Option<Content>>, from: nat, story: Story) {
    exists i :: from <= i < |history| && history[i].Some? && story == w.build(history[i].value)
  }

  function Seen(c: Call, run: RunId, content: Option<Content>): Call {
    if c.run != run || c.history == [] || c.history[|c.history| - 1] == content then c
    else c.(history := c.history + [content])
  }

  predicate Enabled(w: World, s: State, step: Step) {
    match step
    case Begin(id, _) => id !in s.calls
    case Lookup(id) => id in s.calls && s.calls[id].phase.Fingerprinted?
    case Load(id, story) =>
      && id in s.calls && s.calls[id].phase.Missed?
      && LoadAllows(w, s.calls[id].history, s.calls[id].phase.from, story)
    case LoadFails(id) => id in s.calls && s.calls[id].phase.Missed?
    case Recheck(id) => id in s.calls && s.calls[id].phase.Built?
    case Store(id) => id in s.calls && s.calls[id].phase.Confirmed?
    case Clear => true
    case Change(_, _) => true
  }

  function WithPhase(s: State, id: nat, phase: Phase): State
    requires id in s.calls
  {
    s.(calls := s.calls[id := s.calls[id].(phase := phase)])
  }

  function After(w: World, limit: nat, s: State, step: Step): State
    requires Enabled(w, s, step)
  {
    match step
    case Begin(id, run) =>
      s.(calls := s.calls[id := Call(run, Fingerprinted(Read(w, Current(s, run))), [Current(s, run)])])
    case Lookup(id) =>
      var call := s.calls[id];
      var before := call.phase.before;
      if IsHit(s.items, call.run, before) then
        WithPhase(s, id, Returned(Find(s.items, call.run).value.story, true))
        .(items := AfterLookup(s.items, call.run, before), clock := s.clock + 1, used := s.used[call.run := s.clock])
      else
        var from := if call.history == [] then 0 else |call.history| - 1;
        WithPhase(s, id, Missed(before, from)).(items := AfterLookup(s.items, call.run, before))
    case Load(id, story) => WithPhase(s, id, Built(s.calls[id].phase.before, story))
    case LoadFails(id) => WithPhase(s, id, Raised)
    case Recheck(id) =>
      var call := s.calls[id];
      var before := call.phase.before;
      if before.Some? && Read(w, Current(s, call.run)) == before then
        WithPhase(s, id, Confirmed(before.value, call.phase.story))
      else WithPhase(s, id, Returned(call.phase.story, false))
    case Store(id) =>
      var call := s.calls[id];
      WithPhase(s, id, Returned(call.phase.story, false))
      .(items := AfterStore(s.items, Entry(call.run, call.phase.fingerprint, call.phase.story), limit),
        clock := s.clock + 1, used := s.used[call.run := s.clock])
    case Clear => s.(items := [])
    case Change(run, content) =>
      State(if content.Some? then s.files[run := content.value] else s.files - {run}, s.items,
            map id | id in s.calls :: Seen(s.calls[id], run, content), s.clock, s.used)
  }

  /** A change does not bring back a content that some call in progress has already seen. */
  ghost predicate NeverReturns(s: State, step: Step) {
    step.Change? && step.content != Current(s, step.run) ==>
      forall id <- s.calls :: s.calls[id].Active() && s.calls[id].run == step.run ==>
        step.content !in s.calls[id].history
  }

  /** The call may still cache a story that is not that of the content it fingerprinted: it has seen such a
      story's content since its load could begin, or it has loaded such a story. */
  ghost predicate AtRisk(w: World, c: Call) {
    && c.history != [] && c.history[0].Some?
    && match c.phase
       case Missed(_, from) =>
         exists story :: LoadAllows(w, c.history, from, story) && story != w.build(c.history[0].value)
       case Built(_, story) => story != w.build(c.history[0].value)
       case _ => false
  }

  /** A change is harmful when it brings the content back that a call at risk fingerprinted. */
  ghost predicate Harmful(w: World, s: State, step: Step) {
    && step.Change? && step.content != Current(s, step.run)
    && exists id ::
         && id in s.calls && s.calls[id].run == step.run
         && AtRisk(w, s.calls[id]) && s.calls[id].history[0] == step.content
  }

  // --- What every run keeps ---

  /** The story is the one built from the content the fingerprint stands for. */
  ghost predicate Right(w: World, fingerprint: Fingerprint, story: Story) {
    exists c :: w.fingerprint(c) == fingerprint && w.build(c) == story
  }

  ghost predicate CacheSound(w: World, limit: nat, s: State) {
    DistinctRuns(s.items) && |s.items| <= limit && forall e <- s.items :: Right(w, e.fingerprint, e.story)
  }

  /** Older entries come first; `used` is when a run's entry was last stored or hit. */
  ghost predicate Ordered(items: seq<Entry>, used: map<RunId, nat>, clock: nat) {
    && (forall e <- items :: e.run in used && used[e.run] < clock)
    && (forall i, j :: 0 <= i < j < |items| ==> used[items[i].run] < used[items[j].run])
  }

  ghost predicate RecentLast(s: State) {
    Ordered(s.items, s.used, s.clock)
  }

  /** A call that sees the content it fingerprinted is not at risk. */
  ghost predicate CallSound(w: World, s: State, c: Call) {
    && c.history != []
    && (c.Active() ==> c.history[|c.history| - 1] == Current(s, c.run))
    && (c.Active() && c.history[0] == Current(s, c.run) ==> !AtRisk(w, c))
    && match c.phase
       case Fingerprinted(before) => before == Read(w, c.history[0])
       case Missed(before, from) => before == Read(w, c.history[0]) && from < |c.history|
       case Built(before, story) => before == Read(w, c.history[0])
       case Confirmed(fingerprint, story) => Right(w, fingerprint, story)
       case Returned(story, hit) => hit ==> c.history[0].Some? && story == w.build(c.history[0].value)
       case Raised => true
  }

  ghost predicate Sound(w: World, limit: nat, s: State) {
    CacheSound(w, limit, s) && RecentLast(s) && forall id :: id in s.calls ==> CallSound(w, s, s.calls[id])
  }

  /** A hit returns the story of the very content whose fingerprint this call read. */
  lemma HitIsFresh(w: World, limit: nat, s: State, id: nat)
    requires Faithful(w) && CacheSound(w, limit, s) && id in s.calls && CallSound(w, s, s.calls[id])
    requires s.calls[id].phase.Fingerprinted?
    requires IsHit(s.items, s.calls[id].run, s.calls[id].phase.before)
    ensures var c := s.calls[id]; c.history[0].Some? && Find(s.items, c.run).value.story == w.build(c.history[0].value)
  {
    var c := s.calls[id];
    WithoutFacts(s.items, c.run);
    var e := Find(s.items, c.run).value;
    assert Right(w, e.fingerprint, e.story);
  }

  /** A recheck that passes sees the content that was fingerprinted, and then the story is that content's. */
  lemma RecheckConfirms(w: World, s: State, c: Call)
    requires Faithful(w) && CallSound(w, s, c) && c.phase.Built? && c.phase.before.Some?
    requires Read(w, Current(s, c.run)) == c.phase.before
    ensures Right(w, c.phase.before.value, c.phase.story)
  {
    assert c.history[0] == Current(s, c.run);
    var content := c.history[0].value;
    assert w.fingerprint(content) == c.phase.before.value && w.build(content) == c.phase.story;
  }

  lemma LookupKeeps(w: World, limit: nat, s: State, run: RunId, before: Option<Fingerprint>, s': State)
    requires CacheSound(w, limit, s) && RecentLast(s) && s'.items == AfterLookup(s.items, run, before)
    requires if IsHit(s.items, run, before) then s'.clock == s.clock + 1 && s'.used == s.used[run := s.clock]
             else s'.clock == s.clock && s'.used == s.used
    ensures CacheSound(w, limit, s') && RecentLast(s')
  {
    hide Right;
    WithoutFacts(s.items, run);
    WithoutKeepsOrder(s.items, run, s.used, s.clock);
    if IsHit(s.items, run, before) {
      TouchedFacts(s.items, Find(s.items, run).value);
      TouchKeepsOrder(s.items, Find(s.items, run).value, s.used, s.clock);
    }
  }

  lemma {:induction false} WithoutKeepsOrder(items: seq<Entry>, run: RunId, used: map<RunId, nat>, clock: nat)
    requires DistinctRuns(items) && Ordered(items, used, clock)
    ensures Ordered(Without(items, run), used, clock)
  {
    if items != [] {
      var rest := items[1..];
      assert items == [items[0]] + rest;
      RestOrdered(items, used, clock);
      hide Ordered;
      WithoutKeepsOrder(rest, run, used, clock);
      WithoutFacts(rest, run);
      if items[0].run != run {
        PrependOldest(items[0], Without(rest, run), used, clock);
      }
    }
  }

  lemma RestOrdered(items: seq<Entry>, used: map<RunId, nat>, clock: nat)
    requires Ordered(items, used, clock) && items != []
    ensures Ordered(items[1..], used, clock) && items[0].run in used && used[items[0].run] < clock
    ensures forall e <- items[1..] :: e.run in used && used[items[0].run] < used[e.run]
  {}

  lemma PrependOldest(e: Entry, items: seq<Entry>, used: map<RunId, nat>, clock: nat)
    requires Ordered(items, used, clock) && e.run in used && used[e.run] < clock
    requires forall x <- items :: x.run in used && used[e.run] < used[x.run]
    ensures Ordered([e] + items, used, clock)
  {
    assert forall i :: 0 <= i < |items| ==> items[i] in items;
  }

  lemma TouchKeepsOrder(items: seq<Entry>, e: Entry, used: map<RunId, nat>, clock: nat)
    requires DistinctRuns(items) && Ordered(items, used, clock)
    ensures Ordered(Touched(items, e), used[e.run := clock], clock + 1)
  {
    WithoutKeepsOrder(items, e.run, used, clock);
    WithoutFacts(items, e.run);
    var rest := Without(items, e.run);
    assert forall i :: 0 <= i < |rest| ==> rest[i] in rest;
  }

  lemma StoreKeeps(w: World, limit: nat, s: State, e: Entry, s': State)
    requires CacheSound(w, limit, s) && RecentLast(s) && Right(w, e.fingerprint, e.story)
    requires s'.items == AfterStore(s.items, e, limit) && s'.clock == s.clock + 1 && s'.used == s.used[e.run := s.clock]
    ensures CacheSound(w, limit, s') && RecentLast(s')
  {
    hide Right;
    TouchedFacts(s.items, e);
    TouchKeepsOrder(s.items, e, s.used, s.clock);
    EvictedFacts(Touched(s.items, e), limit, s'.used, s'.clock);
  }

  /** Eviction keeps the most recent entries; whatever it drops was used before everything it keeps. */
  lemma EvictedFacts(items: seq<Entry>, limit: nat, used: map<RunId, nat>, clock: nat)
    requires DistinctRuns(items) && Ordered(items, used, clock)
    ensures DistinctRuns(Evicted(items, limit)) && Ordered(Evicted(items, limit), used, clock)
            && |Evicted(items, limit)| <= limit
    ensures forall e <- Evicted(items, limit) :: e in items
    ensures forall dropped, kept ::
              dropped in items && dropped !in Evicted(items, limit) && kept in Evicted(items, limit) ==>
              used[dropped.run] < used[kept.run]
  {
    hide DistinctRuns, Ordered;
    var n: nat := if |items| <= limit then 0 else |items| - limit;
    assert Evicted(items, limit) == items[n..];
    SuffixOrdered(items, n, used, clock);
    forall dropped, kept | dropped in items && dropped !in items[n..] && kept in items[n..]
      ensures dropped.run in used && kept.run in used && used[dropped.run] < used[kept.run]
    {
      DroppedEarlier(items, n, used, clock, dropped, kept);
    }
  }

  lemma SuffixOrdered(items: seq<Entry>, n: nat, used: map<RunId, nat>, clock: nat)
    requires n <= |items| && DistinctRuns(items) && Ordered(items, used, clock)
    ensures DistinctRuns(items[n..]) && Ordered(items[n..], used, clock)
  {}

  lemma DroppedEarlier(items: seq<Entry>, n: nat, used: map<RunId, nat>, clock: nat, dropped: Entry, kept: Entry)
    requires n <= |items| && Ordered(items, used, clock)
    requires dropped in items && dropped !in items[n..] && kept in items[n..]
    ensures dropped.run in used && kept.run in used && used[dropped.run] < used[kept.run]
  {
    var i: nat :| i < |items| && items[i] == dropped;
    var j: nat :| j < |items[n..]| && items[n..][j] == kept;
    assert items[j + n] == kept;
    if i >= n {
      StillThere(items, n, i);
    }
  }

  lemma StillThere(items: seq<Entry>, n: nat, i: nat)
    requires n <= i < |items|
    ensures items[i] in items[n..]
  {
    assert items[n..][i - n] == items[i];
  }

  /** A call that has more to look back on is at risk if it was, and otherwise only through what it saw last. */
  lemma SeenRisk(w: World, c: Call, content: Option<Content>)
    requires c.history != []
    ensures AtRisk(w, c.(history := c.history + [content])) && content == c.history[0] ==> AtRisk(w, c)
  {
    var more := c.(history := c.history + [content]);
    if content == c.history[0] {
      if more.phase.Missed? && AtRisk(w, more) {
        var from := c.phase.from;
        var story :| LoadAllows(w, more.history, from, story) && story != w.build(c.history[0].value);
        var i :| from <= i < |more.history| && more.history[i].Some? && story == w.build(more.history[i].value);
        assert i != |c.history|;
        assert c.history[i] == more.history[i];
        assert LoadAllows(w, c.history, from, story);
      }
    }
  }

  lemma ChangeKeepsCall(w: World, limit: nat, s: State, run: RunId, content: Option<Content>, id: nat)
    requires id in s.calls && CallSound(w, s, s.calls[id]) && !Harmful(w, s, Change(run, content))
    ensures CallSound(w, After(w, limit, s, Change(run, content)), Seen(s.calls[id], run, content))
  {
    hide Right, LoadAllows;
    var c, s' := s.calls[id], After(w, limit, s, Change(run, content));
    if c.run == run {
      assert Current(s', run) == content;
      var seen := Seen(c, run, content);
      assert seen.history[0] == c.history[0];
      SeenRisk(w, c, content);
    } else {
      assert Current(s', c.run) == Current(s, c.run);
    }
  }

  /** A step of one call leaves every other call sound. */
  lemma OtherCallsKeep(w: World, s: State, s': State, id: nat)
    requires s'.files == s.files && id in s'.calls && s'.calls == s.calls[id := s'.calls[id]]
    requires CallSound(w, s', s'.calls[id]) && forall other <- s.calls :: CallSound(w, s, s.calls[other])
    ensures forall other <- s'.calls :: CallSound(w, s', s'.calls[other])
  {
    hide Right, Faithful, LoadAllows;
  }

  lemma LookupKeepsCall(w: World, limit: nat, s: State, id: nat)
    requires Faithful(w) && CacheSound(w, limit, s) && Enabled(w, s, Lookup(id)) && CallSound(w, s, s.calls[id])
    ensures var s' := After(w, limit, s, Lookup(id)); CallSound(w, s', s'.calls[id])
  {
    hide Right, Faithful, CacheSound;
    if IsHit(s.items, s.calls[id].run, s.calls[id].phase.before) {
      HitIsFresh(w, limit, s, id);
    }
  }

  lemma RecheckKeepsCall(w: World, limit: nat, s: State, id: nat)
    requires Faithful(w) && Enabled(w, s, Recheck(id)) && CallSound(w, s, s.calls[id])
    ensures var s' := After(w, limit, s, Recheck(id)); CallSound(w, s', s'.calls[id])
  {
    hide Right, Faithful;
    var c := s.calls[id];
    if c.phase.before.Some? && Read(w, Current(s, c.run)) == c.phase.before {
      RecheckConfirms(w, s, c);
    }
  }

  /** The other steps of a call keep it sound by themselves. */
  lemma PlainKeepsCall(w: World, limit: nat, s: State, step: Step)
    requires Enabled(w, s, step) && (step.Begin? || step.Load? || step.LoadFails? || step.Store?)
    requires !step.Begin? ==> CallSound(w, s, s.calls[step.id])
    ensures var s' := After(w, limit, s, step); CallSound(w, s', s'.calls[step.id])
  {
    hide Right, AfterStore, Find, IsHit;
  }

  /** A step's effect on the cache alone. */
  lemma StepKeepsCache(w: World, limit: nat, s: State, step: Step)
    requires CacheSound(w, limit, s) && RecentLast(s) && Enabled(w, s, step)
    requires step.Store? ==> CallSound(w, s, s.calls[step.id])
    ensures CacheSound(w, limit, After(w, limit, s, step)) && RecentLast(After(w, limit, s, step))
  {
    hide Right, RecentLast, CacheSound, Seen;
    var s' := After(w, limit, s, step);
    match step {
      case Lookup(id) =>
        LookupKeeps(w, limit, s, s.calls[id].run, s.calls[id].phase.before, s');
      case Store(id) =>
        var c := s.calls[id];
        StoreKeeps(w, limit, s, Entry(c.run, c.phase.fingerprint, c.phase.story), s');
      case Clear =>
        NothingCached(w, limit, s');
      case _ =>
        ItemsSame(w, limit, s, s');
    }
  }

  /** A step of a call changes that call only, and no file. */
  lemma StepTouches(w: World, limit: nat, s: State, step: Step)
    requires Enabled(w, s, step) && !step.Clear? && !step.Change?
    ensures var s' := After(w, limit, s, step);
            s'.files == s.files && step.id in s'.calls && s'.calls == s.calls[step.id := s'.calls[step.id]]
  {
    hide AfterStore, AfterLookup, Find, IsHit, Read;
  }

  /** No step, of any call or of the files, breaks the cache, unless it is a harmful change. */
  lemma StepKeeps(w: World, limit: nat, s: State, step: Step)
    requires Faithful(w) && Sound(w, limit, s) && Enabled(w, s, step) && !Harmful(w, s, step)
    ensures Sound(w, limit, After(w, limit, s, step))
  {
    hide Faithful, RecentLast, CacheSound, Harmful, CallSound, After;
    StepKeepsCache(w, limit, s, step);
    match step {
      case Clear =>
        ClearKeepsCalls(w, limit, s);
      case Change(run, content) =>
        ChangeKeeps(w, limit, s, run, content);
      case Lookup(id) =>
        LookupKeepsCall(w, limit, s, id);
        StepTouches(w, limit, s, step);
        OtherCallsKeep(w, s, After(w, limit, s, step), id);
      case Recheck(id) =>
        RecheckKeepsCall(w, limit, s, id);
        StepTouches(w, limit, s, step);
        OtherCallsKeep(w, s, After(w, limit, s, step), id);
      case _ =>
        PlainKeepsCall(w, limit, s, step);
        StepTouches(w, limit, s, step);
        OtherCallsKeep(w, s, After(w, limit, s, step), step.id);
    }
  }

  lemma ClearKeepsCalls(w: World, limit: nat, s: State)
    requires forall id <- s.calls :: CallSound(w, s, s.calls[id])
    ensures var s' := After(w, limit, s, Clear); forall id <- s'.calls :: CallSound(w, s', s'.calls[id])
  {
    hide Right;
  }

  lemma ChangeKeeps(w: World, limit: nat, s: State, run: RunId, content: Option<Content>)
    requires Sound(w, limit, s) && !Harmful(w, s, Change(run, content))
    ensures Sound(w, limit, After(w, limit, s, Change(run, content)))
  {
    hide Right, RecentLast, CacheSound, Ordered, CallSound, Harmful;
    var s' := After(w, limit, s, Change(run, content));
    ItemsSame(w, limit, s, s');
    forall id | id in s'.calls ensures CallSound(w, s', s'.calls[id]) {
      ChangeKeepsCall(w, limit, s, run, content, id);
    }
  }

  lemma ItemsSame(w: World, limit: nat, s: State, s': State)
    requires CacheSound(w, limit, s) && RecentLast(s) && s'.items == s.items && s'.clock == s.clock && s'.used == s.used
    ensures CacheSound(w, limit, s') && RecentLast(s')
  {}

  lemma NothingCached(w: World, limit: nat, s: State)
    requires s.items == []
    ensures CacheSound(w, limit, s) && RecentLast(s)
  {}

  // --- Whole runs ---

  function Initial(files: map<RunId, Content>): State {
    State(files, [], map[], 0, map[])
  }

  lemma InitialSound(w: World, limit: nat, files: map<RunId, Content>)
    ensures Sound(w, limit, Initial(files))
  {}

  /** The states a sequence of steps passes through, each step enabled and no change harmful. */
  ghost predicate IsRun(w: World, limit: nat, states: seq<State>, steps: seq<Step>) {
    && |states| == |steps| + 1
    && forall i :: 0 <= i < |steps| ==>
         Enabled(w, states[i], steps[i]) && !Harmful(w, states[i], steps[i])
         && states[i + 1] == After(w, limit, states[i], steps[i])
  }

  /** In every interleaving, in every state: the cache holds at most `limit` entries, each one right. */
  lemma {:induction false} EveryRunSound(w: World, limit: nat, states: seq<State>, steps: seq<Step>, k: nat)
    requires Faithful(w) && IsRun(w, limit, states, steps) && k < |states|
    requires states[0] == Initial(states[0].files)
    ensures Sound(w, limit, states[k])
  {
    if k > 0 {
      hide Sound, Faithful, Harmful;
      EveryRunSound(w, limit, states, steps, k - 1);
      StepKeeps(w, limit, states[k - 1], steps[k - 1]);
    } else {
      InitialSound(w, limit, states[0].files);
    }
  }

  /** As long as no content returns within a call, no change is harmful. */
  lemma NeverReturnsIsHarmless(w: World, limit: nat, s: State, step: Step)
    requires Sound(w, limit, s) && NeverReturns(s, step)
    ensures !Harmful(w, s, step)
  {
    hide CacheSound, RecentLast, LoadAllows;
    if step.Change? && step.content != Current(s, step.run) {
      forall id | id in s.calls && s.calls[id].run == step.run && AtRisk(w, s.calls[id])
        ensures s.calls[id].history[0] != step.content
      {
        assert s.calls[id].Active();
        assert s.calls[id].history[0] in s.calls[id].history;
      }
    }
  }

  // --- Why harmful changes must be kept out ---

  /** Where the steps lead, if each is enabled when its turn comes. */
  function Reached(w: World, limit: nat, s: State, steps: seq<Step>): Option<State>
    decreases |steps|
  {
    if steps == [] then Some(s)
    else if Enabled(w, s, steps[0]) then Reached(w, limit, After(w, limit, s, steps[0]), steps[1..])
    else None
  }

  lemma ReachedFirst(w: World, limit: nat, s: State, step: Step, rest: seq<Step>)
    requires Enabled(w, s, step)
    ensures Reached(w, limit, s, [step] + rest) == Reached(w, limit, After(w, limit, s, step), rest)
  {
    assert ([step] + rest)[1..] == rest;
  }

  ghost predicate NoChange(steps: seq<Step>) {
    forall step <- steps :: !step.Change?
  }

  /** The steps lead to a wrong entry. */
  ghost predicate Breaks(w: World, limit: nat, s: State, steps: seq<Step>) {
    Reached(w, limit, s, steps).Some? && !CacheSound(w, limit, Reached(w, limit, s, steps).value)
  }

  lemma BreaksFirst(w: World, limit: nat, s: State, step: Step, rest: seq<Step>)
    requires Enabled(w, s, step) && Breaks(w, limit, After(w, limit, s, step), rest)
    ensures Breaks(w, limit, s, [step] + rest)
  {
    hide Enabled, After, CacheSound;
    ReachedFirst(w, limit, s, step, rest);
  }

  /** A wrong entry that is stored stays in a cache with room for one. */
  lemma StoreBreaks(w: World, limit: nat, s: State, id: nat, content: Content)
    requires Faithful(w) && limit >= 1 && id in s.calls
    requires s.calls[id].phase.Confirmed? && s.calls[id].phase.fingerprint == w.fingerprint(content)
    requires s.calls[id].phase.story != w.build(content)
    ensures Enabled(w, s, Store(id)) && !CacheSound(w, limit, After(w, limit, s, Store(id)))
    ensures Breaks(w, limit, s, [Store(id)])
  {
    var e := Entry(s.calls[id].run, w.fingerprint(content), s.calls[id].phase.story);
    var items := After(w, limit, s, Store(id)).items;
    assert items[|items| - 1] == e;
    assert !Right(w, e.fingerprint, e.story);
    assert [Store(id)][1..] == [];
  }

  /** A call at risk that sees the content it fingerprinted again. */
  ghost predicate Exposed(w: World, s: State, id: nat) {
    && id in s.calls && AtRisk(w, s.calls[id]) && s.calls[id].history[0] == Current(s, s.calls[id].run)
    && s.calls[id].phase.before == Read(w, s.calls[id].history[0])
  }

  /** Once it has loaded another story, the recheck passes and that story is cached. */
  lemma BuiltBreaks(w: World, limit: nat, s: State, id: nat)
    requires Faithful(w) && limit >= 1 && Exposed(w, s, id) && s.calls[id].phase.Built?
    ensures Breaks(w, limit, s, [Recheck(id)] + [Store(id)])
  {
    hide CacheSound, Breaks, Faithful;
    var next := After(w, limit, s, Recheck(id));
    StoreBreaks(w, limit, next, id, s.calls[id].history[0].value);
    BreaksFirst(w, limit, s, Recheck(id), [Store(id)]);
  }

  /** An exposed call caches a wrong story by steps of its own. */
  lemma ExposedBreaks(w: World, limit: nat, s: State, id: nat) returns (steps: seq<Step>)
    requires Faithful(w) && limit >= 1 && Exposed(w, s, id)
    ensures NoChange(steps) && Breaks(w, limit, s, steps)
  {
    hide CacheSound, Breaks, Faithful;
    var c := s.calls[id];
    steps := [Recheck(id)] + [Store(id)];
    if c.phase.Missed? {
      var story :| LoadAllows(w, c.history, c.phase.from, story) && story != w.build(c.history[0].value);
      BuiltBreaks(w, limit, After(w, limit, s, Load(id, story)), id);
      BreaksFirst(w, limit, s, Load(id, story), steps);
      steps := [Load(id, story)] + steps;
    } else {
      BuiltBreaks(w, limit, s, id);
    }
  }

  /** Once the change that endangers the cache has been made, no further change is needed. */
  lemma HarmfulExposes(w: World, limit: nat, s: State, step: Step) returns (id: nat)
    requires Sound(w, limit, s) && Harmful(w, s, step)
    ensures Exposed(w, After(w, limit, s, step), id)
  {
    hide CacheSound, RecentLast, LoadAllows;
    id :|
      && id in s.calls && s.calls[id].run == step.run && AtRisk(w, s.calls[id])
      && s.calls[id].history[0] == step.content;
    var c, s' := s.calls[id], After(w, limit, s, step);
    assert Current(s', c.run) == step.content;
    RiskStays(w, c, step.content);
  }

  /** Seeing more contents takes no risk away. */
  lemma RiskStays(w: World, c: Call, content: Option<Content>)
    requires AtRisk(w, c)
    ensures AtRisk(w, c.(history := c.history + [content]))
  {
    var more := c.(history := c.history + [content]);
    if c.phase.Missed? {
      var from := c.phase.from;
      var story :| LoadAllows(w, c.history, from, story) && story != w.build(c.history[0].value);
      var i :| from <= i < |c.history| && c.history[i].Some? && story == w.build(c.history[i].value);
      assert more.history[i] == c.history[i];
      assert LoadAllows(w, more.history, from, story);
    }
  }

  /** From a sound state, steps without a change keep the cache sound. */
  lemma {:induction false} StillSound(w: World, limit: nat, s: State, steps: seq<Step>)
    requires Faithful(w) && Sound(w, limit, s) && NoChange(steps) && Reached(w, limit, s, steps).Some?
    ensures Sound(w, limit, Reached(w, limit, s, steps).value)
    decreases |steps|
  {
    hide Sound, Faithful, After, Enabled;
    if steps != [] {
      assert !steps[0].Change?;
      StepKeeps(w, limit, s, steps[0]);
      assert NoChange(steps[1..]);
      StillSound(w, limit, After(w, limit, s, steps[0]), steps[1..]);
    }
  }

  /** Whether a change endangers the cache can be told when it is made: after it, the calls in progress can
      lead to a wrong entry without any further change, exactly when it is harmful. */
  lemma HarmfulExactly(w: World, limit: nat, s: State, step: Step)
    requires Faithful(w) && limit >= 1 && Sound(w, limit, s) && Enabled(w, s, step)
    ensures Harmful(w, s, step) <==>
              exists steps :: NoChange(steps) && Breaks(w, limit, After(w, limit, s, step), steps)
  {
    hide Faithful, CacheSound, RecentLast, CallSound, Enabled, After, Harmful, Exposed, NoChange, Reached;
    var s' := After(w, limit, s, step);
    if Harmful(w, s, step) {
      var id := HarmfulExposes(w, limit, s, step);
      var steps := ExposedBreaks(w, limit, s', id);
    } else {
      StepKeeps(w, limit, s, step);
      forall steps | NoChange(steps) ensures !Breaks(w, limit, s', steps) {
        if Reached(w, limit, s', steps).Some? {
          StillSound(w, limit, s', steps);
        }
      }
    }
  }

  /** Whenever a call has missed and the run now has a content with another story than the one fingerprinted,
      loading now and changing the content back leaves that other story behind under the wrong fingerprint. */
  lemma ReturnBreaks(w: World, limit: nat, s: State, id: nat, c: Content, d: Content)
    requires Faithful(w) && limit >= 1 && Sound(w, limit, s) && id in s.calls
    requires s.calls[id].phase.Missed? && s.calls[id].phase.before == Some(w.fingerprint(c))
    requires Current(s, s.calls[id].run) == Some(d) && w.build(d) != w.build(c)
    ensures Breaks(
              w, limit, s,
              [Load(id, w.build(d))] + ([Change(s.calls[id].run, Some(c))] + ([Recheck(id)] + [Store(id)])))
  {
    hide CacheSound, RecentLast, Breaks, Harmful;
    var call := s.calls[id];
    var load, back := Load(id, w.build(d)), Change(call.run, Some(c));
    assert call.history[|call.history| - 1] == Some(d);
    assert LoadAllows(w, call.history, call.phase.from, w.build(d));
    var loaded := After(w, limit, s, load);
    var returned := After(w, limit, loaded, back);
    assert Current(returned, call.run) == Some(c);
    assert returned.calls[id].history[0] == Some(c);
    BuiltBreaks(w, limit, returned, id);
    BreaksFirst(w, limit, loaded, back, [Recheck(id)] + [Store(id)]);
    BreaksFirst(w, limit, s, load, [back] + ([Recheck(id)] + [Store(id)]));
  }

  /** So for any two contents with different stories there is such a run from the start. */
  lemma ReturningContentBreaksCache(w: World, limit: nat, run: RunId, c: Content, d: Content)
    requires Faithful(w) && limit >= 1 && w.build(c) != w.build(d)
    ensures exists steps :: Breaks(w, limit, Initial(map[run := c]), steps)
  {
    hide Breaks, Reached, Sound, Faithful;
    var s0 := Initial(map[run := c]);
    var s1 := After(w, limit, s0, Begin(0, run));
    var s2 := After(w, limit, s1, Lookup(0));
    var s3 := After(w, limit, s2, Change(run, Some(d)));
    InitialSound(w, limit, map[run := c]);
    StepKeeps(w, limit, s0, Begin(0, run));
    StepKeeps(w, limit, s1, Lookup(0));
    assert s2.calls[0] == Call(run, Missed(Some(w.fingerprint(c)), 0), [Some(c)]);
    StepKeeps(w, limit, s2, Change(run, Some(d)));
    ReturnBreaks(w, limit, s3, 0, c, d);
    var rest := [Load(0, w.build(d))] + ([Change(run, Some(c))] + ([Recheck(0)] + [Store(0)]));
    BreaksFirst(w, limit, s2, Change(run, Some(d)), rest);
    BreaksFirst(w, limit, s1, Lookup(0), [Change(run, Some(d))] + rest);
    BreaksFirst(w, limit, s0, Begin(0, run), [Lookup(0)] + ([Change(run, Some(d))] + rest));
  }
}
