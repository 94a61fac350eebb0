/** Whole runs of competing savers of one run identifier, and what a loader finds after them. */
module RunSaverRuns {
  import opened Results
  import opened RunStreams
  import opened RunSavers

  /** A run: it starts with no directory, and each state comes from the one before by one step. */
  ghost predicate Run(states: seq<State>, steps: seq<Step>) {
    && |states| == |steps| + 1
    && states[0] == Init()
    && forall i :: 0 <= i < |steps| ==> Enabled(states[i], steps[i]) && states[i + 1] == After(states[i], steps[i])
  }

  datatype Found = NotFound | Incomplete | Manifest(bytes: Bytes)

  /** How far a loader gets before it reads any evidence: without `run.json` it refuses. */
  function Load(d: Disk): Found {
    if d.owner.None? then NotFound
    else if !d.inputs || d.run.None? then Incomplete
    else Manifest(d.run.value.manifest)
  }

  lemma {:induction false} EveryRunSound(states: seq<State>, steps: seq<Step>, i: nat)
    requires Run(states, steps) && i < |states|
    ensures Sound(states[i])
  {
    if i == 0 {
      InitSound();
    } else {
      EveryRunSound(states, steps, i - 1);
      StepKeeps(states[i - 1], steps[i - 1]);
    }
  }

  /** What a step cannot undo: who made the directory, what `run.json` says, what a saver is saving. */
  ghost predicate Later(s: State, s': State) {
    && (s.disk.owner.Some? ==> s'.disk.owner == s.disk.owner)
    && (s.disk.run.Some? ==> s'.disk.run == s.disk.run)
    && (forall id <- s.savers :: id in s'.savers && s'.savers[id].job == s.savers[id].job)
    && (forall id <- s.savers :: s.savers[id].phase.Failed? || s.savers[id].phase.Refused? ==>
        s'.savers[id] == s.savers[id])
  }

  lemma StepLater(s: State, step: Step)
    requires Enabled(s, step)
    ensures Later(s, After(s, step))
  {
    hide WRITE_ORDER, INPUT_NAMES, OUTPUT_NAMES, Acted, Disturbed;
    match step {
      case Begin(_, _) =>
      case Saving(id, act) => ActedDisk(s.disk, id, s.savers[id], act);
      case Outside(name, content) =>
        assert Disturbed(s.disk, name, content).owner == s.disk.owner by { DisturbedDisk(s.disk, name, content); }
        DisturbedDisk(s.disk, name, content);
    }
  }

  lemma DisturbedDisk(d: Disk, name: Sidecar, content: Option<Bytes>)
    ensures Disturbed(d, name, content).owner == d.owner && Disturbed(d, name, content).run == d.run
  {}

  /** `run.json` is never overwritten or removed by a saver, and the directory never changes hands. */
  lemma {:induction false} NeverUndone(states: seq<State>, steps: seq<Step>, i: nat, j: nat)
    requires Run(states, steps) && i <= j < |states|
    ensures Later(states[i], states[j])
    decreases j
  {
    hide Enabled, After;
    if i < j {
      NeverUndone(states, steps, i, j - 1);
      StepLater(states[j - 1], steps[j - 1]);
    }
  }

  ghost predicate Commits(states: seq<State>, i: nat)
    requires i + 1 < |states|
  {
    states[i].disk.run.None? && states[i + 1].disk.run.Some?
  }

  /** `run.json` appears at most once. */
  lemma CommitsAtMostOnce(states: seq<State>, steps: seq<Step>, i: nat, j: nat)
    requires Run(states, steps) && i + 1 < |states| && j + 1 < |states| && Commits(states, i) && Commits(states, j)
    ensures i == j
  {
    if i < j {
      NeverUndone(states, steps, i + 1, j);
    } else if j < i {
      NeverUndone(states, steps, j + 1, i);
    }
  }

  /** `run.json` appears only when the saver that made the directory links its own manifest after checking
      its sidecars; unless an outside process changed one since that check began, every declared sidecar then
      holds its evidence and there is no other. */
  lemma CommitHoldsEvidence(states: seq<State>, steps: seq<Step>, i: nat)
    requires Run(states, steps) && i + 1 < |states| && Commits(states, i)
    ensures steps[i].Saving? && steps[i].act.Link?
    ensures var s, saver := states[i + 1], states[i].savers[steps[i].id];
            s.disk.owner == Some(steps[i].id) && s.disk.run == Some(Commit(saver.job.manifest, saver.phase.at))
            && (s.disturbed <= saver.phase.at ==> Sealed(s.disk.files, saver.job))
  {
    var s, step := states[i], steps[i];
    EveryRunSound(states, steps, i);
    EveryRunSound(states, steps, i + 1);
    CommitIsLink(s, step);
    LinkNeedsOwner(s, step.id, step.act);
    LinkWrites(s, step.id);
    assert SaverSound(states[i + 1].disk, states[i + 1].disturbed, step.id, states[i + 1].savers[step.id]);
  }

  lemma CommitIsLink(s: State, step: Step)
    requires Enabled(s, step) && s.disk.run.None? && After(s, step).disk.run.Some?
    ensures step.Saving? && step.act.Link?
  {
    hide WRITE_ORDER, INPUT_NAMES, OUTPUT_NAMES, Acted, Disturbed;
    match step {
      case Begin(_, _) =>
      case Saving(id, act) => ActedDisk(s.disk, id, s.savers[id], act);
      case Outside(name, content) => DisturbedDisk(s.disk, name, content);
    }
  }

  lemma LinkWrites(s: State, id: nat)
    requires Enabled(s, Saving(id, Link)) && s.disk.run.None?
    ensures var s', saver := After(s, Saving(id, Link)), s.savers[id];
            s'.disk.run == Some(Commit(saver.job.manifest, saver.phase.at))
            && s'.savers[id].job == saver.job && s'.disk.owner == s.disk.owner
  {}

  /** With no outside process at work, a directory with `run.json` always holds exactly the evidence of the
      saver that made it, whether or not that saver finished. */
  lemma CompleteStaysComplete(states: seq<State>, steps: seq<Step>, i: nat)
    requires Run(states, steps) && i < |states| && states[i].disk.run.Some?
    requires states[i].disturbed <= states[i].disk.run.value.checked
    ensures var s := states[i];
            s.disk.owner.Some? && s.disk.owner.value in s.savers
            && Sealed(s.disk.files, s.savers[s.disk.owner.value].job)
            && Load(s.disk) == Manifest(s.savers[s.disk.owner.value].job.manifest)
  {
    EveryRunSound(states, steps, i);
    var s := states[i];
    assert SaverSound(s.disk, s.disturbed, s.disk.owner.value, s.savers[s.disk.owner.value]);
  }

  /** A saver that reports success made the directory, and `run.json` is its manifest from then on. */
  lemma PublishedStays(states: seq<State>, steps: seq<Step>, i: nat, j: nat, id: nat)
    requires Run(states, steps) && i <= j < |states| && id in states[i].savers && states[i].savers[id].phase.Published?
    ensures states[j].disk.owner == Some(id)
    ensures states[j].disk.run.Some? && states[j].disk.run.value.manifest == states[i].savers[id].job.manifest
  {
    EveryRunSound(states, steps, i);
    assert SaverSound(states[i].disk, states[i].disturbed, id, states[i].savers[id]);
    NeverUndone(states, steps, i, j);
  }

  /** No two savers both report success. */
  lemma OneSuccess(states: seq<State>, steps: seq<Step>, i: nat, j: nat, p: nat, q: nat)
    requires Run(states, steps) && i <= j < |states|
    requires p in states[i].savers && states[i].savers[p].phase.Published?
    requires q in states[j].savers && states[j].savers[q].phase.Published?
    ensures p == q
  {
    PublishedStays(states, steps, i, j, p);
    PublishedStays(states, steps, j, j, q);
  }

  /** The saver that made the directory stopped before linking `run.json`. */
  ghost predicate Abandoned(s: State) {
    && s.disk.owner.Some? && s.disk.run.None?
    && s.disk.owner.value in s.savers && s.savers[s.disk.owner.value].phase.Failed?
  }

  /** An abandoned directory stays abandoned: loading refuses it, and no saver gets past the reservation. */
  lemma {:induction false} AbandonedForever(states: seq<State>, steps: seq<Step>, i: nat, j: nat)
    requires Run(states, steps) && i <= j < |states| && Abandoned(states[i])
    ensures Abandoned(states[j]) && Load(states[j].disk) == Incomplete
    ensures forall id <- states[j].savers :: !Inside(states[j].savers[id].phase)
    decreases j
  {
    hide Enabled, After, Progress, Acted;
    EveryRunSound(states, steps, j);
    if i < j {
      AbandonedForever(states, steps, i, j - 1);
      EveryRunSound(states, steps, j - 1);
      NeverUndone(states, steps, j - 1, j);
      NoOneToLink(states[j - 1], steps[j - 1]);
    }
    forall id <- states[j].savers ensures !Inside(states[j].savers[id].phase) {
      assert SaverSound(states[j].disk, states[j].disturbed, id, states[j].savers[id]);
    }
  }

  lemma NoOneToLink(s: State, step: Step)
    requires Sound(s) && Abandoned(s) && Enabled(s, step)
    ensures After(s, step).disk.run.None?
  {
    if After(s, step).disk.run.Some? {
      CommitIsLink(s, step);
      LinkNeedsOwner(s, step.id, step.act);
    }
  }

  // --- A saver left alone gets through ---

  ghost predicate Reachable(s: State) {
    exists states, steps :: Run(states, steps) && states[|states| - 1] == s
  }

  lemma ReachableNext(s: State, step: Step)
    requires Reachable(s) && Enabled(s, step)
    ensures Reachable(After(s, step))
  {
    hide Enabled, After, Init;
    var states, steps :| Run(states, steps) && states[|states| - 1] == s;
    assert Run(states + [After(s, step)], steps + [step]);
  }

  /** The first `k` sidecars are written, hold their evidence and are held. */
  ghost predicate Filled(k: nat, d: Disk, saver: Saver) {
    && k <= |WRITE_ORDER| && saver.phase == Staging(k)
    && d.files.Keys == (set i | 0 <= i < k :: WRITE_ORDER[i])
    && forall name <- d.files ::
         && d.files[name].content == saver.job.evidence(name)
         && name in saver.held && saver.held[name] == d.files[name].stamp
  }

  lemma WriteNext(d: Disk, id: nat, k: nat, saver: Saver)
    requires Filled(k, d, saver) && k < |WRITE_ORDER|
    ensures var name := WRITE_ORDER[k];
            var (d1, s1) := Acted(d, id, saver, Create);
            var all := Append(|saver.job.evidence(name)|, true);
            CanAct(s1, all) &&
            var (d2, s2) := Acted(d1, id, s1, all);
            CanAct(s2, Hold) &&
            var (d3, s3) := Acted(d2, id, s2, Hold);
            CanAct(s3, ReadBack) &&
            var (d4, s4) := Acted(d3, id, s3, ReadBack);
            Filled(k + 1, d4, s4) && d4.run == d.run && d4.owner == d.owner && s4.job == saver.job
  {
    hide WRITE_ORDER, INPUT_NAMES, OUTPUT_NAMES;
    var name := WRITE_ORDER[k];
    if name in d.files {
      var i: nat :| i < k && WRITE_ORDER[i] == name;
      WriteOrderDistinct(i, k);
    }
  }

  ghost predicate Alone(k: nat, s: State, job: Job) {
    && Reachable(s) && s.disturbed == 0 && s.disk.run.None?
    && 0 in s.savers && s.savers[0].job == job && Filled(k, s.disk, s.savers[0])
  }

  lemma StartAlone(job: Job) returns (s: State)
    ensures Alone(0, s, job)
  {
    hide WRITE_ORDER, INPUT_NAMES, OUTPUT_NAMES;
    s := Init();
    assert Run([s], []);
    assert [s][|[s]| - 1] == s;
    assert Reachable(s);
    ReachableNext(s, Begin(0, job));
    s := After(s, Begin(0, job));
    ReachableNext(s, Saving(0, Reserve));
    s := After(s, Saving(0, Reserve));
    ReachableNext(s, Saving(0, MakeInputs));
    s := After(s, Saving(0, MakeInputs));
    ReachableNext(s, Saving(0, MakeOutputs));
    s := After(s, Saving(0, MakeOutputs));
    assert s.disk.files.Keys == {};
  }

  /** One act of saver 0. */
  lemma ActAlone(s: State, act: Act) returns (s': State)
    requires Reachable(s) && 0 in s.savers && CanAct(s.savers[0], act)
    ensures Reachable(s') && 0 in s'.savers && s'.disturbed == s.disturbed
    ensures (s'.disk, s'.savers[0]) == Acted(s.disk, 0, s.savers[0], act)
  {
    hide WRITE_ORDER, Acted, CanAct, Reachable;
    s' := After(s, Saving(0, act));
    ReachableNext(s, Saving(0, act));
  }

  lemma FillNext(s: State, k: nat, job: Job) returns (s': State)
    requires Alone(k, s, job) && k < |WRITE_ORDER|
    ensures Alone(k + 1, s', job)
  {
    hide WRITE_ORDER, Acted, Reachable, Filled;
    WriteNext(s.disk, 0, k, s.savers[0]);
    assert CanAct(s.savers[0], Create) by { FilledCanCreate(k, s.disk, s.savers[0]); }
    s' := ActAlone(s, Create);
    s' := ActAlone(s', Append(|job.evidence(WRITE_ORDER[k])|, true));
    s' := ActAlone(s', Hold);
    s' := ActAlone(s', ReadBack);
  }

  lemma FilledCanCreate(k: nat, d: Disk, saver: Saver)
    requires Filled(k, d, saver) && k < |WRITE_ORDER|
    ensures CanAct(saver, Create)
  {}

  lemma {:induction false} FillAlone(s: State, k: nat, job: Job) returns (s': State)
    requires Alone(k, s, job)
    ensures Alone(|WRITE_ORDER|, s', job)
    decreases |WRITE_ORDER| - k
  {
    hide Reachable;
    if k < |WRITE_ORDER| {
      s' := FillNext(s, k, job);
      s' := FillAlone(s', k + 1, job);
    } else {
      s' := s;
    }
  }

  lemma FilledHeld(d: Disk, saver: Saver)
    requires Filled(|WRITE_ORDER|, d, saver)
    ensures EvidenceHeld(d.files, saver.held) && Sealed(d.files, saver.job)
  {
    hide WRITE_ORDER, INPUT_NAMES, OUTPUT_NAMES;
    forall name ensures name in d.files.Keys <==> name in INPUT_NAMES + OUTPUT_NAMES {
      WriteOrderComplete(name);
      if name in WRITE_ORDER {
        var i :| 0 <= i < |WRITE_ORDER| && WRITE_ORDER[i] == name;
      }
    }
  }

  lemma {:induction false} InspectAlone(s: State, k: nat) returns (s': State)
    requires Reachable(s) && 0 in s.savers && EvidenceHeld(s.disk.files, s.savers[0].held)
    requires k <= |WRITE_ORDER| && s.savers[0].phase.Checking? && s.savers[0].phase.done == k
    ensures Reachable(s') && 0 in s'.savers && s'.disturbed == s.disturbed && s'.disk == s.disk
    ensures s'.savers[0] == s.savers[0].(phase := Checking(|WRITE_ORDER|, s.savers[0].phase.at))
    decreases |WRITE_ORDER| - k
  {
    hide WRITE_ORDER, INPUT_NAMES, OUTPUT_NAMES, Reachable, StillHeld;
    if k < |WRITE_ORDER| {
      WriteOrderComplete(WRITE_ORDER[k]);
      s' := ActAlone(s, Inspect);
      s' := InspectAlone(s', k + 1);
    } else {
      s' := s;
    }
  }

  lemma HeldListed(files: map<Sidecar, File>, held: map<Sidecar, nat>)
    requires EvidenceHeld(files, held)
    ensures InputsListed(files) && OutputsListed(files)
  {}

  /** Saver 0 reports success for `job`, with its manifest beside exactly its evidence. */
  ghost predicate Saved(s: State, job: Job) {
    && 0 in s.savers && s.savers[0].job == job && s.savers[0].phase.Published?
    && Sealed(s.disk.files, job) && s.disk.run.Some? && s.disk.run.value.manifest == job.manifest
  }

  /** Whatever it has to store, a saver that nothing disturbs can finish. */
  lemma SaveAloneSucceeds(job: Job)
    ensures exists s :: Reachable(s) && Saved(s, job)
  {
    hide WRITE_ORDER, INPUT_NAMES, OUTPUT_NAMES, Reachable, EvidenceHeld, Sealed, InputsListed, OutputsListed;
    var s := StartAlone(job);
    s := FillAlone(s, 0, job);
    FilledHeld(s.disk, s.savers[0]);
    HeldListed(s.disk.files, s.savers[0].held);
    s := ActAlone(s, Stage);
    s := ActAlone(s, Check);
    s := InspectAlone(s, 0);
    s := ActAlone(s, ListInputs);
    s := ActAlone(s, ListOutputs);
    s := ActAlone(s, Link);
    s := ActAlone(s, Confirm);
    assert Saved(s, job);
  }
}
