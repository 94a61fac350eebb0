/** From the savers' steps to the loaded evidence: what a loader finds in a directory that savers made. */
module RunJourneys {
  import opened Results
  import opened RunSavers
  import opened RunSaverRuns
  import opened RunScience
  import opened RunEvidence

  /** What a loader sees of a directory with `run.json`. */
  function Seen(d: Disk): Directory
    requires d.run.Some?
  {
    Directory(map name | name in d.files :: d.files[name].content, d.run.value.manifest)
  }

  /** The job of saving an evidence: its files and its manifest, byte for byte. */
  ghost predicate Stores(sci: Science, codec: Codec, job: Job, x: Evidence) {
    (forall name :: job.evidence(name) == Content(sci, codec, x, name)) && job.manifest == codec.manifest(x.manifest)
  }

  /** Nothing outside changed a sidecar since the check before `run.json` was linked began. */
  predicate Undisturbed(s: State) {
    s.disk.run.Some? && s.disturbed <= s.disk.run.value.checked
  }

  lemma SealedIsPublished(sci: Science, codec: Codec, job: Job, x: Evidence, d: Disk)
    requires d.run.Some? && d.run.value.manifest == job.manifest && Sealed(d.files, job) && Stores(sci, codec, job, x)
    ensures Seen(d) == FilesOf(sci, codec, x)
  {
    hide Content, INPUT_NAMES, OUTPUT_NAMES;
  }

  /** In every run of any number of savers, an undisturbed directory with `run.json` loads, under any
      version, as exactly the evidence its maker was saving, and replays identically; this holds even when
      the maker failed after the link. */
  lemma UndisturbedLoads(
      sci: Science, codec: Codec, version: Version, states: seq<State>, steps: seq<Step>, i: nat, x: Evidence)
    requires Sane(sci) && Faithful(codec) && Bounded(sci, codec) && Measured(sci, codec)
    requires Run(states, steps) && i < |states| && Undisturbed(states[i])
    requires var s := states[i];
             s.disk.owner.Some? && s.disk.owner.value in s.savers
             && Stores(sci, codec, s.savers[s.disk.owner.value].job, x)
    requires Rebuilt(sci, version, x, true) == Some(x) && Fits(sci, codec, x)
    ensures Loaded(sci, codec, version, x.manifest.settings.runId, Seen(states[i].disk)) == Some(x)
    ensures Replay(sci, x) == Some(x.manifest.trace)
  {
    hide Run, Sane, Faithful, Bounded, Measured, Rebuilt, Fits, DocumentsFit, StreamsHold, Stores, Sealed, Loaded;
    hide Replay;
    CompleteStaysComplete(states, steps, i);
    var s := states[i];
    SealedIsPublished(sci, codec, s.savers[s.disk.owner.value].job, x, s.disk);
    StreamsHoldIffFit(sci, codec, version, x);
    LoadExact(sci, codec, version, x.manifest.settings.runId, Seen(s.disk), x);
    ReplayExact(sci, version, x);
  }

  /** Once a saver has reported success, every later undisturbed load gives back the evidence it saved. */
  lemma PublishedLoads(
      sci: Science, codec: Codec, version: Version, states: seq<State>, steps: seq<Step>, i: nat, j: nat, id: nat,
      x: Evidence)
    requires Sane(sci) && Faithful(codec) && Bounded(sci, codec) && Measured(sci, codec)
    requires Run(states, steps) && i <= j < |states| && id in states[i].savers && states[i].savers[id].phase.Published?
    requires Stores(sci, codec, states[i].savers[id].job, x)
    requires Rebuilt(sci, version, x, true) == Some(x) && Fits(sci, codec, x)
    ensures states[j].disk.run.Some?
    ensures Undisturbed(states[j]) ==>
              Loaded(sci, codec, version, x.manifest.settings.runId, Seen(states[j].disk)) == Some(x)
  {
    hide Run, Sane, Faithful, Bounded, Measured, Rebuilt, Fits, Stores, Loaded, Replay;
    PublishedStays(states, steps, i, j, id);
    NeverUndone(states, steps, i, j);
    if Undisturbed(states[j]) {
      UndisturbedLoads(sci, codec, version, states, steps, j, x);
    }
  }

  /** Any finalized run whose files fit can be published by some run of its saver, and then loads as it was
      finalized. */
  lemma FinalizedCanBePublished(
      sci: Science, codec: Codec, version: Version, later: Version, pack: Pack, settings: Settings, scenario: Scenario,
      response: ResponseInput, w: Workbench, profile: Option<Profile>, input: CognitionInput, e: Evaluation)
    requires Sane(sci) && Faithful(codec) && Bounded(sci, codec) && Measured(sci, codec)
    requires Prepare(sci, pack, settings, scenario, response, w, profile).Some?
    requires var p := Prepare(sci, pack, settings, scenario, response, w, profile).value;
             Finalize(sci, version, p, input, e).Some? && Fits(sci, codec, Finalize(sci, version, p, input, e).value)
    ensures var x := Finalize(sci, version, Prepare(sci, pack, settings, scenario, response, w, profile).value, input,
                              e).value;
            exists s ::
              Reachable(s) && s.disk.run.Some? && Loaded(sci, codec, later, settings.runId, Seen(s.disk)) == Some(x)
  {
    hide Sane, Faithful, Bounded, Measured, Loaded, Replay, Prepare, Sealed, Content, Reachable, Fits;
    hide RunEvidence.Saved;
    var x := Finalize(sci, version, Prepare(sci, pack, settings, scenario, response, w, profile).value, input, e).value;
    PublishLoadReplay(sci, codec, version, later, pack, settings, scenario, response, w, profile, input, e);
    var job := Job(name => Content(sci, codec, x, name), codec.manifest(x.manifest));
    SaveAloneSucceeds(job);
    var s :| Reachable(s) && RunSaverRuns.Saved(s, job);
    SealedIsPublished(sci, codec, job, x, s.disk);
  }
}
