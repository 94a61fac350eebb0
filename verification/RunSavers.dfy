/** Saving one run identifier: any number of savers, each reserving the run directory, writing and checking
    its sidecars and linking `run.json` last; any of them may stop at any step, and outside processes may
    replace or remove sidecars meanwhile. */
module RunSavers {
  import opened Results
  import opened RunStreams

  datatype Sidecar =
    | City | Agents | Campaign | ResponseInput | Workbench | CognitionInput
    | ResponseState | ResponseSummary | CognitionSummary | OpportunitySummary | AttentionSummary
    | OpportunityStream | AttentionStream | ResponseStream | CognitionStream
    | Undeclared(inInputs: bool, name: string)

  const INPUT_NAMES := {City, Agents, Campaign, ResponseInput, Workbench, CognitionInput}
  const OUTPUT_NAMES := {
    ResponseState, ResponseSummary, CognitionSummary, OpportunitySummary, AttentionSummary,
    OpportunityStream, AttentionStream, ResponseStream, CognitionStream}

  /** The order a saver writes in: the documents, then the streams. */
  const WRITE_ORDER := [
    City, Agents, ResponseState, ResponseSummary, CognitionSummary, Campaign, ResponseInput, Workbench,
    CognitionInput, OpportunitySummary, AttentionSummary, OpportunityStream, AttentionStream, ResponseStream,
    CognitionStream]

  /** What one saver has to store. */
  datatype Job = Job(evidence: Sidecar -> Bytes, manifest: Bytes)

  /** A file, and what its status shows: a stamp that every change renews. */
  datatype File = File(content: Bytes, stamp: nat)

  /** `run.json`, and when its saver had last checked the sidecars. */
  datatype Commit = Commit(manifest: Bytes, checked: nat)

  datatype Phase =
    | Ready
    | Reserved
    | InputsMade
    | Staging(done: nat)
    | Writing(done: nat, written: nat)
    | Holding(done: nat)
    | Staged
    | Checking(done: nat, at: nat)
    | Checked(at: nat)
    | Linked
    | Published
    | Refused
    | Failed

  datatype Saver = Saver(job: Job, phase: Phase, held: map<Sidecar, nat>)

  /** The run directory: who made it, what is in it, and the next stamp. */
  datatype Disk = Disk(
    owner: Option<nat>,
    inputs: bool,
    outputs: bool,
    files: map<Sidecar, File>,
    run: Option<Commit>,
    clock: nat)

  /** `disturbed` is when an outside process last changed a sidecar. */
  datatype State = State(disk: Disk, savers: map<nat, Saver>, disturbed: nat)

  datatype Act =
    | Reserve
    | MakeInputs
    | MakeOutputs
    | Create
    | Append(count: nat, landed: bool)
    | Hold
    | ReadBack
    | Stage
    | Check
    | Inspect
    | ListInputs
    | ListOutputs
    | Link
    | Confirm
    | Stop

  datatype Step =
    | Begin(id: nat, job: Job)
    | Saving(id: nat, act: Act)
    | Outside(name: Sidecar, content: Option<Bytes>)

  function Init(): State {
    State(Disk(None, false, false, map[], None, 0), map[], 0)
  }

  predicate Inside(phase: Phase) {
    !phase.Ready? && !phase.Refused? && !phase.Failed?
  }

  predicate CanAct(saver: Saver, act: Act) {
    var phase := saver.phase;
    match act
    case Reserve => phase.Ready?
    case MakeInputs => phase.Reserved?
    case MakeOutputs => phase.InputsMade?
    case Create => phase.Staging? && phase.done < |WRITE_ORDER|
    case Append(count, _) =>
      phase.Writing? && phase.done < |WRITE_ORDER|
      && phase.written + count <= |saver.job.evidence(WRITE_ORDER[phase.done])|
    case Hold =>
      phase.Writing? && phase.done < |WRITE_ORDER| && phase.written == |saver.job.evidence(WRITE_ORDER[phase.done])|
    case ReadBack => phase.Holding? && phase.done < |WRITE_ORDER|
    case Stage => phase.Staging? && phase.done == |WRITE_ORDER|
    case Check => phase.Staged?
    case Inspect => phase.Checking? && phase.done < |WRITE_ORDER|
    case ListInputs => phase.Checking? && phase.done == |WRITE_ORDER|
    case ListOutputs => phase.Checking? && phase.done == |WRITE_ORDER| + 1
    case Link => phase.Checked?
    case Confirm => phase.Linked?
    case Stop => Inside(phase) || phase.Ready?
  }

  predicate Enabled(s: State, step: Step) {
    match step
    case Begin(id, _) => id !in s.savers
    case Saving(id, act) => id in s.savers && CanAct(s.savers[id], act)
    case Outside(_, _) => s.disk.owner.Some?
  }

  function Put(d: Disk, name: Sidecar, content: Bytes): Disk {
    d.(files := d.files[name := File(content, d.clock)], clock := d.clock + 1)
  }

  predicate InInputs(name: Sidecar) {
    name in INPUT_NAMES || (name.Undeclared? && name.inInputs)
  }

  /** The directory of inputs holds exactly what is declared. */
  predicate InputsListed(files: map<Sidecar, File>) {
    INPUT_NAMES <= files.Keys && forall name <- files :: InInputs(name) ==> name in INPUT_NAMES
  }

  predicate OutputsListed(files: map<Sidecar, File>) {
    OUTPUT_NAMES <= files.Keys && forall name <- files :: !InInputs(name) ==> name in OUTPUT_NAMES
  }

  /** The sidecar shows the status it had when it was held. */
  predicate StillHeld(files: map<Sidecar, File>, held: map<Sidecar, nat>, name: Sidecar) {
    name in files && name in held && files[name].stamp == held[name]
  }

  /** Nothing a saver holds has changed since it was held, and no sidecar is missing or undeclared. */
  ghost predicate EvidenceHeld(files: map<Sidecar, File>, held: map<Sidecar, nat>) {
    && (forall name <- INPUT_NAMES + OUTPUT_NAMES :: StillHeld(files, held, name))
    && files.Keys == INPUT_NAMES + OUTPUT_NAMES
  }

  /** What one act of saver `id` makes of the directory and of the saver. */
  function Acted(d: Disk, id: nat, saver: Saver, act: Act): (Disk, Saver)
    requires CanAct(saver, act)
  {
    match act
    case Reserve =>
      if d.owner.Some? then (d, saver.(phase := Refused)) else (d.(owner := Some(id)), saver.(phase := Reserved))
    case MakeInputs =>
      if d.inputs then (d, saver.(phase := Failed)) else (d.(inputs := true), saver.(phase := InputsMade))
    case MakeOutputs =>
      if d.outputs then (d, saver.(phase := Failed)) else (d.(outputs := true), saver.(phase := Staging(0)))
    case Create =>
      var name := WRITE_ORDER[saver.phase.done];
      if name in d.files then (d, saver.(phase := Failed))
      else (Put(d, name, []), saver.(phase := Writing(saver.phase.done, 0)))
    case Append(count, landed) =>
      var k, n := saver.phase.done, saver.phase.written;
      var name := WRITE_ORDER[k];
      (if landed && name in d.files then Put(d, name, d.files[name].content + saver.job.evidence(name)[n..n + count])
       else d, saver.(phase := Writing(k, n + count)))
    case Hold =>
      var name := WRITE_ORDER[saver.phase.done];
      (d, if name !in d.files then saver.(phase := Failed)
          else Saver(saver.job, Holding(saver.phase.done), saver.held[name := d.files[name].stamp]))
    case ReadBack =>
      var name := WRITE_ORDER[saver.phase.done];
      (d, saver.(phase := if name in d.files && d.files[name].content == saver.job.evidence(name)
                          then Staging(saver.phase.done + 1) else Failed))
    case Stage => (d, saver.(phase := Staged))
    case Check => (d, saver.(phase := Checking(0, d.clock)))
    case Inspect =>
      var k := saver.phase.done;
      (d, saver.(phase := if StillHeld(d.files, saver.held, WRITE_ORDER[k]) then Checking(k + 1, saver.phase.at)
                          else Failed))
    case ListInputs =>
      (d, saver.(phase := if InputsListed(d.files) then Checking(saver.phase.done + 1, saver.phase.at) else Failed))
    case ListOutputs => (d, saver.(phase := if OutputsListed(d.files) then Checked(saver.phase.at) else Failed))
    case Link =>
      if d.run.Some? then (d, saver.(phase := Refused))
      else (d.(run := Some(Commit(saver.job.manifest, saver.phase.at))), saver.(phase := Linked))
    case Confirm =>
      (d, saver.(phase := if d.run.Some? && d.run.value.manifest == saver.job.manifest then Published else Failed))
    case Stop => (d, saver.(phase := Failed))
  }

  function Disturbed(d: Disk, name: Sidecar, content: Option<Bytes>): Disk {
    d.(files := if content.Some? then d.files[name := File(content.value, d.clock)] else d.files - {name},
       clock := d.clock + 1)
  }

  function After(s: State, step: Step): State
    requires Enabled(s, step)
  {
    match step
    case Begin(id, job) => s.(savers := s.savers[id := Saver(job, Ready, map[])])
    case Saving(id, act) =>
      var (disk, saver) := Acted(s.disk, id, s.savers[id], act);
      State(disk, s.savers[id := saver], s.disturbed)
    case Outside(name, content) => State(Disturbed(s.disk, name, content), s.savers, s.disk.clock + 1)
  }

  /** A saver that was not refused can fail wherever it is, and leaves the directory as it is then. */
  lemma FailsAnywhere(s: State, id: nat)
    requires id in s.savers && !s.savers[id].phase.Refused? && !s.savers[id].phase.Failed?
    ensures Enabled(s, Saving(id, Stop))
    ensures After(s, Saving(id, Stop)).disk == s.disk && After(s, Saving(id, Stop)).savers[id].phase.Failed?
  {}

  // --- What every step keeps ---

  /** Every declared sidecar holds its evidence and there is no other. */
  ghost predicate Sealed(files: map<Sidecar, File>, job: Job) {
    && files.Keys == INPUT_NAMES + OUTPUT_NAMES
    && forall name <- files.Keys :: files[name].content == job.evidence(name)
  }

  /** The first `k` sidecars were read back as their evidence: each is still that unless its stamp shows a change. */
  ghost predicate ReadBackUpTo(k: nat, files: map<Sidecar, File>, saver: Saver) {
    forall i :: 0 <= i < k <= |WRITE_ORDER| ==>
      var name := WRITE_ORDER[i];
      name in saver.held
      && (name in files && files[name].stamp == saver.held[name] ==> files[name].content == saver.job.evidence(name))
  }

  /** The first `k` things to check, the sidecars and then the two listings, are as they should be. */
  ghost predicate Inspected(k: nat, files: map<Sidecar, File>, held: map<Sidecar, nat>) {
    && (forall i :: 0 <= i < k && i < |WRITE_ORDER| ==> StillHeld(files, held, WRITE_ORDER[i]))
    && (k > |WRITE_ORDER| ==> InputsListed(files))
  }

  /** How far a saver is, and what that says about the directory. */
  ghost predicate Progress(d: Disk, disturbed: nat, saver: Saver) {
    match saver.phase
    case Staging(k) => k <= |WRITE_ORDER| && ReadBackUpTo(k, d.files, saver)
    case Writing(k, _) => k < |WRITE_ORDER| && ReadBackUpTo(k, d.files, saver)
    case Holding(k) => k < |WRITE_ORDER| && ReadBackUpTo(k, d.files, saver) && WRITE_ORDER[k] in saver.held
    case Staged => ReadBackUpTo(|WRITE_ORDER|, d.files, saver)
    case Checking(k, at) =>
      && k <= |WRITE_ORDER| + 1 && at <= d.clock && ReadBackUpTo(|WRITE_ORDER|, d.files, saver)
      && (disturbed <= at ==> Inspected(k, d.files, saver.held))
    case Checked(at) => at <= d.clock && (disturbed <= at ==> Sealed(d.files, saver.job))
    case _ => true
  }

  ghost predicate HeldBefore(saver: Saver, clock: nat) {
    forall name <- saver.held :: saver.held[name] < clock
  }

  ghost predicate StampedBefore(d: Disk) {
    forall name <- d.files :: d.files[name].stamp < d.clock
  }

  /** A saver past its reservation made the directory. */
  ghost predicate InsideOwns(d: Disk, id: nat, saver: Saver) {
    && (Inside(saver.phase) ==> d.owner == Some(id))
    && (Inside(saver.phase) && !saver.phase.Reserved? ==> d.inputs)
    && (saver.phase.Linked? || saver.phase.Published? ==> d.run.Some?)
  }

  /** The saver that made the directory: `run.json` is its manifest, written last, beside the checked
      sidecars, unless an outside process changed one since. */
  ghost predicate OwnerSound(d: Disk, disturbed: nat, saver: Saver) {
    && !saver.phase.Ready?
    && (d.run.Some? ==>
          && (saver.phase.Linked? || saver.phase.Published? || saver.phase.Failed?)
          && d.inputs
          && d.run.value.manifest == saver.job.manifest
          && d.run.value.checked <= d.clock
          && (disturbed <= d.run.value.checked ==> Sealed(d.files, saver.job)))
  }

  ghost predicate SaverSound(d: Disk, disturbed: nat, id: nat, saver: Saver) {
    && InsideOwns(d, id, saver) && HeldBefore(saver, d.clock) && Progress(d, disturbed, saver)
    && (d.owner == Some(id) ==> OwnerSound(d, disturbed, saver))
  }

  ghost predicate Sound(s: State) {
    && StampedBefore(s.disk)
    && s.disturbed <= s.disk.clock
    && (s.disk.owner.Some? ==> s.disk.owner.value in s.savers)
    && (s.disk.owner.None? ==> s.disk.run.None?)
    && forall id <- s.savers :: SaverSound(s.disk, s.disturbed, id, s.savers[id])
  }

  lemma WriteOrderDistinct(i: nat, j: nat)
    requires i < j < |WRITE_ORDER|
    ensures WRITE_ORDER[i] != WRITE_ORDER[j]
  {}

  lemma WritesDeclaredOnly(name: Sidecar)
    requires name in WRITE_ORDER
    ensures name in INPUT_NAMES + OUTPUT_NAMES
  {}

  /** Every declared name is written, and nothing else. */
  lemma WriteOrderComplete(name: Sidecar)
    ensures name in WRITE_ORDER <==> name in INPUT_NAMES + OUTPUT_NAMES
  {
    if name in INPUT_NAMES + OUTPUT_NAMES {
      WritesDeclared(name);
    }
    if name in WRITE_ORDER {
      WritesDeclaredOnly(name);
    }
  }

  lemma WritesDeclared(name: Sidecar)
    requires name in INPUT_NAMES + OUTPUT_NAMES
    ensures name in WRITE_ORDER
  {
    assert WRITE_ORDER[0] == City && WRITE_ORDER[1] == Agents && WRITE_ORDER[2] == ResponseState;
    assert WRITE_ORDER[3] == ResponseSummary && WRITE_ORDER[4] == CognitionSummary && WRITE_ORDER[5] == Campaign;
    assert WRITE_ORDER[6] == ResponseInput && WRITE_ORDER[7] == Workbench && WRITE_ORDER[8] == CognitionInput;
    assert WRITE_ORDER[9] == OpportunitySummary && WRITE_ORDER[10] == AttentionSummary;
    assert WRITE_ORDER[11] == OpportunityStream && WRITE_ORDER[12] == AttentionStream;
    assert WRITE_ORDER[13] == ResponseStream && WRITE_ORDER[14] == CognitionStream;
  }

  /** Every file is as it was or carries a new stamp. */
  ghost predicate Renewed(files: map<Sidecar, File>, files': map<Sidecar, File>, clock: nat) {
    forall name <- files' :: (name in files && files'[name] == files[name]) || files'[name].stamp >= clock
  }

  /** Whatever happens to the files, a read-back sidecar is its evidence or shows the change. */
  lemma ReadBackOutlives(k: nat, files: map<Sidecar, File>, files': map<Sidecar, File>, saver: Saver, clock: nat)
    requires ReadBackUpTo(k, files, saver) && Renewed(files, files', clock) && HeldBefore(saver, clock)
    ensures ReadBackUpTo(k, files', saver)
  {
  }

  predicate Writes(act: Act) {
    act.Create? || act.Append?
  }

  /** One act changes at most one file and gives it a new stamp; only creating and appending change any. */
  lemma ActedFiles(d: Disk, id: nat, saver: Saver, act: Act)
    requires CanAct(saver, act) && StampedBefore(d)
    ensures var (d', saver') := Acted(d, id, saver, act);
            Renewed(d.files, d'.files, d.clock) && d.clock <= d'.clock && StampedBefore(d')
            && (!Writes(act) ==> d'.files == d.files && d'.clock == d.clock)
  {
    hide EvidenceHeld, WRITE_ORDER, INPUT_NAMES, OUTPUT_NAMES;
  }

  /** An act of the owner's or of another keeps the directory's making and completion. */
  lemma ActedDisk(d: Disk, id: nat, saver: Saver, act: Act)
    requires CanAct(saver, act)
    ensures var (d', saver') := Acted(d, id, saver, act);
            saver'.job == saver.job
            && (d.owner.Some? ==> d'.owner == d.owner) && (d'.owner == d.owner || d'.owner == Some(id))
            && (d.run.Some? ==> d'.run == d.run) && (d'.run != d.run ==> act.Link?)
            && (d.inputs ==> d'.inputs)
  {
    hide EvidenceHeld, WRITE_ORDER, INPUT_NAMES, OUTPUT_NAMES;
  }

  /** A saver that is going on or starting. */
  ghost predicate Live(d: Disk, disturbed: nat, id: nat, saver: Saver, act: Act) {
    CanAct(saver, act) && SaverSound(d, disturbed, id, saver) && StampedBefore(d) && disturbed <= d.clock
    && (d.owner.None? ==> d.run.None?)
  }

  lemma HeldCoversDeclared(d: Disk, saver: Saver)
    requires ReadBackUpTo(|WRITE_ORDER|, d.files, saver) && EvidenceHeld(d.files, saver.held)
    ensures Sealed(d.files, saver.job)
  {
    hide WRITE_ORDER, INPUT_NAMES, OUTPUT_NAMES;
    forall name <- d.files.Keys ensures d.files[name].content == saver.job.evidence(name) {
      WriteOrderComplete(name);
      var i :| 0 <= i < |WRITE_ORDER| && WRITE_ORDER[i] == name;
    }
  }

  /** Holding one more sidecar does not let go of those already read back. */
  lemma HoldKeeps(d: Disk, k: nat, saver: Saver, saver': Saver)
    requires k < |WRITE_ORDER| && WRITE_ORDER[k] in d.files && ReadBackUpTo(k, d.files, saver)
             && saver'.job == saver.job
    requires saver'.held == saver.held[WRITE_ORDER[k] := d.files[WRITE_ORDER[k]].stamp]
    ensures ReadBackUpTo(k, d.files, saver')
  {
    hide WRITE_ORDER;
    forall i | 0 <= i < k ensures WRITE_ORDER[i] != WRITE_ORDER[k] {
      WriteOrderDistinct(i, k);
    }
  }

  /** The acts of checking, one sidecar or one listing at a time. */
  lemma CheckProgress(d: Disk, disturbed: nat, id: nat, saver: Saver, act: Act)
    requires CanAct(saver, act) && Progress(d, disturbed, saver)
    requires act.Check? || act.Inspect? || act.ListInputs? || act.ListOutputs?
    ensures var (d', saver') := Acted(d, id, saver, act); d' == d && Progress(d, disturbed, saver')
  {
    hide WRITE_ORDER, INPUT_NAMES, OUTPUT_NAMES, EvidenceHeld, Sealed, ReadBackUpTo;
    hide Inspected, InputsListed, OutputsListed, StillHeld;
    var saver' := Acted(d, id, saver, act).1;
    ReadBackOfJob(|WRITE_ORDER|, d.files, saver, saver');
    if act.Check? {
      NothingInspected(d.files, saver.held);
    } else if Inspected(saver.phase.done, d.files, saver.held) && !saver'.phase.Failed? {
      if act.Inspect? {
        OneMoreInspected(saver.phase.done, d.files, saver.held);
      } else if act.ListInputs? {
        InputsInspected(d.files, saver.held);
      } else {
        AllInspected(d.files, saver.held);
        HeldCoversDeclared(d, saver);
      }
    }
  }

  lemma ActedProgress(d: Disk, disturbed: nat, id: nat, saver: Saver, act: Act)
    requires Live(d, disturbed, id, saver, act)
    ensures var (d', saver') := Acted(d, id, saver, act);
            Progress(d', disturbed, saver') && HeldBefore(saver', d'.clock)
  {
    hide WRITE_ORDER, INPUT_NAMES, OUTPUT_NAMES, EvidenceHeld, Sealed, ReadBackUpTo, Renewed, OwnerSound, InsideOwns;
    hide Inspected, InputsListed, OutputsListed, StillHeld;
    var (d', saver') := Acted(d, id, saver, act);
    ActedFiles(d, id, saver, act);
    match act {
      case MakeOutputs =>
        NothingReadBack(d', saver');
      case Create =>
        ReadBackOutlives(saver.phase.done, d.files, d'.files, saver, d.clock);
        ReadBackOfJob(saver.phase.done, d'.files, saver, saver');
      case Append(_, _) =>
        ReadBackOutlives(saver.phase.done, d.files, d'.files, saver, d.clock);
        ReadBackOfJob(saver.phase.done, d'.files, saver, saver');
      case Hold =>
        if WRITE_ORDER[saver.phase.done] in d.files {
          HoldKeeps(d, saver.phase.done, saver, saver');
        }
      case ReadBack =>
        if saver'.phase.Staging? {
          OneMoreReadBack(d, saver, saver');
        }
      case Stage =>
        ReadBackOfJob(|WRITE_ORDER|, d.files, saver, saver');
      case Check => CheckProgress(d, disturbed, id, saver, act);
      case Inspect => CheckProgress(d, disturbed, id, saver, act);
      case ListInputs => CheckProgress(d, disturbed, id, saver, act);
      case ListOutputs => CheckProgress(d, disturbed, id, saver, act);
      case _ =>
    }
  }

  lemma NothingInspected(files: map<Sidecar, File>, held: map<Sidecar, nat>)
    ensures Inspected(0, files, held)
  {}

  lemma OneMoreInspected(k: nat, files: map<Sidecar, File>, held: map<Sidecar, nat>)
    requires k < |WRITE_ORDER| && Inspected(k, files, held) && StillHeld(files, held, WRITE_ORDER[k])
    ensures Inspected(k + 1, files, held)
  {
    hide WRITE_ORDER, StillHeld, InputsListed;
  }

  lemma InputsInspected(files: map<Sidecar, File>, held: map<Sidecar, nat>)
    requires Inspected(|WRITE_ORDER|, files, held) && InputsListed(files)
    ensures Inspected(|WRITE_ORDER| + 1, files, held)
  {
    hide WRITE_ORDER, StillHeld, InputsListed;
  }

  /** All sidecars inspected one by one, and both listings, are what holding the evidence means. */
  lemma AllInspected(files: map<Sidecar, File>, held: map<Sidecar, nat>)
    requires Inspected(|WRITE_ORDER| + 1, files, held) && OutputsListed(files)
    ensures EvidenceHeld(files, held)
  {
    hide WRITE_ORDER, INPUT_NAMES, OUTPUT_NAMES, StillHeld;
    forall name <- INPUT_NAMES + OUTPUT_NAMES ensures StillHeld(files, held, name) {
      WriteOrderComplete(name);
      var i :| 0 <= i < |WRITE_ORDER| && WRITE_ORDER[i] == name;
    }
    forall name ensures name in files.Keys <==> name in INPUT_NAMES + OUTPUT_NAMES {}
  }

  lemma NothingReadBack(d: Disk, saver: Saver)
    ensures ReadBackUpTo(0, d.files, saver)
  {}

  lemma ReadBackOfJob(k: nat, files: map<Sidecar, File>, saver: Saver, saver': Saver)
    requires ReadBackUpTo(k, files, saver) && saver'.job == saver.job && saver'.held == saver.held
    ensures ReadBackUpTo(k, files, saver')
  {
    hide WRITE_ORDER;
  }

  lemma OneMoreReadBack(d: Disk, saver: Saver, saver': Saver)
    requires saver.phase.Holding? && saver.phase.done < |WRITE_ORDER|
    requires ReadBackUpTo(saver.phase.done, d.files, saver) && WRITE_ORDER[saver.phase.done] in saver.held
    requires WRITE_ORDER[saver.phase.done] in d.files
    requires d.files[WRITE_ORDER[saver.phase.done]].content == saver.job.evidence(WRITE_ORDER[saver.phase.done])
    requires saver'.job == saver.job && saver'.held == saver.held
    ensures ReadBackUpTo(saver.phase.done + 1, d.files, saver')
  {
    hide WRITE_ORDER;
  }

  /** An act keeps its own saver sound. */
  lemma ActedSound(d: Disk, disturbed: nat, id: nat, saver: Saver, act: Act)
    requires Live(d, disturbed, id, saver, act)
    ensures var (d', saver') := Acted(d, id, saver, act); SaverSound(d', disturbed, id, saver')
  {
    hide WRITE_ORDER, INPUT_NAMES, OUTPUT_NAMES, EvidenceHeld, Sealed, ReadBackUpTo, Renewed, StampedBefore, HeldBefore;
    ActedProgress(d, disturbed, id, saver, act);
  }

  /** An act of one saver keeps every other saver sound. */
  lemma BystanderSound(d: Disk, disturbed: nat, id: nat, saver: Saver, act: Act, other: nat, bystander: Saver)
    requires Live(d, disturbed, id, saver, act) && other != id && SaverSound(d, disturbed, other, bystander)
    ensures SaverSound(Acted(d, id, saver, act).0, disturbed, other, bystander)
  {
    hide WRITE_ORDER, INPUT_NAMES, OUTPUT_NAMES, EvidenceHeld, Sealed, ReadBackUpTo, Renewed, Acted;
    ActedDisk(d, id, saver, act);
    ActedFiles(d, id, saver, act);
  }

  lemma OutsideKeeps(d: Disk, disturbed: nat, id: nat, saver: Saver, name: Sidecar, content: Option<Bytes>)
    requires SaverSound(d, disturbed, id, saver) && StampedBefore(d) && disturbed <= d.clock
    ensures SaverSound(Disturbed(d, name, content), d.clock + 1, id, saver)
            && StampedBefore(Disturbed(d, name, content))
  {
    hide WRITE_ORDER, INPUT_NAMES, OUTPUT_NAMES, EvidenceHeld, Sealed, ReadBackUpTo;
    var d' := Disturbed(d, name, content);
    forall k: nat | ReadBackUpTo(k, d.files, saver) ensures ReadBackUpTo(k, d'.files, saver) {
      ReadBackOutlives(k, d.files, d'.files, saver, d.clock);
    }
  }

  lemma InitSound()
    ensures Sound(Init())
  {}

  /** No step of any saver, and no outside change, breaks what every reachable state keeps. */
  lemma StepKeeps(s: State, step: Step)
    requires Sound(s) && Enabled(s, step)
    ensures Sound(After(s, step))
  {
    hide WRITE_ORDER, INPUT_NAMES, OUTPUT_NAMES, SaverSound, StampedBefore, Acted, Disturbed;
    var s' := After(s, step);
    match step {
      case Begin(id, job) =>
        BeginSound(s, id, job);
      case Saving(id, act) =>
        ActedFiles(s.disk, id, s.savers[id], act);
        ActedDisk(s.disk, id, s.savers[id], act);
        ActedSound(s.disk, s.disturbed, id, s.savers[id], act);
        LinkNeedsOwner(s, id, act);
        forall other <- s.savers | other != id ensures SaverSound(s'.disk, s'.disturbed, other, s'.savers[other]) {
          BystanderSound(s.disk, s.disturbed, id, s.savers[id], act, other, s.savers[other]);
        }
      case Outside(name, content) =>
        DisturbedFacts(s.disk, name, content);
        forall id <- s.savers ensures SaverSound(s'.disk, s'.disturbed, id, s.savers[id]) {
          OutsideKeeps(s.disk, s.disturbed, id, s.savers[id], name, content);
        }
    }
  }

  lemma BeginSound(s: State, id: nat, job: Job)
    requires Sound(s) && id !in s.savers
    ensures SaverSound(s.disk, s.disturbed, id, Saver(job, Ready, map[]))
  {}

  lemma LinkNeedsOwner(s: State, id: nat, act: Act)
    requires Sound(s) && id in s.savers && CanAct(s.savers[id], act)
    ensures act.Link? ==> s.disk.owner == Some(id) && s.disk.run.None?
  {
    assert SaverSound(s.disk, s.disturbed, id, s.savers[id]);
  }

  lemma DisturbedFacts(d: Disk, name: Sidecar, content: Option<Bytes>)
    requires StampedBefore(d)
    ensures var d' := Disturbed(d, name, content);
            d'.owner == d.owner && d'.run == d.run && d'.clock == d.clock + 1 && StampedBefore(d')
  {}
}
