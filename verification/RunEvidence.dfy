/** Publishing a finalized run, loading it and replaying it. The manifest of a run is derived three times,
    by three pieces of code and from different sources: from the prepared science when the run is
    finalized, from the stored inputs when it is saved or loaded, and from the loaded evidence when it is
    replayed. They agree, and loading accepts only the very bytes that publishing writes. */
module RunEvidence {
  import opened Results
  import opened RunStreams
  import opened RunRecords
  import opened RunSavers
  import opened RunScience

  // --- The derivations agree ---

  /** Rebuilding from what an evidence holds. */
  function Rebuilt(sci: Science, version: Version, x: Evidence, historical: bool): Option<Evidence> {
    Reconstruct(sci, version, x.manifest, x.pack, x.scenario, x.responseInput, x.workbench, x.input, x.evaluation,
                historical)
  }

  lemma PreparedAuthority(
      sci: Science, pack: Pack, settings: Settings, scenario: Scenario, response: ResponseInput, w: Workbench,
      profile: Option<Profile>)
    requires Sane(sci) && Prepare(sci, pack, settings, scenario, response, w, profile).Some?
    ensures var p := Prepare(sci, pack, settings, scenario, response, w, profile).value;
            Authorized(w.cognition, p.input) && p.input.contract == w.cognition.contract && p.input.profile == profile
  {}

  /** A finalized run, rebuilt from its own inputs, is that run: under the same version as it stands, and under
      any later version when its manifest's version is kept. */
  lemma FinalizedRebuilds(
      sci: Science, version: Version, later: Version, pack: Pack, settings: Settings, scenario: Scenario,
      response: ResponseInput, w: Workbench, profile: Option<Profile>, input: CognitionInput, e: Evaluation)
    requires Sane(sci) && Prepare(sci, pack, settings, scenario, response, w, profile).Some?
    requires var p := Prepare(sci, pack, settings, scenario, response, w, profile).value;
             Finalize(sci, version, p, input, e).Some?
    ensures var p := Prepare(sci, pack, settings, scenario, response, w, profile).value;
            var x := Finalize(sci, version, p, input, e).value;
            Rebuilt(sci, version, x, false) == Some(x) && Rebuilt(sci, later, x, true) == Some(x)
  {
    hide Sane, Authorized;
    PreparedAuthority(sci, pack, settings, scenario, response, w, profile);
  }

  /** Replaying accepts exactly the evidence that rebuilding gives back unchanged, whatever version runs it. */
  lemma ReplayExact(sci: Science, version: Version, x: Evidence)
    ensures Replay(sci, x).Some? <==> Rebuilt(sci, version, x, true) == Some(x)
    ensures Replay(sci, x).Some? ==> Replay(sci, x).value == x.manifest.trace
  {}

  /** Rebuilding without the stored version accepts only a manifest of the running version. */
  lemma RebuildNeedsVersion(sci: Science, version: Version, x: Evidence)
    requires Rebuilt(sci, version, x, false).Some?
    ensures x.manifest.version == version && Rebuilt(sci, version, x, true) == Rebuilt(sci, version, x, false)
  {}

  // --- The files of a run ---

  /** Canonical rendering, and the readers of what is stored. */
  datatype Codec = Codec(
    pack: Pack -> Bytes, readPack: Bytes -> Option<Pack>,
    scenario: Scenario -> Bytes, readScenario: Bytes -> Option<Scenario>,
    responseInput: ResponseInput -> Bytes, readResponseInput: Bytes -> Option<ResponseInput>,
    workbench: Workbench -> Bytes, readWorkbench: Bytes -> Option<Workbench>,
    input: CognitionInput -> Bytes, readInput: Bytes -> Option<CognitionInput>,
    summary: Summary -> Bytes, readSummary: Bytes -> Option<Summary>,
    manifest: Manifest -> Bytes, readManifest: Bytes -> Option<Manifest>,
    agents: Mobility -> Bytes,
    responseState: Response -> Bytes,
    responseSummary: ResponseSummary -> Bytes,
    streamSummary: StreamSummary -> Bytes,
    opportunityLines: Opportunities -> seq<Bytes>,
    attentionLines: Attention -> seq<Bytes>,
    responseLines: Response -> seq<Bytes>,
    records: CognitionInput -> Format<Record>,
    recordBytes: Receipt -> nat,
    limit: Sidecar -> nat,
    inputLimit: CognitionInput -> nat,
    manifestLimit: nat)

  /** Every stored document reads back as what was rendered, and a record is one line. */
  ghost predicate Faithful(codec: Codec) {
    && (forall x :: codec.readPack(codec.pack(x)) == Some(x))
    && (forall x :: codec.readScenario(codec.scenario(x)) == Some(x))
    && (forall x :: codec.readResponseInput(codec.responseInput(x)) == Some(x))
    && (forall x :: codec.readWorkbench(codec.workbench(x)) == Some(x))
    && (forall x :: codec.readInput(codec.input(x)) == Some(x))
    && (forall x :: codec.readSummary(codec.summary(x)) == Some(x))
    && (forall x :: codec.readManifest(codec.manifest(x)) == Some(x))
    && (forall i :: Canonical(codec.records(i)) && codec.inputLimit(i) <= codec.limit(Sidecar.CognitionInput))
  }

  /** A validated evaluation keeps to the bounds its own input sets, in the order of selection. */
  ghost predicate Bounded(sci: Science, codec: Codec) {
    forall i, q, rs, b :: sci.validated(i, q, rs, b).Some? ==>
      Within(codec.records(i), sci.validated(i, q, rs, b).value.records)
  }

  const STREAM_NAMES := {OpportunityStream, AttentionStream, ResponseStream, CognitionStream}

  /** What a sidecar of this evidence should hold, byte for byte. */
  function Content(sci: Science, codec: Codec, x: Evidence, name: Sidecar): Bytes {
    match name
    case City => codec.pack(x.pack)
    case Agents => codec.agents(x.mobility)
    case Campaign => codec.scenario(x.scenario)
    case ResponseInput => codec.responseInput(x.responseInput)
    case Workbench => codec.workbench(x.workbench)
    case CognitionInput => codec.input(x.input)
    case ResponseState => codec.responseState(x.response)
    case ResponseSummary => codec.responseSummary(sci.responseSummary(x.response))
    case CognitionSummary => codec.summary(x.evaluation.summary)
    case OpportunitySummary => codec.streamSummary(sci.opportunitySummary(x.opportunities))
    case AttentionSummary => codec.streamSummary(sci.attentionSummary(x.attention))
    case OpportunityStream => Concat(codec.opportunityLines(x.opportunities))
    case AttentionStream => Concat(codec.attentionLines(x.attention))
    case ResponseStream => Concat(codec.responseLines(x.response))
    case CognitionStream => Rendered(codec.records(x.input), x.evaluation.records)
    case Undeclared(_, _) => []
  }

  /** The documents are within their limits; the cognition input has its own version's. */
  predicate DocumentsFit(sci: Science, codec: Codec, x: Evidence) {
    && (forall name <- INPUT_NAMES + OUTPUT_NAMES - STREAM_NAMES ::
          name != Sidecar.CognitionInput ==> |Content(sci, codec, x, name)| <= codec.limit(name))
    && |codec.input(x.input)| <= codec.inputLimit(x.input)
    && |codec.manifest(x.manifest)| <= codec.manifestLimit
  }

  /** The files of a finished run directory. */
  datatype Directory = Directory(sidecars: map<Sidecar, Bytes>, manifest: Bytes)

  function FilesOf(sci: Science, codec: Codec, x: Evidence): Directory {
    Directory(map name | name in INPUT_NAMES + OUTPUT_NAMES :: Content(sci, codec, x, name), codec.manifest(x.manifest))
  }

  function Held(d: Directory, name: Sidecar): Bytes {
    if name in d.sidecars then d.sidecars[name] else []
  }

  /** The three streams hold the lines of the evidence, at the sizes the manifest declares. */
  ghost predicate StreamsHold(codec: Codec, x: Evidence, d: Directory) {
    && Holds(Held(d, OpportunityStream), codec.opportunityLines(x.opportunities), x.manifest.opportunity.bytes,
             codec.limit(OpportunityStream))
    && Holds(Held(d, AttentionStream), codec.attentionLines(x.attention), x.manifest.attention.bytes,
             codec.limit(AttentionStream))
    && Holds(Held(d, ResponseStream), codec.responseLines(x.response), x.manifest.response.bytes,
             codec.limit(ResponseStream))
  }

  /** Saving: the evidence is rebuilt under the running version, compared with what was supplied, written,
      and checked. None is a refusal before `run.json` is published. */
  ghost function Saved(sci: Science, codec: Codec, version: Version, x: Evidence): Option<Directory> {
    var rebuilt := Rebuilt(sci, version, x, false);
    if rebuilt.None? then None else
      var y := rebuilt.value;
      var files := FilesOf(sci, codec, y);
      if y.mobility.walk != x.mobility.walk || y.opportunities != x.opportunities || y.attention != x.attention
      || y.response != x.response
         || !DocumentsFit(sci, codec, y) || !StreamsHold(codec, y, files)
         || |Held(files, CognitionStream)| > codec.records(y.input).maxBytes
         || |Held(files, CognitionStream)| != codec.recordBytes(x.manifest.cognition)
      then None else Some(files)
  }

  /** What is read rather than derived. */
  datatype Stored = Stored(
    manifest: Manifest, pack: Pack, scenario: Scenario, response: ResponseInput, workbench: Workbench,
    input: CognitionInput, evaluation: Evaluation)

  function ReadEvaluation(sci: Science, codec: Codec, d: Directory, input: CognitionInput): Option<Evaluation> {
    var summary := codec.readSummary(Held(d, CognitionSummary));
    var records := Parsed(codec.records(input), Held(d, CognitionStream));
    if summary.None? || records.None? || |Held(d, Sidecar.CognitionInput)| > codec.inputLimit(input) then None
    else Some(Evaluation(sci.header(input), records.value, summary.value))
  }

  /** The declared files, each within its limit, read as the inputs of the run that was asked for. */
  function ReadStored(sci: Science, codec: Codec, runId: string, d: Directory): Option<Stored> {
    var manifest := codec.readManifest(d.manifest);
    if |d.manifest| > codec.manifestLimit || manifest.None? || manifest.value.settings.runId != runId
       || d.sidecars.Keys != INPUT_NAMES + OUTPUT_NAMES
       || (exists name <- INPUT_NAMES + OUTPUT_NAMES - STREAM_NAMES :: |Held(d, name)| > codec.limit(name))
    then None else
      var pack, scenario := codec.readPack(Held(d, City)), codec.readScenario(Held(d, Campaign));
      var response, w := codec.readResponseInput(Held(d, Sidecar.ResponseInput)),
                         codec.readWorkbench(Held(d, Sidecar.Workbench));
      var input := codec.readInput(Held(d, Sidecar.CognitionInput));
      if pack.None? || scenario.None? || response.None? || w.None? || input.None? then None else
        var e := ReadEvaluation(sci, codec, d, input.value);
        if e.None? then None
        else Some(Stored(manifest.value, pack.value, scenario.value, response.value, w.value, input.value, e.value))
  }

  /** Every file is exactly what the evidence renders to. */
  ghost predicate FilesMatch(sci: Science, codec: Codec, d: Directory, x: Evidence) {
    && DocumentsFit(sci, codec, x)
    && d.manifest == codec.manifest(x.manifest)
    && (forall name <- INPUT_NAMES + OUTPUT_NAMES - STREAM_NAMES :: Held(d, name) == Content(sci, codec, x, name))
    && StreamsHold(codec, x, d)
  }

  /** Loading: the manifest and the inputs are read, everything else is derived from them again, and every
      file must be exactly what was derived. */
  ghost function Loaded(sci: Science, codec: Codec, version: Version, runId: string, d: Directory): Option<Evidence> {
    var stored := ReadStored(sci, codec, runId, d);
    if stored.None? then None else
      var s := stored.value;
      var x := Reconstruct(sci, version, s.manifest, s.pack, s.scenario, s.response, s.workbench, s.input,
                           s.evaluation, true);
      if x.None? || !FilesMatch(sci, codec, d, x.value) then None else x
  }

  // --- What loading accepts ---

  /** What every rebuilt evidence is: its own inputs, a validated evaluation, and the manifest it was given. */
  lemma ReconstructFacts(sci: Science, version: Version, s: Stored, historical: bool)
    requires Reconstruct(sci, version, s.manifest, s.pack, s.scenario, s.response, s.workbench, s.input, s.evaluation,
                         historical).Some?
    ensures var x := Reconstruct(sci, version, s.manifest, s.pack, s.scenario, s.response, s.workbench, s.input,
                                 s.evaluation, historical).value;
            x.manifest == s.manifest && StoredOf(x) == s
    ensures exists q, b :: sci.validated(s.input, q, s.evaluation.records, b) == Some(s.evaluation)
  {
    var mobility := CityMobility(sci, s.pack, s.manifest.settings.seed, s.manifest.settings.agents,
                                 s.manifest.settings.days);
    var opportunities := sci.opportunities(mobility, s.scenario);
    var attention := sci.attention(opportunities, s.manifest.settings.seed);
    var baseline := sci.baseline(s.response, s.scenario, opportunities, attention, mobility);
    var context := sci.context(s.workbench, s.pack, s.scenario, s.response, baseline);
    var requests := sci.requests(context, mobility, baseline, s.input.contract, s.workbench.cognition.funded);
    assert sci.validated(s.input, requests, s.evaluation.records, baseline) == Some(s.evaluation);
  }

  function StoredOf(x: Evidence): Stored {
    Stored(x.manifest, x.pack, x.scenario, x.responseInput, x.workbench, x.input, x.evaluation)
  }

  lemma ReadFacts(sci: Science, codec: Codec, runId: string, d: Directory)
    requires ReadStored(sci, codec, runId, d).Some?
    ensures var s := ReadStored(sci, codec, runId, d).value;
            d.sidecars.Keys == INPUT_NAMES + OUTPUT_NAMES && s.manifest.settings.runId == runId
            && Held(d, CognitionStream) == Rendered(codec.records(s.input), s.evaluation.records)
  {
    hide INPUT_NAMES, OUTPUT_NAMES, STREAM_NAMES, Parsed, Rendered;
    var s := ReadStored(sci, codec, runId, d).value;
    RenderUndoesParse(codec.records(s.input), Held(d, CognitionStream));
  }

  lemma StreamNames(name: Sidecar)
    ensures name in STREAM_NAMES <==>
            name == OpportunityStream || name == AttentionStream || name == ResponseStream || name == CognitionStream
    ensures name in STREAM_NAMES ==> name in INPUT_NAMES + OUTPUT_NAMES
  {}

  lemma MatchingFiles(sci: Science, codec: Codec, d: Directory, x: Evidence)
    requires d.sidecars.Keys == INPUT_NAMES + OUTPUT_NAMES && FilesMatch(sci, codec, d, x)
    requires Held(d, CognitionStream) == Content(sci, codec, x, CognitionStream)
    ensures d == FilesOf(sci, codec, x)
  {
    hide INPUT_NAMES, OUTPUT_NAMES, STREAM_NAMES, DocumentsFit;
    forall name <- d.sidecars ensures d.sidecars[name] == Content(sci, codec, x, name) {
      StreamNames(name);
    }
  }

  /** What it takes for a directory to be the published form of `x`. */
  ghost predicate Publishes(sci: Science, codec: Codec, version: Version, runId: string, d: Directory, x: Evidence) {
    && x.manifest.settings.runId == runId
    && d == FilesOf(sci, codec, x)
    && DocumentsFit(sci, codec, x)
    && StreamsHold(codec, x, d)
    && Rebuilt(sci, version, x, true) == Some(x)
  }

  /** Every file that loading accepts is, byte for byte, the rendering of the evidence it returns. */
  lemma LoadedIsPublished(sci: Science, codec: Codec, version: Version, runId: string, d: Directory)
    requires Loaded(sci, codec, version, runId, d).Some?
    ensures Publishes(sci, codec, version, runId, d, Loaded(sci, codec, version, runId, d).value)
  {
    hide Reconstruct, DocumentsFit, INPUT_NAMES, OUTPUT_NAMES, STREAM_NAMES, ReadStored, StreamsHold, FilesOf;
    var x := Loaded(sci, codec, version, runId, d).value;
    ReadFacts(sci, codec, runId, d);
    ReconstructFacts(sci, version, ReadStored(sci, codec, runId, d).value, true);
    MatchingFiles(sci, codec, d, x);
  }

  lemma FilesHeld(sci: Science, codec: Codec, x: Evidence, name: Sidecar)
    requires name in INPUT_NAMES + OUTPUT_NAMES
    ensures Held(FilesOf(sci, codec, x), name) == Content(sci, codec, x, name)
  {
    hide Content, INPUT_NAMES, OUTPUT_NAMES;
  }

  lemma PublishedEvaluation(sci: Science, codec: Codec, version: Version, x: Evidence)
    requires Sane(sci) && Bounded(sci, codec) && Rebuilt(sci, version, x, true).Some?
    ensures Within(codec.records(x.input), x.evaluation.records) && x.evaluation.header == sci.header(x.input)
  {
    hide Reconstruct, Within;
    ReconstructFacts(sci, version, StoredOf(x), true);
    var q, b :| sci.validated(x.input, q, x.evaluation.records, b) == Some(x.evaluation);
  }

  lemma ReadNamesDeclared()
    ensures {City, Campaign, Sidecar.ResponseInput, Sidecar.Workbench, Sidecar.CognitionInput, CognitionSummary,
             CognitionStream}
            <= INPUT_NAMES + OUTPUT_NAMES
  {}

  /** The published inputs, each where it is read from. */
  lemma InputsHeld(sci: Science, codec: Codec, x: Evidence)
    ensures var d := FilesOf(sci, codec, x);
            && Held(d, City) == codec.pack(x.pack) && Held(d, Campaign) == codec.scenario(x.scenario)
            && Held(d, Sidecar.ResponseInput) == codec.responseInput(x.responseInput)
            && Held(d, Sidecar.Workbench) == codec.workbench(x.workbench)
            && Held(d, Sidecar.CognitionInput) == codec.input(x.input)
            && Held(d, CognitionSummary) == codec.summary(x.evaluation.summary)
            && Held(d, CognitionStream) == Rendered(codec.records(x.input), x.evaluation.records)
  {
    hide FilesOf, Held, INPUT_NAMES, OUTPUT_NAMES, Rendered;
    ReadNamesDeclared();
    FilesHeld(sci, codec, x, City);
    FilesHeld(sci, codec, x, Campaign);
    FilesHeld(sci, codec, x, Sidecar.ResponseInput);
    FilesHeld(sci, codec, x, Sidecar.Workbench);
    FilesHeld(sci, codec, x, Sidecar.CognitionInput);
    FilesHeld(sci, codec, x, CognitionSummary);
    FilesHeld(sci, codec, x, CognitionStream);
  }

  lemma PublishedEvaluationReads(sci: Science, codec: Codec, version: Version, x: Evidence)
    requires Sane(sci) && Faithful(codec) && Bounded(sci, codec) && Rebuilt(sci, version, x, true).Some?
    requires |codec.input(x.input)| <= codec.inputLimit(x.input)
    ensures ReadEvaluation(sci, codec, FilesOf(sci, codec, x), x.input) == Some(x.evaluation)
  {
    hide Reconstruct, Within, Sane, Bounded, Parsed, Canonical, Rebuilt, FilesOf, Held;
    PublishedEvaluation(sci, codec, version, x);
    InputsHeld(sci, codec, x);
    ParseUndoesRender(codec.records(x.input), x.evaluation.records);
  }

  lemma DocumentsWithinLimits(sci: Science, codec: Codec, x: Evidence, name: Sidecar)
    requires Faithful(codec) && DocumentsFit(sci, codec, x) && name in INPUT_NAMES + OUTPUT_NAMES - STREAM_NAMES
    ensures |Held(FilesOf(sci, codec, x), name)| <= codec.limit(name)
  {
    hide INPUT_NAMES, OUTPUT_NAMES, STREAM_NAMES, FilesOf, Held, Canonical;
    FilesHeld(sci, codec, x, name);
  }

  /** Published files read back as what was stored. */
  lemma PublishedReads(sci: Science, codec: Codec, version: Version, runId: string, x: Evidence)
    requires Sane(sci) && Faithful(codec) && Bounded(sci, codec)
    requires Publishes(sci, codec, version, runId, FilesOf(sci, codec, x), x)
    ensures ReadStored(sci, codec, runId, FilesOf(sci, codec, x)) == Some(StoredOf(x))
  {
    hide Sane, Bounded, Canonical, Rebuilt, StreamsHold, STREAM_NAMES, INPUT_NAMES, OUTPUT_NAMES, Content, Held;
    hide ReadEvaluation;
    var d := FilesOf(sci, codec, x);
    forall name <- INPUT_NAMES + OUTPUT_NAMES - STREAM_NAMES ensures |Held(d, name)| <= codec.limit(name) {
      DocumentsWithinLimits(sci, codec, x, name);
    }
    InputsHeld(sci, codec, x);
    PublishedEvaluationReads(sci, codec, version, x);
  }

  /** Loading accepts a directory exactly when it is, file by file and byte by byte, the published form of
      an evidence that rebuilding gives back unchanged; and it returns that evidence. */
  lemma LoadExact(sci: Science, codec: Codec, version: Version, runId: string, d: Directory, x: Evidence)
    requires Sane(sci) && Faithful(codec) && Bounded(sci, codec)
    ensures Loaded(sci, codec, version, runId, d) == Some(x) <==> Publishes(sci, codec, version, runId, d, x)
  {
    hide Reconstruct, Sane, Faithful, Bounded, ReadStored, StreamsHold, DocumentsFit, INPUT_NAMES, OUTPUT_NAMES;
    hide STREAM_NAMES, Content;
    if Loaded(sci, codec, version, runId, d) == Some(x) {
      LoadedIsPublished(sci, codec, version, runId, d);
    }
    if Publishes(sci, codec, version, runId, d, x) {
      PublishedReads(sci, codec, version, runId, x);
      forall name <- INPUT_NAMES + OUTPUT_NAMES ensures Held(d, name) == Content(sci, codec, x, name) {
        FilesHeld(sci, codec, x, name);
      }
    }
  }

  /** Whatever the running version, a loaded run replays identically. */
  lemma LoadedReplays(sci: Science, codec: Codec, version: Version, runId: string, d: Directory)
    requires Loaded(sci, codec, version, runId, d).Some?
    ensures var x := Loaded(sci, codec, version, runId, d).value; Replay(sci, x) == Some(x.manifest.trace)
  {
    hide Loaded, Replay, Reconstruct;
    LoadedIsPublished(sci, codec, version, runId, d);
    ReplayExact(sci, version, Loaded(sci, codec, version, runId, d).value);
  }

  /** Loading does not depend on the version that runs it. */
  lemma LoadIgnoresVersion(sci: Science, codec: Codec, version: Version, later: Version, runId: string, d: Directory)
    ensures Loaded(sci, codec, version, runId, d) == Loaded(sci, codec, later, runId, d)
  {
    hide ReadStored, FilesMatch;
  }

  /** The summaries and the receipt give the sizes of what is written. */
  ghost predicate Measured(sci: Science, codec: Codec) {
    && (forall o :: sci.opportunitySummary(o).bytes == |Concat(codec.opportunityLines(o))|)
    && (forall a :: sci.attentionSummary(a).bytes == |Concat(codec.attentionLines(a))|)
    && (forall r :: sci.responseSummary(r).bytes == |Concat(codec.responseLines(r))|)
    && (forall i, e :: codec.recordBytes(sci.receipt(i, e)) == |Rendered(codec.records(i), e.records)|)
  }

  /** The documents and the three streams are within their limits. */
  predicate Fits(sci: Science, codec: Codec, x: Evidence) {
    && DocumentsFit(sci, codec, x)
    && |Content(sci, codec, x, OpportunityStream)| <= codec.limit(OpportunityStream)
    && |Content(sci, codec, x, AttentionStream)| <= codec.limit(AttentionStream)
    && |Content(sci, codec, x, ResponseStream)| <= codec.limit(ResponseStream)
  }

  /** The manifest of a rebuilt run declares the sizes of its streams. */
  lemma RebuiltSizes(sci: Science, codec: Codec, version: Version, x: Evidence)
    requires Measured(sci, codec) && Rebuilt(sci, version, x, true) == Some(x)
    ensures x.manifest.opportunity.bytes == |Content(sci, codec, x, OpportunityStream)|
    ensures x.manifest.attention.bytes == |Content(sci, codec, x, AttentionStream)|
    ensures x.manifest.response.bytes == |Content(sci, codec, x, ResponseStream)|
    ensures codec.recordBytes(x.manifest.cognition) == |Content(sci, codec, x, CognitionStream)|
  {
    hide Rendered, Bound, Authorized;
  }

  /** Once its sizes are declared right, a run's streams hold exactly when they fit. */
  lemma StreamsHoldIffFit(sci: Science, codec: Codec, version: Version, x: Evidence)
    requires Measured(sci, codec) && Rebuilt(sci, version, x, true) == Some(x)
    ensures DocumentsFit(sci, codec, x) && StreamsHold(codec, x, FilesOf(sci, codec, x)) <==>
            Fits(sci, codec, x)
  {
    hide Rebuilt, Measured, DocumentsFit, FilesOf, Held;
    RebuiltSizes(sci, codec, version, x);
    DeclaredStreams();
    FilesHeld(sci, codec, x, OpportunityStream);
    FilesHeld(sci, codec, x, AttentionStream);
    FilesHeld(sci, codec, x, ResponseStream);
  }

  lemma DeclaredStreams()
    ensures STREAM_NAMES <= INPUT_NAMES + OUTPUT_NAMES
  {}

  /** A run that rebuilds unchanged is saved, as its own files, exactly when these fit their limits. */
  lemma SavedIffFits(sci: Science, codec: Codec, version: Version, x: Evidence)
    requires Sane(sci) && Bounded(sci, codec) && Measured(sci, codec) && Rebuilt(sci, version, x, false) == Some(x)
    ensures Saved(sci, codec, version, x) == if Fits(sci, codec, x) then Some(FilesOf(sci, codec, x)) else None
  {
    hide Sane, Bounded, Measured, Reconstruct, DocumentsFit, StreamsHold, Fits, Content, FilesOf;
    RebuildNeedsVersion(sci, version, x);
    StreamsHoldIffFit(sci, codec, version, x);
    RebuiltSizes(sci, codec, version, x);
    PublishedEvaluation(sci, codec, version, x);
    DeclaredStreams();
    FilesHeld(sci, codec, x, CognitionStream);
    InputsHeld(sci, codec, x);
  }

  /** Any finalized run whose files fit their limits is published as them; loading it under any version and
      replaying it gives back equal evidence and an identical replay. A run that does not fit is refused. */
  lemma PublishLoadReplay(
      sci: Science, codec: Codec, version: Version, later: Version, pack: Pack, settings: Settings, scenario: Scenario,
      response: ResponseInput, w: Workbench, profile: Option<Profile>, input: CognitionInput, e: Evaluation)
    requires Sane(sci) && Faithful(codec) && Bounded(sci, codec) && Measured(sci, codec)
    requires Prepare(sci, pack, settings, scenario, response, w, profile).Some?
    requires var p := Prepare(sci, pack, settings, scenario, response, w, profile).value;
             Finalize(sci, version, p, input, e).Some?
    ensures var p := Prepare(sci, pack, settings, scenario, response, w, profile).value;
            var x := Finalize(sci, version, p, input, e).value;
            if Fits(sci, codec, x) then
              && Saved(sci, codec, version, x) == Some(FilesOf(sci, codec, x))
              && Loaded(sci, codec, later, settings.runId, FilesOf(sci, codec, x)) == Some(x)
              && Replay(sci, x) == Some(x.manifest.trace)
            else Saved(sci, codec, version, x) == None
  {
    hide Sane, Faithful, Bounded, Measured, Reconstruct, Loaded, Replay, DocumentsFit, StreamsHold, Saved, Fits;
    hide Content;
    var p := Prepare(sci, pack, settings, scenario, response, w, profile).value;
    var x := Finalize(sci, version, p, input, e).value;
    FinalizedRebuilds(sci, version, later, pack, settings, scenario, response, w, profile, input, e);
    SavedIffFits(sci, codec, version, x);
    if Fits(sci, codec, x) {
      StreamsHoldIffFit(sci, codec, later, x);
      assert x.manifest.settings == settings;
      LoadExact(sci, codec, later, settings.runId, FilesOf(sci, codec, x), x);
      ReplayExact(sci, later, x);
    }
  }

  /** A run is saved only under the version its manifest names. */
  lemma SaveNeedsVersion(sci: Science, codec: Codec, version: Version, x: Evidence)
    requires Saved(sci, codec, version, x).Some?
    ensures x.manifest.version == version
  {
    hide Reconstruct, FilesOf;
    RebuildNeedsVersion(sci, version, x);
  }
}
