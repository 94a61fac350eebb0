/** What each file of a published run is, and what follows from the stored inputs alone. The walk, the
    opportunities, the attention, the rule baseline, the response and the manifest are all evaluated again from
    the pack, the scenario, the response input, the workbench input and the frozen cognition input. A directory is
    accepted exactly when its fifteen sidecars and its manifest are the renderings of these parts, each where it
    belongs, within their sizes. */
module RunFiles {
  import opened Results
  import opened RunStreams
  import opened RunRecords
  import opened RunSavers
  import opened RunScience
  import opened RunEvidence

  // --- What follows from the stored inputs ---

  /** The workbench input is coherent and describes this execution: offline it names no provider, otherwise the exact
      revision of the profile that the frozen input carries. */
  ghost predicate Described(sci: Science, x: Evidence) {
    var cognition := x.workbench.cognition;
    && x.workbench.settings == x.manifest.settings
    && sci.matches(x.workbench, x.pack, x.scenario, x.responseInput)
    && cognition.contract == x.input.contract
    && (sci.offline(cognition.mode) ==>
          cognition.profileId.None? && cognition.revision.None? && x.input.profile.None?)
    && (!sci.offline(cognition.mode) ==>
          && x.input.profile.Some?
          && cognition.profileId == Some(x.input.profile.value.id)
          && cognition.revision == Some(x.input.profile.value.revision))
  }

  /** The walk, the opportunities and the attention are evaluated from the pack, the scenario and the settings. */
  ghost predicate Walked(sci: Science, x: Evidence) {
    var settings := x.manifest.settings;
    && x.mobility.pack == x.pack && x.mobility.seed == settings.seed && x.mobility.days == settings.days
    && x.mobility.walk == sci.walk(x.pack, settings.seed, settings.agents, settings.days)
    && x.opportunities == sci.opportunities(x.mobility, x.scenario)
    && x.attention == sci.attention(x.opportunities, settings.seed)
  }

  /** The frozen input, the evaluation and the response come from the same rule baseline. */
  ghost predicate Answered(sci: Science, x: Evidence) {
    var cognition := x.workbench.cognition;
    var baseline := sci.baseline(x.responseInput, x.scenario, x.opportunities, x.attention, x.mobility);
    var context := sci.context(x.workbench, x.pack, x.scenario, x.responseInput, baseline);
    var requests := sci.requests(context, x.mobility, baseline, cognition.contract, cognition.funded);
    && Some(x.input) ==
       sci.input(context, requests, cognition.mode, cognition.funded, x.input.profile, cognition.contract)
    && Some(x.evaluation) == sci.validated(x.input, requests, x.evaluation.records, baseline)
    && Some(x.response) == sci.applied(baseline, x.input, x.evaluation)
  }

  /** The manifest names each part by its digest or summary. */
  ghost predicate Summarized(sci: Science, x: Evidence) {
    var m := x.manifest;
    && m.pack == sci.packSha(x.pack) && m.scenario == sci.scenarioSha(x.scenario)
    && m.responseInput == sci.responseInputSha(x.responseInput) && m.workbench == sci.workbenchSha(x.workbench)
    && m.trace == sci.trace(x.mobility)
    && m.opportunity == sci.opportunitySummary(x.opportunities)
    && m.opportunitySummary == sci.streamSummarySha(m.opportunity)
    && m.attention == sci.attentionSummary(x.attention)
    && m.attentionSummary == sci.streamSummarySha(m.attention)
    && m.response == sci.responseSummary(x.response)
    && m.responseSummary == sci.responseSummarySha(m.response)
    && m.policyId == sci.policyId(x.input.contract) && m.policySha == sci.policySha(x.input.contract)
    && m.schemas == sci.schemas(x.pack, x.scenario, x.opportunities, x.attention)
    && m.cognition == sci.receipt(x.input, x.evaluation)
  }

  /** Rebuilding gives an evidence back unchanged exactly when all of it follows from its stored inputs. */
  lemma RebuiltExactly(sci: Science, version: Version, x: Evidence)
    ensures Rebuilt(sci, version, x, true) == Some(x) <==>
            Described(sci, x) && Walked(sci, x) && Answered(sci, x) && Summarized(sci, x)
  {}

  // --- What each file is ---

  ghost predicate Has(d: Directory, name: Sidecar, data: Bytes) {
    name in d.sidecars && d.sidecars[name] == data
  }

  ghost predicate InputsAre(codec: Codec, x: Evidence, d: Directory) {
    && Has(d, City, codec.pack(x.pack))
    && Has(d, Agents, codec.agents(x.mobility))
    && Has(d, Campaign, codec.scenario(x.scenario))
    && Has(d, Sidecar.ResponseInput, codec.responseInput(x.responseInput))
    && Has(d, Sidecar.Workbench, codec.workbench(x.workbench))
    && Has(d, Sidecar.CognitionInput, codec.input(x.input))
  }

  ghost predicate OutputsAre(sci: Science, codec: Codec, x: Evidence, d: Directory) {
    && Has(d, ResponseState, codec.responseState(x.response))
    && Has(d, Sidecar.ResponseSummary, codec.responseSummary(sci.responseSummary(x.response)))
    && Has(d, CognitionSummary, codec.summary(x.evaluation.summary))
    && Has(d, OpportunitySummary, codec.streamSummary(sci.opportunitySummary(x.opportunities)))
    && Has(d, AttentionSummary, codec.streamSummary(sci.attentionSummary(x.attention)))
  }

  ghost predicate StreamsAre(codec: Codec, x: Evidence, d: Directory) {
    && Has(d, OpportunityStream, Concat(codec.opportunityLines(x.opportunities)))
    && Has(d, AttentionStream, Concat(codec.attentionLines(x.attention)))
    && Has(d, ResponseStream, Concat(codec.responseLines(x.response)))
    && Has(d, CognitionStream, Rendered(codec.records(x.input), x.evaluation.records))
  }

  /** The files of a run: its fifteen sidecars, no undeclared one, and its manifest. */
  ghost predicate FilesAre(sci: Science, codec: Codec, x: Evidence, d: Directory) {
    && InputsAre(codec, x, d) && OutputsAre(sci, codec, x, d) && StreamsAre(codec, x, d)
    && (forall name <- d.sidecars :: !name.Undeclared?)
    && d.manifest == codec.manifest(x.manifest)
  }

  lemma EachFile(sci: Science, codec: Codec, x: Evidence, d: Directory, name: Sidecar)
    requires InputsAre(codec, x, d) && OutputsAre(sci, codec, x, d) && StreamsAre(codec, x, d)
    ensures !name.Undeclared? ==> Has(d, name, Content(sci, codec, x, name))
  {
    hide Rendered, Concat;
  }

  lemma Declared(name: Sidecar)
    ensures name in INPUT_NAMES + OUTPUT_NAMES <==> !name.Undeclared?
  {}

  lemma FilesAreContent(sci: Science, codec: Codec, x: Evidence, d: Directory)
    requires FilesAre(sci, codec, x, d)
    ensures d == FilesOf(sci, codec, x)
  {
    hide InputsAre, OutputsAre, StreamsAre, INPUT_NAMES, OUTPUT_NAMES, Content;
    forall name: Sidecar ensures name in INPUT_NAMES + OUTPUT_NAMES <==> !name.Undeclared? {
      Declared(name);
    }
    forall name: Sidecar ensures !name.Undeclared? ==> Has(d, name, Content(sci, codec, x, name)) {
      EachFile(sci, codec, x, d, name);
    }
    assert d.sidecars == FilesOf(sci, codec, x).sidecars;
  }

  ghost predicate HoldsContent(sci: Science, codec: Codec, x: Evidence, d: Directory) {
    forall name: Sidecar :: !name.Undeclared? ==>
      name in d.sidecars && d.sidecars[name] == Content(sci, codec, x, name)
  }

  lemma FilesHoldContent(sci: Science, codec: Codec, x: Evidence)
    ensures HoldsContent(sci, codec, x, FilesOf(sci, codec, x))
    ensures FilesOf(sci, codec, x).sidecars.Keys == INPUT_NAMES + OUTPUT_NAMES
  {
    hide INPUT_NAMES, OUTPUT_NAMES, Content;
    forall name: Sidecar ensures name in INPUT_NAMES + OUTPUT_NAMES <==> !name.Undeclared? {
      Declared(name);
    }
  }

  lemma ContentOfInputs(sci: Science, codec: Codec, x: Evidence, d: Directory)
    requires HoldsContent(sci, codec, x, d)
    ensures InputsAre(codec, x, d)
  {
    hide Rendered, Concat;
  }

  lemma ContentOfOutputs(sci: Science, codec: Codec, x: Evidence, d: Directory)
    requires HoldsContent(sci, codec, x, d)
    ensures OutputsAre(sci, codec, x, d)
  {
    hide Rendered, Concat;
  }

  lemma ContentOfStreams(sci: Science, codec: Codec, x: Evidence, d: Directory)
    requires HoldsContent(sci, codec, x, d)
    ensures StreamsAre(codec, x, d)
  {
    hide Rendered, Concat;
  }

  lemma ContentIsFiles(sci: Science, codec: Codec, x: Evidence)
    ensures FilesAre(sci, codec, x, FilesOf(sci, codec, x))
  {
    hide INPUT_NAMES, OUTPUT_NAMES, Content, HoldsContent, InputsAre, OutputsAre, StreamsAre;
    var d := FilesOf(sci, codec, x);
    FilesHoldContent(sci, codec, x);
    ContentOfInputs(sci, codec, x, d);
    ContentOfOutputs(sci, codec, x, d);
    ContentOfStreams(sci, codec, x, d);
    forall name: Sidecar ensures name in INPUT_NAMES + OUTPUT_NAMES <==> !name.Undeclared? {
      Declared(name);
    }
  }

  /** Every file is within its limit; the cognition input within its version's, and the three streams of the rules at
      the size that the manifest declares. */
  ghost predicate SizesHold(codec: Codec, x: Evidence, d: Directory) {
    && (forall name <- d.sidecars :: name != Sidecar.CognitionInput && name != CognitionStream ==>
          |d.sidecars[name]| <= codec.limit(name))
    && |codec.input(x.input)| <= codec.inputLimit(x.input) && |d.manifest| <= codec.manifestLimit
    && |Held(d, OpportunityStream)| == x.manifest.opportunity.bytes
    && |Held(d, AttentionStream)| == x.manifest.attention.bytes
    && |Held(d, ResponseStream)| == x.manifest.response.bytes
  }

  lemma StreamNamed(name: Sidecar)
    ensures name in STREAM_NAMES <==>
            name == OpportunityStream || name == AttentionStream || name == ResponseStream || name == CognitionStream
  {}

  lemma DocumentSizes(sci: Science, codec: Codec, x: Evidence, d: Directory)
    requires HoldsContent(sci, codec, x, d) && d.sidecars.Keys == INPUT_NAMES + OUTPUT_NAMES
    requires d.manifest == codec.manifest(x.manifest)
    ensures DocumentsFit(sci, codec, x) <==>
            && (forall name <- d.sidecars :: name != Sidecar.CognitionInput && name !in STREAM_NAMES ==>
                  |d.sidecars[name]| <= codec.limit(name))
            && |codec.input(x.input)| <= codec.inputLimit(x.input) && |d.manifest| <= codec.manifestLimit
  {
    hide INPUT_NAMES, OUTPUT_NAMES, STREAM_NAMES, Content;
    forall name: Sidecar ensures name in INPUT_NAMES + OUTPUT_NAMES <==> !name.Undeclared? {
      Declared(name);
    }
  }

  lemma StreamSizes(codec: Codec, x: Evidence, d: Directory)
    requires StreamsAre(codec, x, d)
    ensures StreamsHold(codec, x, d) <==>
            && |Held(d, OpportunityStream)| == x.manifest.opportunity.bytes <= codec.limit(OpportunityStream)
            && |Held(d, AttentionStream)| == x.manifest.attention.bytes <= codec.limit(AttentionStream)
            && |Held(d, ResponseStream)| == x.manifest.response.bytes <= codec.limit(ResponseStream)
  {
    hide Concat, Rendered;
  }

  lemma SizesRead(sci: Science, codec: Codec, x: Evidence)
    ensures var d := FilesOf(sci, codec, x);
            SizesHold(codec, x, d) <==> DocumentsFit(sci, codec, x) && StreamsHold(codec, x, d)
  {
    hide INPUT_NAMES, OUTPUT_NAMES, STREAM_NAMES, Content, HoldsContent, StreamsAre, DocumentsFit, StreamsHold;
    var d := FilesOf(sci, codec, x);
    FilesHoldContent(sci, codec, x);
    ContentOfStreams(sci, codec, x, d);
    DocumentSizes(sci, codec, x, d);
    StreamSizes(codec, x, d);
    forall name: Sidecar
      ensures name in INPUT_NAMES + OUTPUT_NAMES <==> !name.Undeclared?
      ensures name in STREAM_NAMES <==> name == OpportunityStream || name == AttentionStream || name == ResponseStream
                                        || name == CognitionStream
    {
      Declared(name);
      StreamNamed(name);
    }
  }

  /** The evidence follows from its stored inputs. */
  ghost predicate Derived(sci: Science, x: Evidence) {
    Described(sci, x) && Walked(sci, x) && Answered(sci, x) && Summarized(sci, x)
  }

  /** Loading accepts a directory as an evidence exactly when each file is what the evidence calls for, within its
      size, and all of the evidence follows from the inputs among them. */
  lemma LoadsExactly(sci: Science, codec: Codec, version: Version, runId: string, d: Directory, x: Evidence)
    requires Sane(sci) && Faithful(codec) && Bounded(sci, codec)
    ensures Loaded(sci, codec, version, runId, d) == Some(x) <==>
            x.manifest.settings.runId == runId && FilesAre(sci, codec, x, d) && SizesHold(codec, x, d)
            && Derived(sci, x)
  {
    hide Sane, Faithful, Bounded, Loaded, SizesHold, DocumentsFit, StreamsHold, FilesAre, FilesOf, Rebuilt;
    hide Described, Walked, Answered, Summarized;
    LoadExact(sci, codec, version, runId, d, x);
    RebuiltExactly(sci, version, x);
    SizesRead(sci, codec, x);
    ContentIsFiles(sci, codec, x);
    if FilesAre(sci, codec, x, d) {
      FilesAreContent(sci, codec, x, d);
    }
  }

  /** The evidence with the walk's own pack, seed and days, which the saver derives again. */
  function Settled(x: Evidence): Evidence {
    x.(mobility := Mobility(x.pack, x.manifest.settings.seed, x.manifest.settings.days, x.mobility.walk))
  }

  /** Saving writes exactly the files that the evidence calls for, and only evidence that follows from its inputs. */
  lemma SavesExactly(sci: Science, codec: Codec, version: Version, x: Evidence, d: Directory)
    requires Saved(sci, codec, version, x) == Some(d)
    ensures FilesAre(sci, codec, Settled(x), d) && SizesHold(codec, x, d) && Derived(sci, Settled(x))
  {
    hide Rebuilt, DocumentsFit, StreamsHold, FilesAre, FilesOf, SizesHold, Described, Walked, Answered, Summarized;
    var y := Rebuilt(sci, version, x, false).value;
    RebuildNeedsVersion(sci, version, x);
    RebuiltKeeps(sci, version, x);
    RebuiltExactly(sci, version, y);
    SizesRead(sci, codec, y);
    ContentIsFiles(sci, codec, y);
    SizesOfInput(codec, x, y, d);
  }

  lemma RebuiltKeeps(sci: Science, version: Version, x: Evidence)
    requires Rebuilt(sci, version, x, true).Some?
    ensures var y := Rebuilt(sci, version, x, true).value;
            && Rebuilt(sci, version, y, true) == Some(y)
            && y.manifest == x.manifest && y.pack == x.pack && y.scenario == x.scenario
            && y.responseInput == x.responseInput && y.workbench == x.workbench && y.input == x.input
            && y.evaluation == x.evaluation
            && y.mobility == Mobility(x.pack, x.manifest.settings.seed, x.manifest.settings.days, y.mobility.walk)
  {}

  lemma SizesOfInput(codec: Codec, x: Evidence, y: Evidence, d: Directory)
    requires y.manifest == x.manifest && y.input == x.input
    ensures SizesHold(codec, x, d) <==> SizesHold(codec, y, d)
  {}

  // --- Different runs have different files ---

  /** Two derived documents render alike only when they are alike; the read ones are as they read back. */
  ghost predicate RendersApart(codec: Codec) {
    && (forall a, b :: codec.agents(a) == codec.agents(b) ==> a == b)
    && (forall a, b :: codec.responseState(a) == codec.responseState(b) ==> a == b)
    && (forall a, b :: codec.streamSummary(a) == codec.streamSummary(b) ==> a == b)
    && (forall a, b :: codec.responseSummary(a) == codec.responseSummary(b) ==> a == b)
  }

  /** Two evidences with the same files have the same inputs, the same walk, the same response and the same
      summaries of their streams. */
  lemma FilesTellApart(sci: Science, codec: Codec, x: Evidence, y: Evidence, d: Directory)
    requires Faithful(codec) && RendersApart(codec) && FilesAre(sci, codec, x, d) && FilesAre(sci, codec, y, d)
    ensures x.manifest == y.manifest && x.pack == y.pack && x.scenario == y.scenario
    ensures x.responseInput == y.responseInput && x.workbench == y.workbench && x.input == y.input
    ensures x.mobility == y.mobility && x.response == y.response && x.evaluation.summary == y.evaluation.summary
    ensures sci.opportunitySummary(x.opportunities) == sci.opportunitySummary(y.opportunities)
    ensures sci.attentionSummary(x.attention) == sci.attentionSummary(y.attention)
  {
    hide StreamsAre;
  }
}
