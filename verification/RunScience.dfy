/** The evidence of a version-10 city run, and the three places that derive its manifest: finalizing a run,
    rebuilding a stored one, and replaying a loaded one. The evaluators are parameters. */
module RunScience {
  import opened Results

  type Pack(==, !new)
  type Scenario(==, !new)
  type ResponseInput(==, !new)
  type Draft(==, !new)
  type ProfileBody(==, !new)
  type Contract(==, !new)
  type Mode(==, !new)
  type InputBody(==, !new)
  type Walk(==, !new)
  type Opportunities(==, !new)
  type Attention(==, !new)
  type Baseline(==, !new)
  type Context(==, !new)
  type Requests(==, !new)
  type Record(==, !new)
  type Header(==, !new)
  type Summary(==, !new)
  type Response(==, !new)
  type Receipt(==, !new)

  type Sha = string

  datatype Settings = Settings(runId: string, seed: nat, agents: nat, days: nat)

  datatype CognitionSettings = CognitionSettings(
    mode: Mode, funded: nat, contract: Contract, profileId: Option<string>, revision: Option<Sha>)

  datatype Workbench = Workbench(settings: Settings, cognition: CognitionSettings, draft: Draft)

  datatype Profile = Profile(id: string, revision: Sha, body: ProfileBody)

  datatype CognitionInput = CognitionInput(contract: Contract, profile: Option<Profile>, body: InputBody)

  datatype Evaluation = Evaluation(header: Header, records: seq<Record>, summary: Summary)

  /** `walk` is the agents and all they do. */
  datatype Mobility = Mobility(pack: Pack, seed: nat, days: nat, walk: Walk)

  datatype Trace = Trace(agentsSha: Sha, traceSha: Sha, frames: nat, positions: nat)

  datatype StreamSummary = StreamSummary(sha: Sha, bytes: nat, counts: seq<nat>)

  datatype ResponseSummary = ResponseSummary(
    sha: Sha, bytes: nat, stateSha: Sha, ruleStateSha: Sha, cognitionStateSha: Sha, counts: seq<nat>)

  datatype Version = Version(package: string, python: string)

  datatype Manifest = Manifest(
    version: Version,
    settings: Settings,
    pack: Sha,
    trace: Trace,
    scenario: Sha,
    opportunity: StreamSummary,
    opportunitySummary: Sha,
    attention: StreamSummary,
    attentionSummary: Sha,
    responseInput: Sha,
    response: ResponseSummary,
    responseSummary: Sha,
    policyId: string,
    policySha: Sha,
    schemas: seq<nat>,
    workbench: Sha,
    cognition: Receipt)

  /** A finished run: what is published, and what loading gives back. */
  datatype Evidence = Evidence(
    manifest: Manifest,
    pack: Pack,
    mobility: Mobility,
    scenario: Scenario,
    opportunities: Opportunities,
    attention: Attention,
    responseInput: ResponseInput,
    response: Response,
    workbench: Workbench,
    input: CognitionInput,
    evaluation: Evaluation)

  /** A run whose rules have been evaluated and whose requests are frozen, before any provider is asked. */
  datatype Scientific = Scientific(
    pack: Pack,
    mobility: Mobility,
    scenario: Scenario,
    opportunities: Opportunities,
    attention: Attention,
    responseInput: ResponseInput,
    baseline: Baseline,
    workbench: Workbench,
    input: CognitionInput,
    requests: Requests)

  /** The evaluators. Each is deterministic; those that may refuse return None. */
  datatype Science = Science(
    matches: (Workbench, Pack, Scenario, ResponseInput) -> bool,
    walk: (Pack, nat, nat, nat) -> Walk,
    trace: Mobility -> Trace,
    opportunities: (Mobility, Scenario) -> Opportunities,
    attention: (Opportunities, nat) -> Attention,
    baseline: (ResponseInput, Scenario, Opportunities, Attention, Mobility) -> Baseline,
    context: (Workbench, Pack, Scenario, ResponseInput, Baseline) -> Context,
    requests: (Context, Mobility, Baseline, Contract, nat) -> Requests,
    input: (Context, Requests, Mode, nat, Option<Profile>, Contract) -> Option<CognitionInput>,
    validated: (CognitionInput, Requests, seq<Record>, Baseline) -> Option<Evaluation>,
    applied: (Baseline, CognitionInput, Evaluation) -> Option<Response>,
    offline: Mode -> bool,
    header: CognitionInput -> Header,
    opportunitySummary: Opportunities -> StreamSummary,
    attentionSummary: Attention -> StreamSummary,
    responseSummary: Response -> ResponseSummary,
    streamSummarySha: StreamSummary -> Sha,
    responseSummarySha: ResponseSummary -> Sha,
    packSha: Pack -> Sha,
    scenarioSha: Scenario -> Sha,
    responseInputSha: ResponseInput -> Sha,
    workbenchSha: Workbench -> Sha,
    policyId: Contract -> string,
    policySha: Contract -> Sha,
    schemas: (Pack, Scenario, Opportunities, Attention) -> seq<nat>,
    receipt: (CognitionInput, Evaluation) -> Receipt)

  /** What the evaluators keep: an input carries the contract and profile it was built from, and a validated
      evaluation carries the header of its input. */
  ghost predicate Sane(sci: Science) {
    && (forall c, q, mode, n, profile, contract ::
          sci.input(c, q, mode, n, profile, contract).Some? ==>
            sci.input(c, q, mode, n, profile, contract).value.contract == contract
            && sci.input(c, q, mode, n, profile, contract).value.profile == profile)
    && (forall i, q, rs, b :: sci.validated(i, q, rs, b).Some? ==>
        sci.validated(i, q, rs, b).value.header == sci.header(i))
  }

  function CityMobility(sci: Science, pack: Pack, seed: nat, count: nat, days: nat): Mobility {
    Mobility(pack, seed, days, sci.walk(pack, seed, count, days))
  }

  /** Offline cognition names no provider; any other names one exact revision. */
  predicate Coherent(sci: Science, settings: CognitionSettings) {
    if sci.offline(settings.mode) then settings.profileId.None? && settings.revision.None?
    else settings.profileId.Some? && settings.revision.Some?
  }

  /** Whether the workbench input is valid and describes exactly this execution. */
  predicate Bound(sci: Science, w: Workbench, pack: Pack, settings: Settings, scenario: Scenario,
                  response: ResponseInput)
  {
    Coherent(sci, w.cognition) && w.settings == settings && sci.matches(w, pack, scenario, response)
  }

  /** Whether the frozen input was built from the authority of the workbench input. */
  predicate Authorized(settings: CognitionSettings, input: CognitionInput) {
    && settings.contract == input.contract
    && settings.profileId == (if input.profile.None? then None else Some(input.profile.value.id))
    && settings.revision == (if input.profile.None? then None else Some(input.profile.value.revision))
  }

  /** The provider profile a run may carry: none offline, and otherwise the one the workbench input names. */
  predicate Carries(sci: Science, settings: CognitionSettings, profile: Option<Profile>) {
    if sci.offline(settings.mode) then profile.None?
    else profile.Some? && settings.profileId == Some(profile.value.id)
         && settings.revision == Some(profile.value.revision)
  }

  // --- Preparing and finalizing ---

  function Prepare(
      sci: Science, pack: Pack, settings: Settings, scenario: Scenario, response: ResponseInput, w: Workbench,
      profile: Option<Profile>): Option<Scientific> {
    if !Bound(sci, w, pack, settings, scenario, response) || !Carries(sci, w.cognition, profile) then None else
      var mobility := CityMobility(sci, pack, settings.seed, settings.agents, settings.days);
      var opportunities := sci.opportunities(mobility, scenario);
      var attention := sci.attention(opportunities, settings.seed);
      var baseline := sci.baseline(response, scenario, opportunities, attention, mobility);
      var context := sci.context(w, pack, scenario, response, baseline);
      var requests := sci.requests(context, mobility, baseline, w.cognition.contract, w.cognition.funded);
      var input := sci.input(context, requests, w.cognition.mode, w.cognition.funded, profile, w.cognition.contract);
      if input.None? then None else
        Some(Scientific(pack, mobility, scenario, opportunities, attention, response, baseline, w, input.value,
                        requests))
  }

  function FinalManifest(sci: Science, version: Version, p: Scientific, input: CognitionInput, e: Evaluation,
                         applied: Response): Manifest
  {
    var opportunity := sci.opportunitySummary(p.opportunities);
    var attention := sci.attentionSummary(p.attention);
    var response := sci.responseSummary(applied);
    Manifest(
      version, p.workbench.settings, sci.packSha(p.pack), sci.trace(p.mobility), sci.scenarioSha(p.scenario),
      opportunity, sci.streamSummarySha(opportunity), attention, sci.streamSummarySha(attention),
      sci.responseInputSha(p.responseInput), response, sci.responseSummarySha(response),
      sci.policyId(input.contract), sci.policySha(input.contract),
      sci.schemas(p.pack, p.scenario, p.opportunities, p.attention),
      sci.workbenchSha(p.workbench), sci.receipt(input, e))
  }

  /** Python's `finalize_city_run_v2`. */
  function Finalize(sci: Science, version: Version, p: Scientific, input: CognitionInput,
                    e: Evaluation): Option<Evidence>
  {
    if input != p.input then None else
      var verified := sci.validated(input, p.requests, e.records, p.baseline);
      if verified != Some(e) then None else
        var applied := sci.applied(p.baseline, input, e);
        if applied.None? then None else
          Some(Evidence(
                 FinalManifest(sci, version, p, input, e, applied.value), p.pack, p.mobility, p.scenario,
                 p.opportunities, p.attention, p.responseInput, applied.value, p.workbench, input, e))
  }

  // --- Rebuilding a stored run ---

  /** Python's `_reconstruct_v10`: everything derived again from the stored inputs, under the running version
      or, for a stored run, under the version its manifest names. */
  function Reconstruct(
      sci: Science, version: Version, manifest: Manifest, pack: Pack, scenario: Scenario, response: ResponseInput,
      w: Workbench, input: CognitionInput, e: Evaluation, historical: bool): Option<Evidence> {
    if !Bound(sci, w, pack, manifest.settings, scenario, response) then None else
      var mobility := CityMobility(sci, pack, manifest.settings.seed, manifest.settings.agents, manifest.settings.days);
      var opportunities := sci.opportunities(mobility, scenario);
      var attention := sci.attention(opportunities, manifest.settings.seed);
      var baseline := sci.baseline(response, scenario, opportunities, attention, mobility);
      var context := sci.context(w, pack, scenario, response, baseline);
      if !Authorized(w.cognition, input) then None else
        var requests := sci.requests(context, mobility, baseline, input.contract, w.cognition.funded);
        var rebuilt := sci.input(context, requests, w.cognition.mode, w.cognition.funded, input.profile,
                                 input.contract);
        if rebuilt != Some(input) then None else
          var staged := Scientific(pack, mobility, scenario, opportunities, attention, response, baseline, w, input,
                                   requests);
          var final := Finalize(sci, version, staged, input, e);
          if final.None? then None else
            var x := final.value;
            var evidence := if historical then x.(manifest := x.manifest.(version := manifest.version)) else x;
            if evidence.manifest == manifest then Some(evidence) else None
  }

  // --- Replaying a loaded run ---

  /** The manifest a replay expects, from the stored evidence and the values computed again. */
  function ReplayManifest(
      sci: Science, stored: Evidence, trace: Trace, opportunities: Opportunities, attention: Attention,
      response: Response, input: CognitionInput, e: Evaluation): Manifest {
    var opportunitySummary := sci.opportunitySummary(opportunities);
    var attentionSummary := sci.attentionSummary(attention);
    var responseSummary := sci.responseSummary(response);
    Manifest(
      stored.manifest.version, stored.manifest.settings, sci.packSha(stored.pack), trace,
      sci.scenarioSha(stored.scenario),
      opportunitySummary, sci.streamSummarySha(opportunitySummary), attentionSummary,
      sci.streamSummarySha(attentionSummary),
      sci.responseInputSha(stored.responseInput), responseSummary, sci.responseSummarySha(responseSummary),
      sci.policyId(stored.input.contract), sci.policySha(stored.input.contract),
      sci.schemas(stored.pack, stored.scenario, opportunities, attention),
      sci.workbenchSha(stored.workbench), sci.receipt(input, e))
  }

  /** Python's `_replay_city_run_v10`: None is its `CorruptRunArtifact`; otherwise the run is identical, and
      the result is the trace it computed again. */
  function Replay(sci: Science, stored: Evidence): Option<Trace> {
    var settings := stored.manifest.settings;
    if !Bound(sci, stored.workbench, stored.pack, settings, stored.scenario, stored.responseInput) then None else
      var mobility := CityMobility(sci, stored.pack, settings.seed, settings.agents, settings.days);
      var trace := sci.trace(mobility);
      if stored.mobility.pack != stored.pack || stored.mobility.seed != settings.seed
      || stored.mobility.days != settings.days
         || stored.mobility.walk != mobility.walk || sci.trace(stored.mobility) != trace
      then None else
        var opportunities := sci.opportunities(mobility, stored.scenario);
        var attention := sci.attention(opportunities, settings.seed);
        var baseline := sci.baseline(stored.responseInput, stored.scenario, opportunities, attention, mobility);
        if opportunities != stored.opportunities || attention != stored.attention then None else
          var cognition := stored.workbench.cognition;
          var context := sci.context(stored.workbench, stored.pack, stored.scenario, stored.responseInput, baseline);
          if !Authorized(cognition, stored.input) then None else
            var requests := sci.requests(context, mobility, baseline, stored.input.contract, cognition.funded);
            var input := sci.input(context, requests, cognition.mode, cognition.funded, stored.input.profile,
                                   stored.input.contract);
            if input != Some(stored.input) then None else
              var e := sci.validated(stored.input, requests, stored.evaluation.records, baseline);
              if e != Some(stored.evaluation) then None else
                var response := sci.applied(baseline, stored.input, stored.evaluation);
                if response != Some(stored.response) then None else
                  var expected := ReplayManifest(sci, stored, trace, opportunities, attention, stored.response,
                                                 stored.input, stored.evaluation);
                  if expected != stored.manifest then None else Some(trace)
  }
}
