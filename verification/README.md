# Verified model of AdLife's hardest city code

AdLife turns OpenStreetMap extracts into street networks, simulates people moving and seeing advertisements on
them, stores each run as a directory of verified files, and tells the run as a story. This project models the
parts of it where an error would be hard to see, and proves what they promise:

- **Street networks** (`Digraphs`, `Kosaraju`, `Roads`, `OsmTags`, `OsmExtract`, `OsmDraft`, `OsmImport`,
  `OsmConvert`, `OsmStreets`, `OsmAcceptance`, `OsmPacks`, `OsmShapes`, `OsmSources`, `Orders`, `Decimals`, `Basics`).
  The two-pass component search with its explicit stacks, written once per schema, is correct for every road list.
  What a finished pack holds is told by the elements of the extract alone: which nodes where, and in which direction a
  car may pass between two of them, by the tags of the ways. So is which extracts are accepted. Whatever a conversion
  keeps is strongly connected on its own; the two schemas keep the same streets; the order of the extract's elements
  does not matter; the tags that the provenance records decide the streets. Some branches of the code never fire, and
  the proofs show it: no component of two or more nodes is without a road (`KeptGraph` ends in `retained != []`), and
  the pack's checks of connectivity, of road names and of the number of roads never refuse what a conversion kept
  (`PackAcceptedExactly`).
- **Test shards** (`Makespan`, `Shards`, `ShardTimes`). Packing the longest file first onto the lightest shard is
  within 4/3 − 1/(3·count) of any other assignment, a bound attained for every count; measured times add up.
- **Stories** (`Spacing`, `StoryMoments`, `StoryKept`, `StoryKey`, `StoryTotals`, `StoryPeople`, `LegTrack`). Which of
  a person's moments are kept, which are shown first, what the totals count, and when a traveller passes each point;
  from the evidence to the finished story, every day on which the model was asked about a listed person is shown.
- **The verified-story cache** (`StoryCache`, `StoryCacheRuns`). Concurrent calls interleaved with changes of the
  run files, as a state machine. The recheck compares fingerprints only, so a content that comes back while a call
  is at work can put a wrong story under its fingerprint. Which changes are harmful can be told when they are made:
  after exactly these the calls in progress can fill the cache wrongly with no further change, and without them
  every interleaving keeps every entry right.
- **The run store** (`RunStreams`, `RunRecords`, `RunSavers`, `RunSaverRuns`, `RunScience`, `RunEvidence`,
  `RunFiles`, `RunJourneys`). The byte-exact stream check, the record streams, the reserve–write–check–link protocol with competing and failing
  savers, and the three separate derivations of a version-10 manifest. Loading accepts exactly the directories whose
  fifteen files are what follows from the inputs among them. Joined: in every run of competing savers, an undisturbed directory with `run.json` loads as exactly the evidence its maker was saving.
- **Provider addresses** (`ProviderUrls`, `ProviderNormal`, `ProviderTexts`, `ProviderPolicy`, `ProviderPrinted`,
  `ProviderRegistry`, `ProviderTyped`, `ProviderPorts`). Which texts are accepted and as what address, told by the
  characters of their parts; what an operator may leave out. Normalizing an address is idempotent exactly when the
  stored text passes the credential screen; an address is given for which it does not. The guard on the server's own ports
  keeps all of them exactly when 443 is refused only together with 80. The registry only grows.
- **The report parser** (`Nesting`, `ReportDocument`, `ReportText`, `ReportTags`, `ReportStyles`, `ReportLedgers`,
  `ReportParser`). Accepted documents are well-nested forests; the recorded styles and term ledgers are those of the
  forest's style elements and definition lists; a recorded text is told letter by letter from its parts, and what a tag
  does by its attributes; and of the sixteen conditions of the final check two decide its verdict: an open element and a
  term without a value.

Conventions. A loop of the code is a method with a loop, proved equal to a specification function or given its
property outright; the lemmas are about that function. Exceptions are `Result` or `Option` values. Floating-point
numbers are reals. Hashes, canonical JSON, the mobility, opportunity, attention, response and cognition
evaluators, the distance function, the credential screen and IP-address parsing are parameters, with only the
facts used stated as predicates: `Faithful`, `Canonical`, `Sane`, `Bounded`, `Measured`.

Verify with `dafny verify dfyconfig.toml`.

## Model

| member | source | states |
|---|---|---|
| Digraphs.WalkStaysInComponent | src/adlife/city/osm.py:188-231 | a walk between two nodes of a component never leaves it |
| Digraphs.TransposedReaches | src/adlife/city/osm.py:188-196 | reaching along incoming edges is reaching backwards along outgoing ones |
| Kosaraju.FinishTop | src/adlife/city/osm.py:205-213 | finishing the top of the stack keeps the order's guarantee about components |
| Kosaraju.Explore | src/adlife/city/osm.py:203-213 | one start of the first pass visits its node and keeps every invariant of the pass |
| Kosaraju.FinishOrder | src/adlife/city/osm.py:198-213 | the finish order lists every node once, and whenever a node before any cut reaches one after it, its component extends beyond the cut |
| Kosaraju.LastFinishedReachesBack | src/adlife/city/osm.py:217-229 | among unseen nodes, the last to finish is reached back from what reaches it |
| Kosaraju.GatheredComponent | src/adlife/city/osm.py:220-230 | when the backward search runs dry it has gathered exactly one component |
| Kosaraju.Gather | src/adlife/city/osm.py:220-229 | the backward search gathers what reaches the start through unseen nodes and sees every incoming neighbour |
| Kosaraju.Components | src/adlife/city/osm.py:198-231 | the result partitions the nodes into non-empty sets that two nodes share exactly when each reaches the other |
| Roads.BuildAdjacency | src/adlife/city/osm.py:189-196 | the two dictionaries hold exactly the permitted travel and its reverse |
| Roads.StrongComponents | src/adlife/city/osm.py:188-231 | schema 1: for every road list within the nodes, the strongly connected components of the street graph |
| Roads.StrongComponentsV2 | src/adlife/city/osm.py:234-278 | schema 2: the same, by travel directions |
| Roads.SelectComponent | src/adlife/city/osm.py:398 | picks a component that none beats in size, and on ties in least identifier |
| Roads.SelectedUnique | src/adlife/city/osm.py:398 | only one component can be selected |
| Roads.RetainedEdges | src/adlife/city/osm.py:401-403 | the retained roads are travelled exactly as before within the selected nodes |
| Roads.ComponentStandsAlone | src/adlife/city/osm.py:397-409 | a component stays strongly connected when everything else is dropped |
| Roads.NodeHasStreet | src/adlife/city/osm.py:404-405 | in a connected graph of two or more nodes every node has a street, so the refusal of an empty road list never fires |
| Roads.ReachesAll | src/adlife/core/domain/city.py:352-361 | true exactly when every node can be reached from the start |
| OsmExtract.ReadElements | src/adlife/city/osm.py:459-491 | too long an extract is refused, any other is read element by element |
| OsmExtract.CollectsAcceptable | src/adlife/city/osm.py:459-491 | the element loop accepts exactly the extracts whose elements are allowed, uniquely identified and few enough, and collects exactly their contents |
| OsmExtract.CollectionIgnoresOrder | src/adlife/city/osm.py:459-491 | permuting the elements changes neither acceptance nor what is collected |
| OsmDraft.AddWay | src/adlife/city/osm.py:354-387 | the loop over one way's segments computes the draft that `TravelExact` and `DraftsExactly` describe |
| OsmDraft.AddWayV2 | src/adlife/city/osm.py:500-543 | the same for schema 2, described by `TravelExactV2` and `DraftsExactlyV2` |
| OsmDraft.DraftRoads | src/adlife/city/osm.py:351-387 | ways are drafted in increasing identifier order, and the first refusal ends it |
| OsmDraft.DraftRoadsV2 | src/adlife/city/osm.py:493-543 | the same under schema 2 |
| OsmDraft.DraftSound | src/adlife/city/osm.py:354-387 | drafted roads join distinct known nodes, every used node has a road, and the segment limit holds |
| OsmDraft.DraftSoundV2 | src/adlife/city/osm.py:500-543 | the same under schema 2 |
| OsmDraft.DraftsAgreeThroughout | src/adlife/city/osm.py:354-387 | whatever schema 2 drafts, schema 1 drafts as the same streets |
| OsmStreets.FlowRead | src/adlife/city/osm.py:161-181 | a street may be driven as its most specific one-way key says, and without one both ways unless it is a motorway or roundabout |
| OsmStreets.AccessRead | src/adlife/city/osm.py:180-185 | cars are admitted as the most specific access key says, and without one |
| OsmStreets.DraftedRoadsExact | src/adlife/city/osm.py:354-387 | the drafted roads are exactly those that the tags and neighbouring members of the ways call for, drawn the way they may be driven |
| OsmStreets.DraftedRoadsExactV2 | src/adlife/city/osm.py:500-543 | the same under schema 2, drawn as the way runs with the directions that may be driven |
| OsmStreets.TravelExact | src/adlife/city/osm.py:354-387 | one node is reached from another along a drafted road exactly when some way with an imported highway class that admits cars has them as neighbours and its tags permit that direction |
| OsmStreets.TravelExactV2 | src/adlife/city/osm.py:500-543 | the same under schema 2 |
| OsmAcceptance.FlowRefused | src/adlife/city/osm.py:145-177 | each refusal of a street's tags, exactly when the text of its keys and its one-way value call for it |
| OsmAcceptance.ElementRefused | src/adlife/city/osm.py:140-142 | a node is refused exactly for a barrier or a key that concerns access, a relation for restricting turns |
| OsmAcceptance.CollectsExactly | src/adlife/city/osm.py:459-491 | an extract is collected exactly when its elements may stand, nodes and ways have identifiers of their own, and there are few enough |
| OsmAcceptance.DraftsExactly | src/adlife/city/osm.py:354-387 | ways are drafted exactly when each has known members and telling tags, no street stands still, and together they keep to the limits |
| OsmAcceptance.DraftsExactlyV2 | src/adlife/city/osm.py:500-543 | under schema 2 exactly when besides no street runs twice along a segment |
| OsmPacks.KeptCityExactly | src/adlife/city/osm.py:399-419 | the kept city lists its nodes and roads by name, each node where it was, and of the drafted roads exactly those between kept nodes |
| OsmPacks.PackFromElements | src/adlife/city/osm.py:301-424 | a schema-1 pack, told by the elements of the extract: its nodes and their places, its roads, the directed travel between its nodes, and which component it is |
| OsmPacks.PackFromElementsV2 | src/adlife/city/osm.py:427-625 | the same for a schema-2 pack |
| OsmShapes.PackAcceptedExactly | src/adlife/core/domain/city.py:71-124 | of what a conversion keeps the pack schema refuses exactly too few or too many nodes and roads between equal or too distant places |
| OsmShapes.DraftsApart | src/adlife/city/osm.py:376-543 | no two drafted roads have the same name, under either schema |
| OsmShapes.BoundsExactly | src/adlife/core/domain/city.py:149-153 | the bounds are accepted exactly when no node lies beyond 85 degrees and the nodes differ in longitude and in latitude |
| OsmSources.SourcesFromElements | src/adlife/city/osm.py:515-561 | the provenance lists exactly the ways with an imported highway class, with their members and recorded tags, and their nodes, in order; the quality counts are those of the extract |
| OsmSources.RecordedTagsSuffice | src/adlife/city/osm.py:281-292 | the recorded tags say of a street what all its tags say: its kind, whether cars are admitted, and which way |
| OsmImport.NodeNameReadsBack | src/adlife/city/osm.py:409 | the identifier read from a node's name is the one it was named by |
| OsmImport.OneComponentMeansConnected | src/adlife/city/osm.py:393 | there is one component exactly when the whole street graph is strongly connected |
| OsmImport.ChooseNodes | src/adlife/city/osm.py:391-409 | all nodes when there is one component, otherwise the selected component, or a refusal |
| OsmImport.KeptGraph | src/adlife/city/osm.py:390-409 | what is kept is strongly connected on its own, touches a road at every node, and has a road |
| OsmConvert.KeptCitySound | src/adlife/city/osm.py:390-419 | kept and dropped nodes and roads make up the draft, and the kept city is the whole graph or the selected component |
| OsmConvert.ConversionSound | src/adlife/city/osm.py:301-424 | schema 1: every successful conversion keeps one sound city |
| OsmConvert.ConversionSoundV2 | src/adlife/city/osm.py:427-625 | schema 2: the same, and the bounds enclose the kept nodes exactly |
| OsmConvert.ConnectivityNeverRefused | src/adlife/core/domain/city.py:111-124 | the pack's connectivity check never refuses what a conversion kept |
| OsmConvert.IsConnectedCity | src/adlife/core/domain/city.py:123-124 | searching forwards and backwards from one node decides strong connectivity |
| OsmConvert.BoundsEnclose | src/adlife/city/osm.py:599-604 | the bounds enclose every node, and each side is some node's coordinate |
| OsmConvert.ConversionIgnoresOrder | src/adlife/city/osm.py:457-625 | permuting the extract changes neither success nor any part of the result, provenance and bounds included |
| OsmConvert.KeptCitiesAgree | src/adlife/city/osm.py:354-409 | from one extract both schemas keep the same nodes and the same travel, and drop as many |
| OsmConvert.ConvertersAgree | src/adlife/city/osm.py:301-625 | whenever both converters accept, they agree on nodes, road count, directed travel and dropped counts |
| OsmConvert.Convert | src/adlife/city/osm.py:321-424 | the imperative schema-1 converter computes the conversion that `PackFromElements` describes |
| OsmConvert.ConvertV2 | src/adlife/city/osm.py:455-625 | the imperative schema-2 converter computes the conversion that `PackFromElementsV2` and `SourcesFromElements` describe |
| Makespan.RoomForOneMore | scripts/ci_test_shards.py:61-64 | when one more large job fits some assignment, it fits every assignment of the earlier ones |
| Makespan.GreedyPacksLargeJobs | scripts/ci_test_shards.py:61-64 | while all jobs exceed a third of the other makespan, greedy packing is optimal |
| Makespan.LastJobLoad | scripts/ci_test_shards.py:61-64 | the shard that takes the last job carries at most the average and a part of that job |
| Makespan.GreedyNearOptimal | scripts/ci_test_shards.py:54-65 | every greedy load is within 4/3 − 1/(3·count) of the heaviest load of any other assignment |
| Makespan.LoadsDifferByOneJob | scripts/ci_test_shards.py:61-64 | any two loads differ by at most the largest job |
| Makespan.BoundIsTight | scripts/ci_test_shards.py:54-65 | for every count m there are 2m + 1 jobs on which greedy packing needs 4m − 1 and another assignment 3m, so the bound is attained |
| Shards.Shard | scripts/ci_test_shards.py:54-65 | the packing loop computes the greedy packing of the files by decreasing weight |
| Shards.IndexOfLeast | scripts/ci_test_shards.py:62 | the first of the lightest shards |
| Shards.PackedHoldsEveryFile | scripts/ci_test_shards.py:54-65 | the shards together hold every file exactly once, each in order |
| Shards.DefaultIsMedian | scripts/ci_test_shards.py:56-58 | an unmeasured file weighs the median of the measured files' times, or one second when none is measured |
| Shards.PackingOrderRead | scripts/ci_test_shards.py:61 | heavier files come first, files of one weight by name |
| Shards.PackedNearOptimal | scripts/ci_test_shards.py:54-65 | no shard takes longer than 4/3 − 1/(3·count) times the longest shard of any other split of the same files |
| ShardTimes.FindHome | scripts/ci_test_shards.py:76-80 | trying the whole name first finds the longest prefix that names a known file |
| ShardTimes.FileNameRead | scripts/ci_test_shards.py:77 | a prefix names the file of its parts in order with slashes between and the suffix at the end |
| ShardTimes.HomeIsLongest | scripts/ci_test_shards.py:75-80 | a case belongs to the file of its longest known prefix, and to none exactly when no prefix is known |
| ShardTimes.MeasuredSeconds | scripts/ci_test_shards.py:68-82 | each file with a case gets its cases' time to one decimal, and no other file appears |
| ShardTimes.TimesAddUp | scripts/ci_test_shards.py:68-82 | the files' times add up to the time of all cases that belong to a file |
| ShardTimes.TenthsRounded | scripts/ci_test_shards.py:82 | a recorded time is the nearest number of tenths, the even one of two |
| ShardTimes.RecordedTimesAddUp | scripts/ci_test_shards.py:68-82 | the rounded times add up to it within half a tenth for each file |
| Spacing.SpacedIndexNearExact | src/adlife/city/run_story.py:490-494 | each index is within half a step of its exact position |
| Spacing.SpacedEnds | src/adlife/city/run_story.py:490-494 | the first and last index are 0 and total − 1 |
| Spacing.SpacedIncreasing | src/adlife/city/run_story.py:490-494 | with more items than picks, the indices strictly increase |
| Spacing.SpacedEvenly | src/adlife/city/run_story.py:490-494 | any two gaps differ by at most one |
| Spacing.SpacedSelects | src/adlife/city/run_story.py:481-494 | the picks are a selection in order, with the first item and, from two on, the last |
| StoryMoments.GroupByDay | src/adlife/city/run_story.py:450-455 | the bucket loop groups the moments by day, days and moments in order |
| StoryMoments.ByDayHoldsAll | src/adlife/city/run_story.py:450-455 | grouping by day loses and repeats nothing |
| StoryMoments.ByDayWhole | src/adlife/city/run_story.py:450-455 | each group is all of one day, not empty, in the order of minute, millisecond, person and identifier |
| StoryMoments.ByDayInOrder | src/adlife/city/run_story.py:450-455 | an earlier group is an earlier day |
| StoryMoments.OrderRead | src/adlife/city/run_story.py:476-478 | the two key orders are the lexicographic orders of the moments' fields |
| StoryKept.TakeTurns | src/adlife/city/run_story.py:466-472 | days taking turns keep a prefix of each day, no day more than one ahead of one with more to give |
| StoryKept.KeptMoments | src/adlife/city/run_story.py:458-473 | of each priority a fair prefix of every day is kept, and a priority gives up a moment only when forty are kept, all of no worse priority; the result is in the order of minute, millisecond and identifier |
| StoryKept.KeepsAsManyAsFit | src/adlife/city/run_story.py:458-473 | exactly min(40, n) of a person's moments are kept |
| StoryKept.NeverDropsBetter | src/adlife/city/run_story.py:458-473 | no moment the model was asked about is dropped while another is kept, nor a noticed one while an unnoticed one is |
| StoryKept.EarliestKept | src/adlife/city/run_story.py:465-472 | of two moments of one day and one priority, the kept one is no later than the dropped one |
| StoryKept.BestOfEveryDayKept | src/adlife/city/run_story.py:458-473 | with no more than forty days, each day that has a moment of the person's best priority keeps one of it |
| StoryKey.DayPicksBounded | src/adlife/city/run_story.py:497-506 | a day's picks are noticed moments of the day within its budget, and a day with a telling moment shows one |
| StoryKey.ChangedComeFirst | src/adlife/city/run_story.py:499-502 | as many changed AI moments as the budget allows, then as many unchanged ones as is left |
| StoryKey.RulesOnlyFill | src/adlife/city/run_story.py:503-505 | rules-only moments fill a day up to six, or to as many as were noticed, as far as there are any |
| StoryKey.DayBudgetShares | src/adlife/city/run_story.py:521-528 | the days' budgets cover the run's sixty or twenty, none could be one smaller, and none is below three |
| StoryKey.KeyMomentsFirsts | src/adlife/city/run_story.py:529-534 | every telling kind among the kept moments shows its first, and every key moment is a pick of its day or such a first |
| StoryKey.KeyMoments | src/adlife/city/run_story.py:509-535 | the selection loop computes the chosen moments in time order |
| StoryKey.KeyMomentsSound | src/adlife/city/run_story.py:509-535 | chosen moments come from the kept ones without repeats, within the budget of the days that have any, and every telling day is shown |
| StoryKey.KeyMomentsFew | src/adlife/city/run_story.py:519-535 | at most days times the larger of budget and six, and the firsts |
| StoryKey.KeyMomentsStrictlyOrdered | src/adlife/city/run_story.py:529-535 | with distinct keys, the result is in the order of minute, millisecond, person and identifier without equal keys |
| StoryTotals.Classify | src/adlife/city/run_story.py:405-447 | succeeds exactly when every opportunity can be classified, and returns for each one moment that agrees with the evidence field by field, in time order |
| StoryTotals.ClassifiedWell | src/adlife/city/run_story.py:397-445 | a classified moment has one outcome that fits what the evidence says |
| StoryTotals.ClassifiedRightly | src/adlife/city/run_story.py:397-445 | an opportunity is classified exactly when the evidence holds what it needs, and then as the evidence says, outcome by outcome |
| StoryTotals.TotalsCount | src/adlife/city/run_story.py:1163-1179 | each total is the number of moments of its kind |
| StoryTotals.NoticedSplitsByOutcome | src/adlife/city/run_story.py:1163-1179 | noticed is the sum of the disjoint outcome counts, shown adds the unnoticed, and nothing counts as sent outside the provider modes |
| StoryTotals.GroupingsAgree | src/adlife/city/run_story.py:1471-1493 | summing the counts by day and by person gives the same totals |
| StoryTotals.CountMoments | src/adlife/city/run_story.py:1163-1179 | counting everything and zeroing what was sent at the end gives the totals of the mode |
| StoryTotals.DayTotals | src/adlife/city/run_story.py:1471-1493 | fails exactly when a moment lies outside the run's days, and otherwise shows for each day how many of its moments are of each of five kinds |
| StoryPeople.TellPerson | src/adlife/city/run_story.py:1242-1292 | a person's totals count all their moments, as many are told as fit, none while a more telling one or an earlier one of its day and kind is left out, and shown is told plus omitted |
| StoryPeople.Tell | src/adlife/city/run_story.py:1501-1539 | fails exactly when an opportunity cannot be classified or lies outside the run's days, and otherwise tells every listed person, the key moments and each day of the classified moments |
| StoryPeople.StorySound | src/adlife/city/run_story.py:1501-1539 | the key moments of an accepted run are among the told moments, none twice, within the budgets of its days, in time order on their fields, and with the first of every telling kind |
| StoryPeople.EveryAskedDayShown | src/adlife/city/run_story.py:509-535 | in a run of at most forty days every day on which a listed person's moment has a terminal record has a key moment |
| LegTrack.RawLegTrack | src/adlife/city/run_story.py:792-825 | the loop computes the track of the ordered traversals, or the refusal |
| LegTrack.VertexTimeProportional | src/adlife/city/run_story.py:810-819 | the time at each vertex is proportional to the distance travelled |
| LegTrack.TrackEnds | src/adlife/city/run_story.py:802-806 | a track begins where its first road is entered in the direction of travel and ends where its last one is left |
| LegTrack.LegTrackTimed | src/adlife/city/run_story.py:802-825 | the traversals are followed by sequence, and for contiguous ones the minutes never decrease, from the first start to the last end |
| LegTrack.JointsAppearOnce | src/adlife/city/run_story.py:820-822 | the points are the roads' points in line, each shared joint once |
| StoryCache.LookupLeaves | src/adlife/city/guide_web.py:237-243 | other runs' entries stay in their order; the run's own stays exactly when its fingerprint is the one read, and then last |
| StoryCache.Cache.Lookup | src/adlife/city/guide_web.py:237-243 | a hit needs the same fingerprint and moves the entry last; a stale entry is removed |
| StoryCache.Cache.Store | src/adlife/city/guide_web.py:246-250 | the entry is put last and the oldest entries beyond the limit are dropped |
| StoryCache.Cache.Clear | src/adlife/city/guide_web.py:253-255 | nothing is cached afterwards |
| StoryCacheRuns.HitIsFresh | src/adlife/city/guide_web.py:236-242 | a hit returns the story of the very content whose fingerprint this call read |
| StoryCacheRuns.RecheckConfirms | src/adlife/city/guide_web.py:244-245 | in a run without a harmful change, a passing recheck vouches that the story is that of the fingerprint |
| StoryCacheRuns.EvictedFacts | src/adlife/city/guide_web.py:249-250 | eviction keeps to the limit and drops only entries used before every kept one |
| StoryCacheRuns.StepKeeps | src/adlife/city/guide_web.py:235-255 | no step of any call or file breaks the cache unless it is a harmful change |
| StoryCacheRuns.EveryRunSound | src/adlife/city/guide_web.py:235-255 | in every interleaving without a harmful change each cached story is the one its fingerprint stands for, and the limit holds |
| StoryCacheRuns.NeverReturnsIsHarmless | src/adlife/city/guide_web.py:236-245 | a change is harmless when no call in progress has seen the content it brings |
| StoryCacheRuns.HarmfulExactly | src/adlife/city/guide_web.py:236-251 | a change is harmful exactly when, after it and with no further change, the calls in progress can leave a wrong story in the cache |
| StoryCacheRuns.ReturnBreaks | src/adlife/city/guide_web.py:236-251 | whenever a call has missed and the run now has another story, loading it and changing the content back caches it under the old fingerprint |
| StoryCacheRuns.ReturningContentBreaksCache | src/adlife/city/guide_web.py:235-251 | for any two contents with different stories some run from the start ends with a wrong story cached |
| RunStreams.ReadExact | src/adlife/city/run_store.py:453-461 | whatever the short reads, the next bytes asked for, or all that is left |
| RunStreams.WriteLines | src/adlife/city/run_store.py:464-473 | succeeds exactly when the stream fits and no write falls short; then the file is the stream, otherwise a prefix within the limit |
| RunStreams.VerifyLines | src/adlife/city/run_store.py:476-495 | accepts exactly the files that are the concatenated lines, of the declared size, within the limit |
| RunRecords.ParseStream | src/adlife/city/run_store.py:771-791 | the reading loop computes the strict parse the lemmas are about |
| RunRecords.FirstLineRead | src/adlife/city/run_store.py:776 | a line goes up to the first line feed or lone carriage return, or to the end |
| RunRecords.SplitLinesLossless | src/adlife/city/run_store.py:776 | splitting into lines loses nothing |
| RunRecords.RenderUndoesParse | src/adlife/city/run_store.py:771-791 | what was read, written again, is the very same document, and within the bounds |
| RunRecords.ParseUndoesRender | src/adlife/city/run_store.py:712-728 | what was written within the bounds reads back as the same records |
| RunRecords.AcceptsExactlyRendered | src/adlife/city/run_store.py:1284-1305 | the reader accepts exactly what the writer makes, and no document stands for two lists of records |
| RunSavers.WriteOrderComplete | src/adlife/city/run_store.py:1141-1200 | a saver writes every declared sidecar and no other |
| RunSavers.FailsAnywhere | src/adlife/city/run_store.py:1097-1217 | a saver that was not refused can fail wherever it is, and leaves the directory as it is then |
| RunSavers.ActedSound | src/adlife/city/run_store.py:1097-1217 | every act of a saver keeps what is known of that saver and the directory |
| RunSavers.BystanderSound | src/adlife/city/run_store.py:1057-1063 | an act of one saver keeps what is known of every other |
| RunSavers.HeldCoversDeclared | src/adlife/city/run_store.py:1078-1108 | when the held statuses and the names check out, every sidecar holds its evidence |
| RunSavers.StepKeeps | src/adlife/city/run_store.py:1057-1217 | no step of any saver, and no outside change, breaks the invariant |
| RunSavers.LinkNeedsOwner | src/adlife/city/run_store.py:551-594 | only the saver that made the directory can reach the link, and it finds no `run.json` |
| RunSaverRuns.EveryRunSound | src/adlife/city/run_store.py:1057-1217 | the invariant holds throughout every interleaving of any number of savers |
| RunSaverRuns.NeverUndone | src/adlife/city/run_store.py:551-594 | `run.json` is never overwritten and the directory never changes hands |
| RunSaverRuns.CommitsAtMostOnce | src/adlife/city/run_store.py:593-594 | `run.json` appears at most once in a run |
| RunSaverRuns.CommitHoldsEvidence | src/adlife/city/run_store.py:535-594 | it appears only when its owner links its own manifest after the check; unless an outsider changed a sidecar since, every declared sidecar then holds its evidence |
| RunSaverRuns.CompleteStaysComplete | src/adlife/city/run_store.py:2066-2083 | undisturbed, a directory with `run.json` always holds exactly its owner's evidence, even if the owner failed after linking |
| RunSaverRuns.PublishedStays | src/adlife/city/run_store.py:596-616 | a saver that reports success owns the directory, and `run.json` stays its manifest |
| RunSaverRuns.OneSuccess | src/adlife/city/run_store.py:1057-1063 | no two savers of one identifier both report success |
| RunSaverRuns.AbandonedForever | src/adlife/city/run_store.py:2066-2076 | a directory whose maker failed before the link is refused by every later load and reused by no later save |
| RunSaverRuns.SaveAloneSucceeds | src/adlife/city/run_store.py:1057-1217 | a saver that nothing disturbs can finish, whatever it has to store |
| RunEvidence.FinalizedRebuilds | src/adlife/city/runs.py:804-955 | a finalized run rebuilt from its own inputs is that run, also under a later version when the stored version is kept |
| RunEvidence.ReplayExact | src/adlife/city/runs.py:1203-1426 | replaying accepts exactly the evidence that rebuilding gives back unchanged |
| RunEvidence.ReconstructFacts | src/adlife/city/run_store.py:870-970 | what is rebuilt has the stored inputs and manifest and a validated evaluation |
| RunEvidence.LoadedIsPublished | src/adlife/city/run_store.py:1219-1355 | every file that loading accepts is, byte for byte, the rendering of the evidence it returns |
| RunEvidence.LoadExact | src/adlife/city/run_store.py:1219-1355 | loading accepts a directory exactly when it is the published form of an evidence that rebuilds unchanged, and returns that evidence |
| RunFiles.RebuiltExactly | src/adlife/city/run_store.py:870-970 | rebuilding gives an evidence back exactly when its walk, opportunities, attention, response and manifest all follow from its stored inputs |
| RunFiles.LoadsExactly | src/adlife/city/run_store.py:1219-1355 | loading accepts a directory exactly when each of its fifteen sidecars and its manifest is the rendering of the named part of an evidence that follows from its inputs, within its size |
| RunFiles.SavesExactly | src/adlife/city/run_store.py:982-1030 | saving writes, file by file, those renderings, of evidence that follows from its inputs |
| RunFiles.FilesTellApart | src/adlife/city/run_store.py:982-1030 | under renderings that tell documents apart, evidences with the same files have the same inputs, walk, response and summaries |
| RunEvidence.LoadedReplays | src/adlife/city/runs.py:1203-1426 | every loaded run replays identically |
| RunEvidence.LoadIgnoresVersion | src/adlife/city/run_store.py:955-967 | loading does not depend on the running package version |
| RunEvidence.SavedIffFits | src/adlife/city/run_store.py:1032-1217 | a run that rebuilds unchanged is saved, as its own files, exactly when its documents and streams fit their limits |
| RunEvidence.PublishLoadReplay | src/adlife/city/runs.py:1140-1172 | a finalized run that fits is published, loads as itself under any version and replays identically; one that does not fit is refused |
| RunEvidence.SaveNeedsVersion | src/adlife/city/run_store.py:955-969 | a run is saved only under the version its manifest names |
| RunJourneys.UndisturbedLoads | src/adlife/city/run_store.py:1219-1355 | in any run of savers, an undisturbed directory with `run.json` loads under any version as exactly the evidence its maker was saving, even if the maker failed after the link, and replays identically |
| RunJourneys.PublishedLoads | src/adlife/city/run_store.py:1057-1217 | once a saver has reported success, every later undisturbed load gives back the evidence it saved |
| RunJourneys.FinalizedCanBePublished | src/adlife/city/run_store.py:1057-1217 | any finalized run that fits can be published by some run of its saver and then loads as it was finalized |
| ProviderNormal.SplitPlain | src/adlife/city/provider_runtime.py:166-180 | a screened address splits into scheme, authority and path with nothing lost |
| ProviderNormal.HostIsStored | src/adlife/city/provider_runtime.py:122-148 | an accepted host is a host name or the IPv6 loopback, in lower case |
| ProviderNormal.NormalizedIsCanonical | src/adlife/city/provider_runtime.py:151-211 | whatever is accepted is stored in canonical form, no longer than it was typed |
| ProviderTexts.AcceptedExactly | src/adlife/city/provider_runtime.py:122-211 | an address without brackets is accepted exactly when its scheme, host, port and path fit, told by their characters, and is then stored in small letters without default port and slashes at the end |
| ProviderTexts.LowerRead | src/adlife/city/provider_runtime.py:122-148 | capital letters become small ones and nothing else changes |
| ProviderTexts.StripRead | src/adlife/city/provider_runtime.py:202 | slashes at the end are dropped and nothing else |
| ProviderNormal.DefaultPortDropped | src/adlife/city/provider_runtime.py:196-211 | a well-formed address is stored as it is but for port 80 of http and 443 of https |
| ProviderNormal.CanonicalIsFixed | src/adlife/city/provider_runtime.py:151-211 | normalizing a stored address gives it back, or refuses it because its text looks like a credential |
| ProviderNormal.NormalizeTwice | src/adlife/city/provider_runtime.py:151-211 | normalizing is idempotent exactly where the stored text passes the credential screen |
| ProviderNormal.NormalizingCanRefuseItself | src/adlife/city/provider_runtime.py:163-211 | an address that is accepted as typed and refused as stored, under every library whose credential screen sees its lower-case text only |
| ProviderNormal.ChatTokenScreenRefuses | src/adlife/core/domain/person.py:178 | the credential shape that is screened for in lower case only makes such a library |
| ProviderPolicy.BuildPolicy | src/adlife/city/provider_runtime.py:214-265 | the two loops compute the policy of the bindings, or refuse it whole |
| ProviderPrinted.ApprovalsStored | src/adlife/city/provider_runtime.py:221-239 | every approval but the built-in one is a portable id with a canonical address without `=` |
| ProviderPrinted.KeysAreStored | src/adlife/city/provider_runtime.py:241-260 | every key binding names a remote approval, and no variable is bound twice |
| ProviderPrinted.PolicyRebuilds | src/adlife/city/provider_runtime.py:350-367 | a policy printed as bindings and read again is the same, exactly when no stored address looks like a credential |
| ProviderRegistry.LiveRegistry.Approve | src/adlife/city/provider_runtime.py:376-405 | the new registry and the answer are those of the approval step the lemmas are about |
| ProviderRegistry.Start | src/adlife/city/provider_runtime.py:334-347 | a registry starts exactly when its bindings make a policy |
| ProviderRegistry.ApproveGrows | src/adlife/city/provider_runtime.py:376-405 | a refusal changes nothing; otherwise every approval stays, ids stay unique, the limit holds, and the answer is an approval of exactly the address typed |
| ProviderRegistry.EveryApprovalPersists | src/adlife/city/provider_runtime.py:376-405 | over any run of calls every earlier approval persists under its id |
| ProviderRegistry.OneAddressOneApproval | src/adlife/city/provider_runtime.py:387-389 | the same address, typed in any way after any other approvals, gets the same approval and changes nothing |
| ProviderRegistry.FromPolicyRebuilds | src/adlife/city/provider_runtime.py:350-367 | a registry started from a built policy has exactly that policy, unless a stored address looks like a credential |
| ProviderTyped.TypedWithoutScheme | src/adlife/city/provider_runtime.py:282-288 | leaving out `https://` before a remote host or `http://` before a loopback literal admits exactly the same address |
| ProviderTyped.LocalhostTyped | src/adlife/city/provider_runtime.py:289-302 | `localhost` in any letters, with or without `http://`, a port and a path, is answered with `http://127.0.0.1` on that port and path |
| ProviderRegistry.StoredTyped | src/adlife/city/provider_runtime.py:272-302 | a stored address, typed by an operator, is taken as it is |
| ProviderPorts.PortGuardExact | src/adlife/city/provider_runtime.py:382-386 | a local address is admitted exactly when the port it is served on is not refused; for an https address without a port it is the other way round when only one of 80 and 443 is refused |
| ProviderPorts.GuardHoldsIff | src/adlife/city/provider_runtime.py:382-386 | whatever is typed, no local address on a refused port is admitted, exactly when 443 is refused only together with 80 |
| ProviderPorts.HttpsLoopbackPassesGuard | src/adlife/city/provider_runtime.py:382-386 | the https loopback address is admitted when 443 is refused and 80 is not |
| ProviderPorts.ApprovalsOffPorts | src/adlife/city/provider_runtime.py:376-405 | when 443 is refused only together with 80, no run of calls adds a local approval that is served on a refused port |
| Nesting.NestsIffForest | scripts/smoke_release.py:4250-4268 | events nest exactly when they are those of a forest in which void elements have no end tag |
| Nesting.ForestOf | scripts/smoke_release.py:4248-4249 | the recorded paths are the ancestor chains of that forest |
| ReportParser.Parser.HandleStartTag | scripts/smoke_release.py:4238-4354 | the field-by-field handler computes the specified step; the element's ancestor chain is recorded and the element is the innermost open one unless void |
| ReportParser.Parser.HandleEndTag | scripts/smoke_release.py:4356-4415 | the same for an end tag: an accepted one closes the innermost open element, which had this tag |
| ReportParser.Parser.HandleData | scripts/smoke_release.py:4417-4437 | the same for text: an open style takes it alone, otherwise every open capture, the loop over the open definitions included |
| ReportParser.Parser.Handle | scripts/smoke_release.py:4238-4437 | each event leaves the parser where all events read so far lead, the stack as nesting requires, and every open capture with its element open |
| ReportParser.Parse | scripts/smoke_release.py:4211-4232 | a document is accepted exactly when every event is, all elements are closed and no term waits for a value; the recorded paths are those of its elements |
| ReportText.RecordedText | scripts/smoke_release.py:4235-4236 | what is recorded of collected parts is the one text with their letters in order, single blanks, and neighbours apart exactly where a space or the end of a part lies between them |
| ReportTags.WordsRead | scripts/smoke_release.py:4279 | the words of a class attribute are those that stand in it between spaces |
| ReportTags.StartAccepted | scripts/smoke_release.py:4243-4354 | a start tag is accepted exactly when its attributes have names of their own and what it opens may be opened, a section or pair with its label only |
| ReportTags.StartMeans | scripts/smoke_release.py:4247-4354 | which captures an accepted start tag opens and what it records, by its name, its attributes and the elements around it |
| ReportTags.EndFinishesCell | scripts/smoke_release.py:4361-4365 | a closed cell adds its text to its row |
| ReportText.WholeText | scripts/smoke_release.py:4357-4358 | joined by nothing, the parts of a style stand one after another |
| ReportTags.EndFinishes | scripts/smoke_release.py:4356-4412 | what an accepted end tag records of the open captures, each text that of its parts |
| ReportStyles.StylesRecorded | scripts/smoke_release.py:4270-4273 | the recorded styles are the whole texts of the document's style elements, in order, whatever elements stand inside them |
| ReportLedgers.LedgersRecorded | scripts/smoke_release.py:4330-4405 | the recorded terms of each section and each pair are the term and value pairs of the document's definition lists, in order, and a value reads as a nested ledger exactly when it holds a list |
| ReportDocument.AcceptedIsForest | scripts/smoke_release.py:4211-4232 | every accepted document is a well-nested forest with its true paths recorded |
| ReportDocument.EventsKeepHeld | scripts/smoke_release.py:4238-4415 | every open capture is held open by an element on the stack |
| ReportDocument.ClosingCheckExact | scripts/smoke_release.py:4214-4232 | the final check refuses exactly a document with an open element or a term without a value, whatever its other conditions say |
| ReportDocument.DefinitionAlwaysOpen | scripts/smoke_release.py:4385-4388 | an end tag of a definition value always finds its capture |

## Left out

- ShardTimes.MeasuredSeconds: the sums that are rounded are reals; reading the JUnit files is not modelled, and a case is its list of name parts.
- Shards.Shard: weights are reals, so the order in which floats are added does not matter here.
- LegTrack.RawLegTrack: minutes and distances are reals and the haversine distance is a parameter; rounding is not modelled.
- StoryTotals.Classify: the evaluations are maps from identifiers, as the three dictionaries the code builds first.
- StoryPeople.Tell: the people are listed by identifier; their personas, tracks, states, sentences and the size limit of the whole story are not modelled.
- StoryCacheRuns.EveryRunSound: excludes harmful changes, which `HarmfulExactly` shows is needed; a load comes back with the story of one content the run had since its first locked section, or fails, because a load holds all files of a run and refuses those that changed meanwhile (`src/adlife/city/run_store.py:430-447`, `1219-1250`).
- RunSaverRuns.CommitHoldsEvidence: an outside change after the check has begun is not excluded; the contract says what holds unless there was one.
- RunSavers.StepKeeps: every change of a file shows in its status; a saver's calls into the operating system are its steps, and links, reparse points, Windows handles and flushing are not modelled.
- RunStreams.VerifyLines: the size that was looked up is that of the file that is read.
- RunEvidence.PublishLoadReplay: the evaluators are total, so a simulation that refuses its input is not modelled; places are absent, as the workbench binding demands; the copies that saving makes by rendering and reading its arguments again are the arguments; manifest versions 1 to 9 are not modelled.
- RunEvidence.LoadExact: reading and comparing happen on one state of the directory; the strict-JSON inspection is part of the readers.
- ProviderNormal.NormalizeTwice: `urlsplit`'s checks of bracketed hosts and `ipaddress` are parameters, as they differ between Python versions; only what is assumed of them is in `Sane`.
- ProviderTexts.AcceptedExactly: speaks of hosts without brackets, because what `urlsplit` lets through in brackets is a parameter; the bracketed loopback `[::1]` is covered by `DefaultPortDropped` and `NormalizedIsCanonical`.
- ProviderRegistry.LiveRegistry.Approve: a call is atomic, as under the registry's lock; how an approval id is derived from an address is a parameter.
- OsmConvert.ConvertersAgree: the pack's text fields and its size limit are parameters (`metadataAccepted`, `fits`); typing errors of the JSON document and the decoding of the file are not modelled.
- ReportParser.Parser.HandleStartTag: the captures and the records are two fields that are updated one component at a time; the tokenizer that produces the events is Python's and not modelled.
- The comparison of report terms with the recorded study (`scripts/smoke_release.py`), which folds fixed JSON documents into fixed texts.
- Reference counts of the Windows directory pins in the run store.
- HTTP routes, pages, assets and headers; message wording; field validation and secret screening; small catalogs and tables.
