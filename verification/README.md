# Provoor, verified models

Dafny models of the algorithms and protocols of Provoor, which runs zkVM proving
clusters, serves proofs for benchmarks, and estimates or profiles guest
executions. `dafny verify dfyconfig.toml` checks all of it.

What is modelled, by subject:

- **The results directory** (`EstimateRecords`, `ResultsStore`,
  `EstimatePipeline`, `EstimateAnswer`). The artifact of an estimate or a profile
  with recording, reuse and the merge into a mirror, as a class with mutable maps.
  The directory under any sequence of `estimate`, `profile` and `link` commands,
  as a state machine whose steps are the atomic disk operations, where a command
  may stop after any of them. The goroutines of `estimateAll` with the fixture
  walk, as interleaved steps, which refine that state machine, and what the whole
  run answers.
- **The ZisK proof transcoder** (`Bincode`, `ZiskProof`). The sticky-error reader
  of bincode's variable-width integers as a class that advances an offset, the
  fixed-width printer, and the set of byte strings an encoder may write. The
  encodings are those of the sections "VarintEncoding" and "FixintEncoding" of
  the bincode specification.
- **The proof timeline** (`StableSort`, `Timeline`, `OpenvmTimeline`,
  `ZiskTimeline`). The builder as a class, and both mappers that place task
  results of two clocks on the proof clock.
- **Text and streams** (`Substitute`, `LineOutput`, `Journal`). The redaction of
  published results with cached positions, the line writer for container output,
  and the rejoining of journal entries.
- **Admission and serving** (`Admission`, `Serving`, `Supervisor`). The
  submission loops of both clients, the proof endpoint with its lock and its
  warmup after a failure, and the supervisor that ends a coordinator on request.
- **The OpenVM placement** (`Placement`). Validation, grouping by host, names,
  addresses, and the split of a host's CPUs.

Names of tests, ids and messages are strings, or sequences of any type where the
code is agnostic. Stamps and durations are unbounded integers in milliseconds or
any other one unit. Answers of clusters, daemons, files and clocks are inputs.

Where the code and its comments differ, the models follow the code:

- The supervisor's comment on the requested end (`cmd/zisk-supervisor/main.go:58-60`)
  promises a failing exit code. A verb accepted after the flag was read gets
  none, which `Supervisor.LateVerbMaySucceed` shows and `Supervisor.CodeIsExact`
  delimits.
- `writeJournal` (`internal/cluster/journal.go:158-161`) stamps a joined line
  with its first part only when that part has a text, or is alone.
  `Journal.FirstPartStamps` states it, and `Journal.EmptyPartLosesItsStamp` is a
  journal where it is not.
- A later OpenVM segment whose fast forward is longer than its time on the worker
  (`internal/openvm/pipeline.go:133-142`) draws a fast forward that starts before
  the worker did, as `OpenvmTimeline.LongFastForwardOverruns` shows.
  `OpenvmTimeline.LaterSegmentTiles` states when the bars tile.
- An OpenVM internal task whose compression is longer than its time from dispatch
  to receipt draws a wrap that starts before the dispatch, as
  `OpenvmTimeline.LongCompressionOverruns` shows.
  `OpenvmTimeline.InternalAndWrapTile` states when the bars tile.
- A ZisK fold id is to carry the airgroup once a job folds more than one
  (`internal/zisk/pipeline.go:209-213`), but only recursive2 records are counted,
  not the aggregation witnesses that get fold ids too.
  `ZiskTimeline.AggregationWitnessesMerge` shows two of them with one id, and
  `ZiskTimeline.FoldsAreToldApart` states when that is so.

## Model

| member | source | states |
|---|---|---|
| `EstimateRecords.RecordGrows` | internal/estimate/estimate.go:661-667 | Recording a pending outcome adds its one name, a cost to the costs or a failure to the failures with its value, leaves the other kind and every other record as they were, and keeps costs and failures disjoint and of one guest |
| `EstimateRecords.LiveArtifact.Record` | internal/estimate/estimate.go:661-667 | The mutable artifact after one outcome is the artifact before it with the cost under its name in the costs, or the failure in the failures, and the other map untouched |
| `EstimateRecords.LiveArtifact.PendingTests` | internal/estimate/estimate.go:671-680 | The pending tests are exactly the names that have neither a cost nor a failure |
| `EstimateRecords.LiveArtifact.ReuseEstimates` | internal/estimate/estimate.go:689-708 | Each pending test ends with the record of the first interchangeable estimate that holds it, nothing recorded changes, the count is the drop in pending tests, and the sources are exactly the donors of the copied costs |
| `EstimateRecords.LiveArtifact.CopyPending` | internal/estimate/estimate.go:696-705 | One donor's records are copied whatever order the pending names are visited in |
| `EstimateRecords.LiveArtifact.CopyOne` | internal/estimate/estimate.go:697-704 | A cost is preferred to a failure within one donor, and only a cost gets a source |
| `EstimateRecords.DonorIsFirst` | internal/estimate/estimate.go:692-708 | The donor of a name is the first other estimate in listing order with the same image, ELF and suite that holds it |
| `EstimateRecords.ReuseIsUnique` | internal/estimate/estimate.go:689-708 | The listing alone decides the reused artifact, so map iteration order does not show |
| `EstimateRecords.ReuseExists` | internal/estimate/estimate.go:689-708 | Every listing gives such an artifact and its sources |
| `EstimateRecords.ReuseKeepsRecords` | internal/estimate/estimate.go:683-708 | Reuse keeps every record there was, keeps both kinds disjoint, and adds only records measured under the artifact's image and ELF |
| `EstimateRecords.LiveArtifact.MergedWith` | internal/estimate/estimate.go:831-846 | The clone, delete and copy loops of a save compute the merge of mirror and profile |
| `EstimateRecords.DeleteAll` | internal/estimate/estimate.go:837-842 | Deleting names one by one in any order removes exactly those names |
| `EstimateRecords.MergeKeepsEveryName` | internal/estimate/estimate.go:828-846 | A merge of disjoint artifacts is disjoint, holds exactly the names of both, all records of the profile, and those records of the mirror that the profile does not replace |
| `EstimateRecords.MergeKeepsGuest` | internal/estimate/estimate.go:828-846 | A merge holds records of one image and ELF when both parts do |
| `EstimateRecords.MergeForgetsInterruption` | internal/estimate/estimate.go:792-807 | Merging through an intermediate save gives what merging once with the final result gives |
| `EstimateRecords.Continuation` | internal/estimate/estimate.go:472-482 | The continued estimate has the instance, image, ELF and suite of the started one, is the latest such, and of equally late ones the first, and there is none only when no estimate has them |
| `ResultsStore.StepKeepsInv` | internal/estimate/estimate.go:516-579 | Every step of every command, and every crash, keeps the disk sound and the command in memory consistent with it |
| `ResultsStore.ProfilesHaveTheirFiles` | internal/estimate/estimate.go:538-579 | At every point of every sequence of commands, each cost in a profile on disk has the test file of the very execution that gave it |
| `ResultsStore.RecordsMatchTheirHeader` | internal/estimate/estimate.go:766-807 | At every point, each record of each artifact on disk, mirrors included, was measured under the image and ELF of that artifact's header |
| `ResultsStore.LinkingNeverSticks` | internal/estimate/estimate.go:713-733 | A hard link of a copied test file always finds its donor's file, and never the stale one |
| `ResultsStore.HistoryLosesNoName` | internal/estimate/estimate.go:831-846 | No sequence of saves, reuses, merges, links and crashes loses a test name that an artifact on disk held |
| `ResultsStore.StepLosesNoName` | internal/estimate/estimate.go:336-426 | One step keeps the names of every artifact, and a link moves an artifact with all of them |
| `ResultsStore.ResumesExactly` | internal/estimate/estimate.go:775-786 | Whatever else is listed, a command resumes the artifact at an id exactly when it holds no record or its image and ELF are those of the command |
| `ResultsStore.MirrorIsReadAtStart` | internal/estimate/estimate.go:788-826 | At every later point of a command, a profile has a mirror exactly when the estimate at its id was missing or of the same image, ELF and suite as it started, with the records of then, and each save of its artifact makes a merge due exactly then |
| `ResultsStore.LinkMovesWhole` | internal/estimate/estimate.go:336-426 | A link moves one whole directory of the suite and ELF of the run to a free id and touches no other, and takes the mirror of a profile along under the same rules |
| `ResultsStore.HistoryMirrors` | internal/estimate/estimate.go:516-579 | Over every history in which only profiles of one estimation write at an id, with crashes anywhere, the estimate on disk always merges the one at the start with records that the profile on disk holds |
| `ResultsStore.ResumedProfileMergesOnce` | internal/estimate/estimate.go:792-846 | After any number of interruptions at any points of such a history, each mirror save leaves the merge of the estimate at the start, missing or not, with the profile on disk, so what an uninterrupted profile leaves |
| `EstimatePipeline.ExecutionKeepsInv` | internal/estimate/estimate.go:584-658 | Every reachable state of producer, workers, closer and collector keeps each test at one place, the channel and group phases, and the saved records |
| `EstimatePipeline.NeverStuck` | internal/estimate/estimate.go:584-658 | For one or more workers, no reachable state before the return is stuck, whatever failed or was canceled |
| `EstimatePipeline.StepDecreasesRank` | internal/estimate/estimate.go:584-658 | Every step of any goroutine decreases one measure |
| `EstimatePipeline.ExecutionEnds` | internal/estimate/estimate.go:584-658 | No execution is longer than the measure of its start |
| `EstimatePipeline.NoTestSentTwice` | internal/estimate/input.go:214-256 | No pending test is sent to the workers twice, though fixtures may repeat it |
| `EstimatePipeline.NilReturnMeansAllRecorded` | internal/estimate/estimate.go:624-658 | A nil return means every pending test was recorded exactly once, nothing else was, and artifact and mirror on disk hold the cost or the failure of each under its name |
| `EstimateAnswer.ErrorHasItsFailure` | internal/estimate/estimate.go:642-657 | Over every interleaving, a returned error is that of a step that failed with it: a failed save, walk, measurement or file, a walk that ended with tests missing, a pending fixture without input, or a canceled send |
| `EstimateAnswer.UnfailedRunReturnsNil` | internal/estimate/estimate.go:642-657 | Conversely, a run that returns without any such step returns nil |
| `EstimateAnswer.CanceledByCaller` | internal/estimate/input.go:235-240 | The answer is a cancellation only when the caller canceled, never for a failure of a goroutine or a save |
| `EstimateAnswer.AnswerIsFirstError` | internal/estimate/estimate.go:641-656 | A failed save before the end is the answer, else the first error of the group, and a failed last save only without one |
| `EstimateAnswer.RecordsWereMeasured` | internal/estimate/estimate.go:604-618 | Every received outcome is one that a worker measured for the job of that name |
| `EstimateAnswer.CrashLosesLessThanAnInterval` | internal/estimate/estimate.go:627-640 | Until a save fails, fewer outcomes than one interval are missing on disk whenever the collector receives |
| `EstimateAnswer.FailedRunKeepsItsRecords` | internal/estimate/estimate.go:641-656 | Unless a save fails, every return, also with an error or a cancellation, leaves all that was recorded on disk |
| `EstimatePipeline.StepRefinesStore` | internal/estimate/estimate.go:599-658 | Every interleaved step is a step of the results directory or leaves it alone |
| `EstimatePipeline.ExecutionKeepsDiskSound` | internal/estimate/estimate.go:602-658 | Under every interleaving the disk is crash consistent in every state |
| `EstimatePipeline.ExecutionExtendsHistory` | internal/estimate/estimate.go:584-658 | Every interleaving continues the history of commands that reached it, without moving an artifact |
| `EstimatePipeline.InterleavingKeepsHistory` | internal/estimate/estimate.go:584-658 | In every interleaved state every profiled cost has its test file, every record its header's guest, and no name that any earlier state had saved is lost |
| `Bincode.LittleEndianReads` | internal/zisk/proof.go:144-146 | Reading back a little-endian integer of any width gives its value |
| `Bincode.LittleEndianWrites` | internal/zisk/proof.go:144-146 | Writing back the value of any bytes gives those bytes |
| `Bincode.VarintReads` | internal/zisk/proof.go:121-147 | Any valid form of an integer in a buffer is read as its value, up to its end |
| `Bincode.VarintWritten` | internal/zisk/proof.go:121-147 | Whatever is read as an integer is one of its valid forms |
| `Bincode.VarintMeans` | internal/zisk/proof.go:118-147 | The markers 251, 252 and 253 announce two, four and eight bytes, the least first, smaller bytes stand for themselves, and each failure names its offset |
| `Bincode.FixedMeans` | internal/zisk/proof.go:144-146 | The value of two, four or eight bytes, spelled out byte by byte |
| `Bincode.WordsRead` | internal/zisk/proof.go:176-182 | Consecutive encoded words are read as their values |
| `Bincode.WordsWritten` | internal/zisk/proof.go:176-182 | Whatever is read as words is an encoding of them |
| `Bincode.VecReads` | internal/zisk/proof.go:154-182 | An encoded vector is read as its words, up to its end |
| `Bincode.VecWritten` | internal/zisk/proof.go:154-182 | Whatever is read as a vector is an encoding of it |
| `Bincode.TextReads` | internal/zisk/proof.go:184-186 | An encoded text is read as its bytes |
| `Bincode.TextWritten` | internal/zisk/proof.go:184-186 | Whatever is read as a text is an encoding of it |
| `Bincode.FixedWordsRead` | internal/zisk/proof.go:85-93 | Fixed-width words stand in order: the eight bytes at eight times k spell word k, the least byte first |
| `Bincode.FixedWordsInjective` | internal/zisk/proof.go:85-93 | Fixed-width encodings of word sequences are equal only when the words are |
| `ZiskProof.BincodeReader.constructor` | internal/zisk/proof.go:53 | A reader starts at the first byte without an error |
| `ZiskProof.BincodeReader.Fail` | internal/zisk/proof.go:99-103 | The first error sticks |
| `ZiskProof.BincodeReader.Take` | internal/zisk/proof.go:105-116 | Takes exactly the next bytes, or fails at the offset, and does neither after an error |
| `ZiskProof.BincodeReader.Varint` | internal/zisk/proof.go:121-147 | Reads what the parse of an integer at the offset says, its error included, and zero after an error |
| `ZiskProof.BincodeReader.Length` | internal/zisk/proof.go:154-166 | A length never exceeds the remaining input |
| `ZiskProof.BincodeReader.SkipU64Vec` | internal/zisk/proof.go:169-173 | Skipping a vector moves and fails as reading it does |
| `ZiskProof.BincodeReader.U64Vec` | internal/zisk/proof.go:176-182 | Reads a vector with no more words than the input has bytes |
| `ZiskProof.BincodeReader.Utf8` | internal/zisk/proof.go:184-186 | Reads a text as its parse says |
| `ZiskProof.PrintProof` | internal/zisk/proof.go:84-96 | The appends give the fixed-width layout: counts, words, public values and hash family, each in its place |
| `ZiskProof.TranscodeProof` | internal/zisk/proof.go:49-97 | The reader and the appends give the result, or the same error, that the parse of the envelope gives, and an accepted output has proof word k at 8 + 8k and public value j at 8j past the counts |
| `ZiskProof.FixedProofStands` | internal/zisk/proof.go:84-96 | Every byte of the printed proof by its place: two counts with the mark of a final proof, the words and the values in order, a zero, and the hash family with its length |
| `ZiskProof.FinalEnvelopesTranscode` | internal/zisk/proof.go:49-97 | Every final blake3 envelope within the cap, in any integer widths and before any tail, transcodes to the layout that holds its words and public values in order, and reading stops at its end |
| `ZiskProof.AcceptedIsFinalEnvelope` | internal/zisk/proof.go:49-97 | Every accepted byte string starts with such an envelope, and the output holds its words and public values in order |
| `ZiskProof.EnvelopeIsInOrder` | internal/zisk/proof.go:52-73 | The fields of an envelope in the order of their bytes |
| `ZiskProof.EnvelopesAreAnswered` | internal/zisk/proof.go:49-83 | Every envelope an encoder may write within the cap, before any tail, is accepted or gets the error of one of its own faults |
| `ZiskProof.TailDecidesNothing` | internal/zisk/proof.go:49-97 | Acceptance and output depend on the consumed prefix only |
| `ZiskProof.ShorterPrefixIsRejected` | internal/zisk/proof.go:105-116 | Every strictly shorter prefix of the consumed bytes is rejected |
| `ZiskProof.TranscodingSize` | internal/zisk/proof.go:84 | The output has the reserved capacity, below eight times the consumed bytes |
| `ZiskProof.TranscodingLosesNothing` | internal/zisk/proof.go:84-96 | Equal outputs carry equal proof words and public values |
| `ZiskProof.NarrowestIsShortest` | internal/zisk/proof_test.go:48-59 | The encoder's form of an integer is valid and no valid form is shorter |
| `ZiskProof.EncodedTranscodes` | internal/zisk/proof_test.go:61-98 | Round trip: what the encoder writes transcodes to the layout that holds the same values in order |
| `StableSort.SortIsStable` | internal/cluster/pipeline.go:155-157 | The sort gives a sorted stable permutation |
| `StableSort.SortHasOrder` | internal/cluster/pipeline.go:155-157 | The sort picks every index once, by rank and among equals by index |
| `StableSort.StableSortIsUnique` | internal/cluster/pipeline.go:155-157 | Any two stable sorts of the same elements are equal, so the algorithm does not matter |
| `Timeline.NetworkTransportMs` | internal/cluster/pipeline.go:144-146 | The transport is never negative |
| `Timeline.TransportSplitsRoundTrip` | internal/cluster/pipeline.go:141-146 | A round trip is the transport plus the time on the worker, and a skew between the two clocks cancels out |
| `Timeline.WorkersOf` | internal/cluster/pipeline.go:94-114 | A worker's node is the count of distinct hosts up to the first registration of its host |
| `Timeline.PipelineBuilder.constructor` | internal/cluster/pipeline.go:97-114 | The loop gives the workers in registration order with those nodes, and an index in which every key names its last registration |
| `Timeline.PipelineBuilder.Place` | internal/cluster/pipeline.go:121-139 | Records the clamped task if it has a length, remembers the first unlisted worker, and returns where an earlier task must end |
| `Timeline.PipelineBuilder.Pipeline` | internal/cluster/pipeline.go:151-165 | Builds the sorted drawn tasks of everything placed, or names the unlisted worker |
| `Timeline.NodesAreHosts` | internal/cluster/pipeline.go:94-114 | Two workers share a node exactly when they share a host |
| `Timeline.TimelineIsWellFormed` | internal/cluster/pipeline.go:148-165 | The tasks match the drawn placements one to one, each on the last registration of its worker with its kind, id, breakdown, start and end, sorted stably by start and kind, with starts of zero or more and lengths above zero |
| `Timeline.TimelineDraws` | internal/cluster/pipeline.go:121-165 | That matching, as the indices of the placements in the order they are drawn |
| `Timeline.TimelineNodesAreHosts` | internal/cluster/pipeline.go:148-165 | A timeline lists every registered worker, and two share a node exactly when they share a host |
| `Timeline.FailsOnUnlisted` | internal/cluster/pipeline.go:116-139 | Building fails exactly when a placed task, drawn or not, names an unregistered worker, and names the first one |
| `Timeline.SectionsAreExact` | internal/openvm/pipeline.go:223-233 | Sections are exactly the reported labels with their values, each once, in label order |
| `OpenvmTimeline.MapBreakdown` | internal/openvm/pipeline.go:225-233 | The loop gives the reported sub metrics in label order |
| `OpenvmTimeline.PlaceApp` | internal/openvm/pipeline.go:150-161 | One app proof places its segment, its fast forward and its metering, each ending where the next begins |
| `OpenvmTimeline.PlaceLeaf` | internal/openvm/pipeline.go:162-165 | One leaf places one bar from dispatch to receipt |
| `OpenvmTimeline.PlaceInternal` | internal/openvm/pipeline.go:166-173 | One internal task places its bar up to the wrap, and the wrap |
| `OpenvmTimeline.MapPipeline` | internal/openvm/pipeline.go:143-208 | The three loops over workers sorted by id build the timeline of all bars of the view |
| `OpenvmTimeline.AppBarsChain` | internal/openvm/pipeline.go:133-161 | The metering, fast-forward and segment bars of one app proof never overlap, and the fast forward ends where the segment starts |
| `OpenvmTimeline.AppBarsAre` | internal/openvm/pipeline.go:133-161 | Kind, worker, id, start and end of the three bars of one app proof |
| `OpenvmTimeline.DispatchedSegmentLasts` | internal/openvm/pipeline.go:133-142 | A dispatched segment takes its proving time plus the transport, up to the receipt |
| `OpenvmTimeline.LeafBarsAre` | internal/openvm/pipeline.go:162-165 | Kind, worker, id, start and end of the bar of one leaf |
| `OpenvmTimeline.InternalBarsAre` | internal/openvm/pipeline.go:166-173 | Kind, worker, id, start and end of the bars of one internal task |
| `OpenvmTimeline.BarSectionsAre` | internal/openvm/pipeline.go:177-191 | A first bar has exactly the reported sub metrics and a transport that is not zero, a wrap its own sub metrics |
| `OpenvmTimeline.BarIsPlaced` | internal/openvm/pipeline.go:150-175 | Every bar of every task result is placed, at its place in the order of the view |
| `OpenvmTimeline.WorkersFollowIds` | internal/openvm/pipeline.go:193-208 | The registrations of a timeline are those of the view, in the order of worker ids |
| `OpenvmTimeline.LaterSegmentTiles` | internal/openvm/pipeline.go:150-161 | A later segment and its fast forward tile worker start to receipt, clamped at zero, exactly when the stamps leave room for the fast forward or a clamp hides it |
| `OpenvmTimeline.LongFastForwardOverruns` | internal/openvm/pipeline.go:150-161 | Concrete stamps at which the two do not tile and the fast forward starts before the worker |
| `OpenvmTimeline.InternalAndWrapTile` | internal/openvm/pipeline.go:166-173 | An internal bar and its wrap tile dispatch to receipt, clamped at zero, exactly when the stamps leave room for the compression or a clamp hides it |
| `OpenvmTimeline.LongCompressionOverruns` | internal/openvm/pipeline.go:166-173 | Concrete stamps at which the two do not tile and the wrap starts before the dispatch |
| `OpenvmTimeline.LeafBarIsRoundTrip` | internal/openvm/pipeline.go:162-165 | A dispatched leaf's bar takes its time on the worker plus the network transport |
| `OpenvmTimeline.ClockShiftKeepsTimeline` | internal/openvm/pipeline.go:143-191 | Shifting proof start and every present stamp by one amount leaves the timeline unchanged |
| `OpenvmTimeline.UndispatchedShift` | internal/openvm/pipeline.go:162-173 | A leaf or internal task without a dispatch stamp is shift invariant exactly when the proof starts at or after the epoch on both clocks, or nothing moves |
| `OpenvmTimeline.UndispatchedLeafMoves` | internal/openvm/pipeline.go:162-165 | A concrete leaf for which it does move |
| `OpenvmTimeline.WorkerSkewKeepsTimeline` | internal/openvm/pipeline.go:177-182 | Moving one worker's clock by any amount on dispatch-stamped tasks leaves the timeline unchanged |
| `OpenvmTimeline.OpenvmTimelineIsWellFormed` | internal/openvm/pipeline.go:143-233 | Mapping fails exactly on an unregistered worker, and every timeline draws each bar that has a length once, on its own worker with its start and end, stably sorted, over nodes that are exactly the hosts |
| `ZiskTimeline.KindsAreDistinct` | internal/zisk/pipeline.go:58-65 | No two drawn proof types share a kind, and only type 3 is a recursive2 fold |
| `ZiskTimeline.FoldsManyAirgroups` | internal/zisk/pipeline.go:187-198 | The loops find whether recursive2 records name more than one airgroup |
| `ZiskTimeline.ManyIsTwo` | internal/zisk/pipeline.go:184-198 | Fold ids carry the airgroup exactly when two airgroups have recursive2 records |
| `ZiskTimeline.FoldsAreToldApart` | internal/zisk/pipeline.go:209-226 | Two folds of either kind have one id exactly when their indices agree, and their airgroups do or no two airgroups have recursive2 records |
| `ZiskTimeline.Recursive2FoldsAreToldApart` | internal/zisk/pipeline.go:184-198 | Two recursive2 folds of one job have one id exactly when airgroup and index agree |
| `ZiskTimeline.AggregationWitnessesMerge` | internal/zisk/pipeline.go:209-226 | A concrete job whose two aggregation witnesses of different airgroups have one id |
| `ZiskTimeline.NonZeroIsExact` | internal/zisk/pipeline.go:258-281 | Sections are exactly the nonzero durations, each once, in label order |
| `ZiskTimeline.MapBreakdown` | internal/zisk/pipeline.go:260-268 | The loop gives the nonzero executor durations |
| `ZiskTimeline.MapProofBreakdown` | internal/zisk/pipeline.go:273-281 | The loop gives the nonzero labelled sections, after the executor labels |
| `ZiskTimeline.MapRegistrations` | internal/zisk/pipeline.go:231-244 | One registration per worker that a task names, in strict order of rank and name |
| `ZiskTimeline.RegistrationsAreDetermined` | internal/zisk/pipeline.go:231-244 | Map iteration order does not show in the registrations |
| `ZiskTimeline.NodesFollowRank` | internal/zisk/pipeline.go:228-230 | Every worker is its own node, and the nodes count up in rank order |
| `ZiskTimeline.PlaceProofs` | internal/zisk/pipeline.go:159-182 | Places one bar per record, over the round trip for a dispatched task of one record and over the record's stamps otherwise, or reports the first unmapped type |
| `ZiskTimeline.MapPipeline` | internal/zisk/pipeline.go:128-151 | Whatever order a map yields the workers in, gives the timeline of all records, none without a proof start, a task or a drawn bar, or the first fault |
| `ZiskTimeline.BarSpansItsStamps` | internal/zisk/pipeline.go:153-182 | A bar covers exactly the time between its two stamps, clamped at zero, those of the round trip or those of its record |
| `ZiskTimeline.BarIsOfItsRecord` | internal/zisk/pipeline.go:48-65 | Kind and id of the bar of each of the fourteen proof types that are drawn, and no other |
| `ZiskTimeline.InstancesAreToldApart` | internal/zisk/pipeline.go:209-226 | Two instance records of whatever types have one id exactly when air and instance agree |
| `ZiskTimeline.BarSectionsAre` | internal/zisk/pipeline.go:159-182 | A bar has exactly the nonzero executor durations of an execution, those of its record, and the transport of a round trip |
| `ZiskTimeline.RecordIsPlaced` | internal/zisk/pipeline.go:159-182 | The bar of every record of every task is placed, in the order of tasks and records |
| `ZiskTimeline.FailsOnlyOnUnmapped` | internal/zisk/pipeline.go:128-151 | Mapping fails exactly on an unmapped phase or proof type, and never on an unlisted worker |
| `ZiskTimeline.ZiskTimelineIsWellFormed` | internal/zisk/pipeline.go:128-281 | A timeline is nonempty and draws each bar that has a length once, on its own worker with its start and end, stably sorted, over workers named and numbered in rank order, and there is none exactly when no bar has a length |
| `ZiskTimeline.ClocksKeepTimeline` | internal/zisk/pipeline.go:153-182 | Shifting every clock by one amount, or one worker's clock on its round-trip tasks by any, leaves the result unchanged |
| `Substitute.Find` | scripts/desensitize.sh:76-92 | A search gives the first occurrence at or after the start, or none |
| `Substitute.OccursIsExact` | scripts/desensitize.sh:76 | A value occurs at a place exactly when the text is something of that length, the value, and something |
| `Substitute.Choose` | scripts/desensitize.sh:80-83 | The inner loop picks the earliest position, on a tie that of the earlier pair |
| `Substitute.Refresh` | scripts/desensitize.sh:90-92 | After a replacement every cached position is again the first occurrence at or after the cursor, though only stale ones were searched |
| `Substitute.Substitute` | scripts/desensitize.sh:73-94 | The cached-position loop ends and equals the naive left-to-right scan, which never rescans inserted names |
| `Substitute.MatchAt` | scripts/desensitize.sh:80-86 | The scan takes the first pair whose value occurs at a place |
| `Substitute.CopiesUnmatched` | scripts/desensitize.sh:87-93 | Text in which no value starts is copied |
| `Substitute.ReplacesMatched` | scripts/desensitize.sh:84-89 | Where a value starts, the first such pair gives its name and the scan goes on past the value |
| `Substitute.UntouchedWithoutValues` | scripts/desensitize.sh:97-103 | A text without any value is left as it is |
| `Substitute.Redact` | scripts/desensitize.sh:22-40 | The pass runs over the nonempty entries sorted by length |
| `Substitute.PairsAreEntries` | scripts/desensitize.sh:22-40 | The pairs are exactly the entries with a value |
| `Substitute.LongestIsTaken` | scripts/desensitize.sh:5-7 | At every place the longest value that starts there is taken, under the name that .env gives first |
| `LineOutput.LinesRebuild` | internal/cluster/output.go:49-60 | Lines and rest of a stream hold every byte, and no newline |
| `LineOutput.LinesAreUnique` | internal/cluster/output.go:49-60 | They are the only such split |
| `LineOutput.LinesOfTwoParts` | internal/cluster/output.go:49-60 | A stream cut anywhere has the lines of both parts once the pending rest is put before the second |
| `LineOutput.Trimmed` | internal/cluster/output.go:56 | Only trailing carriage returns are dropped |
| `LineOutput.PrintedIsExact` | internal/cluster/output.go:49-68 | Every terminated line is printed once and in order as the lead and the line without its trailing carriage returns, and an unterminated rest as the lead and the rest |
| `LineOutput.PrefixWriter.Write` | internal/cluster/output.go:49-60 | A write prints exactly the lines it completes behind the lead, and keeps a rest without a newline |
| `LineOutput.PrefixWriter.Flush` | internal/cluster/output.go:63-68 | A flush prints what is pending, untrimmed, once |
| `LineOutput.Relay` | internal/cluster/output.go:49-68 | However a stream is cut into writes, writes and flush print the lines of the whole stream, and a second flush nothing |
| `LineOutput.JoinedInOrder` | internal/cluster/output.go:49-52 | The stream of some writes is their data in order |
| `Journal.RunsAreExact` | internal/cluster/journal.go:176-208 | The runs and the open tail hold every entry in order, and each run ends with its only non-partial entry |
| `Journal.RunsAreUnique` | internal/cluster/journal.go:176-208 | They are the only such split |
| `Journal.Stamped` | internal/cluster/journal.go:189-193 | A line takes the stamp of its first part with a text, or of its last part |
| `Journal.LinesAreTheirRuns` | internal/cluster/journal.go:158-208 | One line per run, with the text of all its parts and the stamp of its first part with a text, or of its last |
| `Journal.TextJoins` | internal/cluster/journal.go:194-196 | The text of entries is the text of the earlier ones and then of the later ones |
| `Journal.FirstPartStamps` | internal/cluster/journal.go:158-161 | It is that of the first part exactly when that part has a text or is the whole line |
| `Journal.EmptyPartLosesItsStamp` | internal/cluster/journal.go:189-193 | A concrete journal of an empty part and a text, whose line has the stamp of the second |
| `Journal.WriteJournal` | internal/cluster/journal.go:162-210 | Writes one line per run, then the text of an open tail, counts the lines, and stops exactly at the first entry that does not parse or whose line is refused |
| `Journal.TextIsKept` | internal/cluster/journal.go:158-210 | No byte of a message is lost, repeated or moved |
| `Journal.TextsStampLines` | internal/cluster/journal.go:158-161 | When every partial entry has a text, every line has the stamp of its first part and no open tail is dropped |
| `Placement.ValidateGpu` | internal/cluster/config.go:186-201 | Accepts exactly a nonempty list of distinct ids that are not negative |
| `Placement.KeysAreInjective` | internal/openvm/config.go:118-124 | The GPU key and the advertised URL, as strings, tell apart exactly host and device, and address and device |
| `Placement.DecimalSpells` | internal/openvm/config.go:118-124 | A number in a name or an address is its decimal form without leading zeros |
| `Placement.Validate` | internal/openvm/config.go:89-129 | Accepts exactly the configurations without a fault, and reports the fault of the first worker at fault |
| `Placement.ValidIsExact` | internal/openvm/config.go:89-129 | Those without a fault are the nonempty ones in which every worker has one GPU, a worker off the host of the coordinator has an address and so has the coordinator, and no two workers share a GPU of a host or of an address |
| `Placement.GpusDiffer` | internal/openvm/config.go:99-128 | Two workers of a valid configuration share neither a GPU of a host nor an advertised URL |
| `Placement.WorkerHosts` | internal/openvm/deploy.go:151-164 | The index map loop gives one group per host in order of first naming, each with its workers in configuration order |
| `Placement.MembersAreExact` | internal/openvm/deploy.go:150-164 | A group holds exactly the workers of its host, each with its position, in increasing order |
| `Placement.EachProverOnce` | internal/openvm/deploy.go:42-52 | Every prover id is at exactly one place of exactly one group |
| `Placement.CpusArePartitioned` | internal/openvm/spec.go:243-252 | The ranges of a host's workers are nonempty, inside the host, and every CPU is in exactly one |
| `Placement.CpusAreEven` | internal/openvm/spec.go:243-252 | The ranges follow one another from CPU 0 in equal shares, and the last takes the remainder |
| `Placement.StartWorkers` | internal/openvm/deploy.go:337-367 | A host with fewer CPUs than workers is refused, and otherwise exactly the workers whose containers do not run yet are started, in the order of the workers, with their names, ports and CPUs |
| `Placement.ToStartIsExact` | internal/openvm/deploy.go:352-367 | A container is started exactly when it is that of a worker of the host and does not run yet |
| `Placement.StartedIsItsWorker` | internal/openvm/deploy.go:352-367 | A started container carries the prover id of a worker of the host, and the name and the port of that worker's GPU |
| `Placement.ProversStartOnce` | internal/openvm/deploy.go:38-52 | Containers that two hosts of one valid configuration start never have one prover id |
| `Placement.PositionsAreApart` | internal/openvm/deploy.go:344-367 | Two positions of one host of a valid configuration share no container name, port, prover id or CPU |
| `Placement.GroupsMayStart` | internal/openvm/config.go:101-109 | Every worker of a group of a valid configuration has exactly one GPU |
| `Placement.HostIsShared` | internal/openvm/deploy.go:344-367 | Any two containers that a host of a valid configuration starts differ in name, port and prover id and share no CPU, and none of them runs already |
| `Placement.HostIsFilled` | internal/openvm/deploy.go:344-367 | The containers that a host starts when none runs yet take every CPU |
| `Supervisor.ExecutionKeepsInv` | cmd/zisk-supervisor/main.go:61-123 | The invariant of wait, flag, announcement and connections over every interleaving |
| `Supervisor.ReleasedAfterExit` | cmd/zisk-supervisor/main.go:105-123 | A connection whose verb was accepted is closed by its handler only after the child has exited |
| `Supervisor.CodeIsExact` | cmd/zisk-supervisor/main.go:85-91 | The exit code is zero exactly when the child's is and no verb was accepted before the flag was read, a killed child gives 128 plus the signal and a failed wait 1, and without a verb the code is the child's own |
| `Supervisor.LateVerbMaySucceed` | cmd/zisk-supervisor/main.go:85-91 | A run in which a verb is accepted after that, its connection is released, and the code is zero |
| `Supervisor.RequestNeverSticks` | cmd/zisk-supervisor/main.go:105-129 | After an accepted verb the supervisor always has a step of its own that brings its return nearer |
| `Supervisor.SignalNeverSticks` | cmd/zisk-supervisor/main.go:72-82 | After a stop signal the supervisor always has a step of its own that brings its return nearer |
| `Supervisor.RankNeverGrows` | cmd/zisk-supervisor/main.go:61-129 | No connection, signal or read undoes that progress |
| `Admission.SubmitProof` | internal/openvm/client.go:208-235 | The retry loop gives the submission that the classified answers decide |
| `Admission.SubmitProveJob` | internal/zisk/client.go:277-301 | The retry loop, with its setup, gives the submission that the classified answers decide |
| `Admission.OpenvmVerdictIsExact` | internal/openvm/client.go:245-327 | Which HTTP answers to upload and start admit a proof and which are tried again, by status and body. Every other one ends the submission |
| `Admission.ZiskVerdictIsExact` | internal/zisk/client.go:277-340 | Which answers admit a job and which are tried again, by code, message and the outcome of the setup, and that an input over 128 MiB is refused |
| `Admission.ContainsIsExact` | internal/openvm/client.go:312-322 | A body holds a part exactly when it is something, the part, and something |
| `Admission.LandsAtFirstAdmission` | internal/openvm/client.go:208-235 | A submission lands at the first admitted attempt, after attempts all refused for now, with the wait up to its begin |
| `Admission.EndsAtFirstFinal` | internal/openvm/client.go:208-235 | It ends unadmitted at the first final refusal, or at the first one for now at which the context ends, and goes on exactly while all were tried again |
| `Admission.MeasuredTimeExcludesRefusals` | internal/serve/server.go:221-251 | The measured time is never negative, holds the whole landing attempt, and excludes every refused one |
| `Serving.OutputMatched` | internal/serve/server.go:285-295 | The output matches exactly when the committed values are the expected output followed by zeros |
| `Serving.Settle` | internal/serve/server.go:251-281 | VALID is answered exactly then, and otherwise the committed values are echoed |
| `Serving.OneProofAtATime` | internal/serve/server.go:204-281 | Over every run of requests, at most one proof from request handling is in flight, warmups included |
| `Serving.WarmupFollowsFailure` | internal/serve/server.go:229-250 | Between a proof that failed with a live client and any later measured proof, a whole warmup attempt took place, and none follows when a failure ends the process |
| `Serving.EventsTellTheStage` | internal/serve/server.go:204-281 | Over every run, each request is proved at most once, its proof succeeds or fails, and it causes one warmup exactly when it failed while its client was there |
| `Serving.ExitIsExact` | internal/serve/server.go:229-233 | The process exits exactly on such a failure when that is asked for |
| `Serving.StepsOnlyAdvance` | internal/serve/server.go:187-281 | Every step but an arrival brings exactly one request nearer to its answer |
| `Serving.RequestsNeverStick` | internal/serve/server.go:187-281 | The lock is never lost: while the process runs and a request waits, some request can advance |

## Left out

- Docker, SSH, gRPC, HTTP and journalctl calls and generated API code: their answers are inputs.
- The cgo verifier, SHA-256 and random ids: digests and ids are values, and a new estimate id is assumed fresh.
- JSON, YAML, TOML and URL parsing, CLI wiring, log wording and container specs: field copying.
- Real file I/O: only atomic replace, remove, hard link and directory rename. A command reads and lists the directory in one piece, with no other process writing it, and distinct test names are assumed to have distinct sanitized paths.
- `index.json`, the command, timestamps, labels and the image digest that a header also carries.
- The header guest of a record: the JSON artifact does not hold it, it only serves the provenance statements.
- The check that test names are local paths, which refuses a whole command before any step.
- Directory entries are a listing in any order. The real one is sorted by id.
- A worker count of zero, which the command line refuses, and the interleaving of several commands, which the tool does not support.
- Floating point: throughput and the rounding of sub metrics, which are whole numbers here.
- Integer widths of stamps, which are unbounded. The 64-bit words of the transcoder are bounded as in the code.
- ZisK worker ranks: the number read from a worker name is a parameter, and names compare by character.
- OpenvmTimeline.MapPipeline: the code sorts registrations with a sort that is not stable, which shows only for repeated worker ids. The model sorts stably.
- Task ids and node names as text: both are structured values.
- Substitute.LongestIsTaken: the shell counts characters and the scan compares bytes, so the length is a parameter that grows with every proper extension. Tabs and newlines inside values are not modelled.
- The claim that a redacted text holds no value. Replacements may form new ones at their edges, and the script scans again for that.
- Journal.WriteJournal: a refused write is taken to leave nothing of the line in the file.
- LineOutput.PrefixWriter.Write: the output never fails, and the lock of the output makes each line whole.
- Placement.Validate: the checks shared by all zkVMs, of the telemetry and of the prover capacities, which come before and after.
- Placement.StartWorkers: a failing daemon call, which ends the loop early, and containers left from an earlier split.
- Supervisor.CodeIsExact: reading the verb and raising the flag is one step, as is sending the signal and arming the kill timer.
- Admission: the byte sizes of OpenVM uploads, the registration and setup polls of a ZisK client, and the status polls and streams that follow an admitted proof.
- Serving: the phase lines, the readiness wait, which never fails a request, and the warmup at startup, which takes no lock.
- Small total functions such as host names, quantities and log levels.
