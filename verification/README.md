# A Dafny model of the AgentKernelArena framework

AgentKernelArena lets agents optimize GPU kernels and scores the result. This project models the parts of the
framework on which a score rests, and proves what they promise:

| component | files |
|---|---|
| task sessions: gated candidate actions, an action log, resuming from it | `TaskSession`, `SessionRuns`, `SessionResume`, `SavedReports`, `SessionCoverage`, `SessionWitnesses`, `SessionScores`, `RecordNames` |
| command evidence: reports, merging, the case manifest | `TaskProtocol`, `ActionEvidence`, `JsonValues` |
| pairing cases, comparing them, the speedup, the evaluation chain | `CaseMatching`, `MatchingMeaning`, `MatchingKeys`, `Speedup`, `ScoreMeaning`, `Evaluation`, `ScoredEvidence`, `SavedCases`, `PythonValues` |
| the shared task queue of parallel workers | `TaskQueue`, `QueueOutcomes`, `Naming` |
| bounded capture of process output | `StreamCapture` |
| editable declarations, ignore rules, bundle installation | `EditScopes`, `IgnoreRules`, `IgnoreNames`, `BundleSymbols`, `BundleInstall` |
| workflow arguments: the duplicate-name scanner and the canonical form | `JsonText`, `JsonScan`, `JsonLoad`, `WorkflowInputs` |
| the harness guard: definition-time policy, symbol digests, verification | `PythonSyntax`, `HarnessPolicy`, `ConfigFactories`, `SymbolDigest`, `HarnessGuard`, `ProtectedStatements` |
| generated helper regions in task runners | `MarkedRegion` |
| the processes below a worker | `Descendants` |

Objects that the program updates in place are classes (`Session`, `Capture`, `FileTree`, `Scanner`, `Workspace`),
its loops are methods with invariants, and each such method is proved equal to a specification function or to a
set-based definition about which the main results are then proved. Each such definition is also tied to the inputs
themselves: to the times, the printed reports, the workers' reports, the statements or the bytes. Commands, clocks, the file system's failures and
the candidate's edits are observations handed in from outside, so every interleaving of them is covered.

## What the proofs found

Each of these has a lemma with the exact condition under which the promise holds, and one with a concrete case in
which it does not.

| finding | exact condition | concrete case |
|---|---|---|
| a correctness run that fails without a written record, or ends in an exception the session does not handle, leaves the earlier pass in memory, and timing is still authorised | `SessionRuns.TimingIsGated` | `SessionWitnesses.TimingAfterLostFailure`, `SessionWitnesses.TimingAfterException` |
| a record or report that was written only in part, or a recorded passing task check without a performance case, makes an intact session directory unloadable | `SessionResume.UnloadableExactly`, `SessionResume.AcceptedReportIsLoaded` | `SessionWitnesses.TornRecordIsFatal`, `SessionWitnesses.TornReportIsFatal`, `SessionWitnesses.BarrenCheckIsFatal` |
| record names stop sorting as numbers at 10000 | `RecordNames.NamesSortExactly` | `RecordNames.NamesBreakAtTenThousand` |
| a declared file that is a directory opens its undeclared content | `IgnoreRules.UndeclaredVisibility` | `IgnoreRules.DeclaredFileUsedAsDirectory` |
| declared names that are patterns, or end in a blank, mean something else | `IgnoreNames.OneDeclarationIsMeant` | `IgnoreNames.NamesReadAsPatterns` |
| with an end marker before the start marker, every materialization makes a runner longer | `MarkedRegion.PutPut` | `MarkedRegion.MisorderedText` |
| installing a bundle removes stale files but no directories, and stops half way at a file that stands on the way to another | `BundleInstall.InstallCandidate` | `BundleInstall.DirectoryInPlace`, `BundleInstall.FileOnTheWay` |
| different parameter values can have one matching key, so pairing alone does not prove equal workloads | `MatchingKeys.ParamsKeyIsShared`, `MatchingKeys.ShapeKeyIsShared` | `PythonValues.DifferentValuesCanShareAKey` |
| a line whose decoding raises an exception that the event handler does not catch, such as one that nests too deeply, breaks the capture off in the middle of a chunk, and the counts recorded then depend on where the stream was cut | `StreamCapture.Capture.Drain` | `StreamCapture.CutsMatter` |
| the definition-time policy looks at names, and a comprehension or a second definition can give such a name another meaning | `HarnessPolicy.DefinitionSound` | `HarnessPolicy.AcceptedButRebound` |

Two branches are dead, over exact ratios: in `evaluate_kernel` the last error, that cases did not match completely,
and in `write_task_result` the one that rebuilds a speedup from average times (`Evaluation.EvaluateKernel`). With
floating-point times the first can still be reached when every ratio underflows to zero; the second cannot, because
an error is then set.

The comment on `install_candidate` says that declared deletions are propagated; the code propagates deletions of
files only, and the model follows the code.

## Model

| member | source | states |
|---|---|---|
| TaskSession.RunCommands | src/task_execution.py:97-128 | the loop over the commands: a result is merged from the reports of the first commands, in order, up to and including the first failing one, keeps all their rows, and passes exactly when every command of the action reported and passed |
| ActionEvidence.ActionFollowsItsCommands | src/task_execution.py:66-128 | which outcome an action has, for every list of commands: by the first command that did not print an acceptable passing report, the action returns exactly the reports so far, fails, or lets an exception escape |
| ActionEvidence.RowsInOrder | src/task_protocol.py:205-217 | the rows of every command stand together in the merged result, in the order of the commands |
| ActionEvidence.MergedFailureKind | src/task_protocol.py:218-222 | a merged result has a failure kind exactly when all failing commands report that one kind |
| ActionEvidence.ManifestCovers | src/task_protocol.py:181-199 | a result is valid against a manifest exactly when no case repeats, every row has the identity of a declared case of that check, and every declared case of that check is answered, except by a compile |
| TaskSession.Session.ExecuteAction | src/task_session.py:238-259 | the whole effect of one execution on memory and log: bad evidence removes the old result, an escaping exception changes nothing but the count, a result counts only once its record is written, and a failed write leaves nothing, a part, or everything |
| TaskSession.Session.CandidateAction | src/task_session.py:374-401 | the gates in order, the reset by compile, and the checks after the command |
| TaskSession.Session.RunCheck | src/task_session.py:268-300 | one initial check: its acceptance rule and what the session remembers of it |
| TaskSession.Session.Validate | src/task_session.py:261-304 | the plan of initial checks run until the first failure or the death of the process, and what is left of the report |
| TaskSession.Session.ReplayRecord | src/task_session.py:149-175 | one record of the log parsed and replayed into memory, or the contradiction or torn file that stops the load |
| TaskSession.Session.Reload | src/task_session.py:126-185 | the replay loop over all records, and the reading and check of the report |
| SessionRuns.TimingIsGated | src/task_session.py:374-401 | in every run of edits, actions, crashes and loads: when performance returns, it started and finished on the sources of the latest compile reset, everything since then was started on them, and the latest recorded compile and correctness passed; the latest executed ones passed exactly unless a failure's evidence was lost or an exception escaped |
| SessionRuns.ActionReturnsExactly | src/task_session.py:374-401 | a candidate action returns exactly when the validation was accepted, protected files and the candidate's files checked out before and after, the sources are those of the compile, the passes it depends on are there, and its commands gave a result that was recorded; that result is returned, remembered and logged |
| SessionCoverage.TimedCasesWereChecked | src/task_protocol.py:138-147 | in every run whatever case a returned performance result times was reported as passed, with the same identity, by the correctness result since the latest compile |
| SessionRuns.EarlierPassStillAuthorises | src/task_session.py:245-257 | after either exception, in any state, the earlier pass stays and timing is still allowed on the same sources |
| SessionWitnesses.TimingAfterLostFailure | src/task_session.py:254-257 | a run from the start in which the record of a failing correctness run cannot be written and timing returns |
| SessionWitnesses.TimingAfterException | src/task_protocol.py:98-102 | a run from the start in which decoding the report of a correctness run raises past the session and timing returns |
| SessionRuns.LoadedSessionMustCompile | src/task_session.py:387-393 | after a load no candidate action but compile gets through, so replayed results never authorise timing |
| SessionResume.LoadRebuildsTheSession | src/task_session.py:148-185 | in every run record numbers strictly increase, and a load gives back the live results of the initial phase and the report |
| SessionResume.AcceptedReportIsLoaded | src/task_session.py:176-184 | in every run an accepted initial validation can be loaded, and comes back unchanged, exactly as long as no record was torn |
| SessionResume.UnloadableExactly | src/task_session.py:150-180 | in every run an intact directory is refused exactly when a record or the report is torn, or a passing task check without a performance case is on record |
| SessionResume.SavedReportIsCoherent | src/task_session.py:261-304 | in every run a saved report, accepted or not, accepts exactly when it names no error, names one at most, and calls the baseline diagnostic only where the specification allows it and its correctness failed |
| SessionResume.CheckDiesExactly | src/task_session.py:296-297 | when an initial check ends the validation without a report: its record could not be written, or an exception escaped that is no ValueError |
| SessionWitnesses.TornRecordIsFatal | src/task_session.py:31-34 | a run from the start in which one torn record makes an accepted directory unloadable |
| SessionWitnesses.TornReportIsFatal | src/task_session.py:298-300 | a run in which every record is whole and the torn report makes the directory unloadable |
| SessionWitnesses.BarrenCheckIsFatal | src/task_session.py:170-173 | a run in which a recorded task check without a performance case makes the directory unloadable |
| SavedReports.ReplayedResultsAreLatest | src/task_session.py:150-171 | for any log a replayed result is the latest record of its key, and is absent when that record is an error |
| SavedReports.ReplayedTaskCheck | src/task_session.py:157-173 | for any log the evidence and the manifest are those of the latest task check |
| SavedReports.AcceptedReportIsDerived | src/task_session.py:148-215 | any directory with an accepted report is loaded exactly when its records can be replayed and the report follows from the latest of them: the task check passed, observed the declared state and gives the manifest, every later check is covered by it and passes its policy, and every field of the report says what they say |
| SavedReports.RecordReplaysExactly | src/task_session.py:150-175 | after any log that can be replayed, a record can be replayed exactly when it is whole, its reports are acceptable and merge to its result, a passing task check has a performance case, and any other result is valid against the manifest held at that point |
| SavedReports.AcceptedReportMeans | src/task_session.py:187-226 | the same without the plan: an accepted report is loaded exactly when harness and baseline are intact, the records can be replayed, and the latest of them show a passing task check in the declared state with a performance case, passing baseline compile and timing, baseline correctness that passes or is excused as purely numerical, and, where a provided baseline and an implemented candidate demand them, three passing candidate checks |
| RecordNames.NamesSortExactly | src/task_session.py:243 | among n records the sorted file names are in the order of their numbers exactly when n is below 10000 |
| RecordNames.NamesBreakAtTenThousand | src/task_session.py:148-150 | record 10000 would be replayed before record 9999 |
| SessionScores.AcceptedBaseline | src/task_session.py:194-202 | in every run an accepted session holds a passing baseline performance result, merged from reports the parser accepts and valid against its manifest |
| SessionScores.ReturnedPerformanceScores | src/evaluator.py:447-470 | in every run a returned passing performance result and the session's baseline, as long as no row of either marks its id as synthetic, pair id for id, and score exactly when undeclared workload fields agree and every case was timed alike |
| SessionScores.ReturnedScoreWithin | src/evaluator.py:447-470 | in every run the score of such a result lies between any bounds that its times keep with those of the session's baseline, id for id |
| TaskProtocol.CheckReport | src/task_protocol.py:116-163 | a report is accepted exactly when it meets every rule for its rows and for the text of its reason and failure kind, blanks of any white space included |
| TaskProtocol.MergeCommandResults | src/task_protocol.py:202-222 | the merge succeeds exactly for reports of one role and action without a repeated case, and keeps every row in order |
| CaseMatching.GroupByKey | src/testcases.py:494-503 | the dictionary holds, for every key, exactly the unpaired cases with that key |
| CaseMatching.MatchByUniqueKey | src/testcases.py:490-519 | one pass adds exactly the pairs whose key is unique among the unpaired cases of both sides |
| CaseMatching.MatchTestCases | src/testcases.py:427-546 | three passes by id, params and shape, then the rest in order when allowed; no pair twice |
| MatchingMeaning.IdsThenParamsThenShapes | src/testcases.py:443-524 | the pairs read off the cases: unique ids first, then unique parameters, then unique shapes, each among the cases still unpaired |
| MatchingMeaning.RestIsPairedInOrder | src/testcases.py:526-543 | what the fallback adds: the k-th case left of one list with the k-th of the other |
| CaseMatching.MatchingIsInjective | src/testcases.py:439-441 | no case is paired twice on either side |
| CaseMatching.MatchingIgnoresOrder | src/testcases.py:439-441 | rearranging either list rearranges the pairs and changes none |
| CaseMatching.MatchingTransposes | src/testcases.py:490-519 | swapping the two lists transposes the pairs |
| CaseMatching.SingleCasesPair | src/testcases.py:526-543 | one case on each side is always paired when the fallback is allowed |
| PythonValues.EqualValuesShareAKey | src/testcases.py:460-466 | values that Python calls equal have equal keys, whatever the order of their members |
| PythonValues.DifferentValuesCanShareAKey | src/testcases.py:460-466 | a nested dictionary and the list of its items have one key and are not equal |
| MatchingKeys.ParamsKeyIsShared | src/testcases.py:468-472 | parameters share their key with unequal parameters exactly when one of their values holds a dictionary, or a list that looks like the sorted items of one |
| MatchingKeys.ShapeKeyIsShared | src/testcases.py:474-477 | a shape that has a key shares it with another unequal one that has a key exactly when the shape is of that kind at some depth |
| Speedup.WorkloadMismatches | src/testcases.py:696-732 | exactly the pairs whose workloads differ are reported, each with exactly the fields that changed |
| Speedup.BenchmarkMethodMismatches | src/testcases.py:641-693 | exactly the pairs not timed by one known method are reported, each with its reason |
| ScoreMeaning.ReasonMeans | src/testcases.py:655-690 | the reason of a method mismatch, from the cases: a flag first, then a mixture, then a missing or unknown method, then two different known ones |
| Speedup.AnalyzeWorkloadConsistency | src/testcases.py:735-749 | consistent exactly when the pairs are full on both sides and all workloads are equal |
| Speedup.AnalyzeBenchmarkMethodConsistency | src/testcases.py:752-783 | consistent exactly when the required pairs exist and were all timed by one known method |
| Speedup.CalculateAverageSpeedup | src/testcases.py:549-638 | the mean ratio over the set of pairs, or zero in each case of refusal; when it is not zero it lies between any bounds lo and hi such that every baseline case took between lo and hi times as long as its partner |
| ScoreMeaning.UniformScore | src/testcases.py:613-638 | when every baseline case took k times as long as its partner, the score is k |
| ScoreMeaning.ScoreIsTheMean | src/testcases.py:613-638 | times the number of cases, a complete score is the sum of every baseline time divided by its partner's |
| ScoreMeaning.ScoresExactly | src/testcases.py:595-638 | complete lists score exactly when the pairs leave no case out and every pair has equal shape, dtype and params, one of the two device methods without a flag, and measured times |
| Speedup.SpeedupMeansComparable | src/testcases.py:595-638 | a complete comparison is positive exactly for a full bijection with equal workloads, equal known methods and positive finite times; it is then the mean and lies between any bounds on the ratios |
| Speedup.SpeedupIgnoresOrder | src/testcases.py:549-638 | the speedup does not depend on the order of either list |
| Evaluation.ValidPerfCases | src/evaluator.py:40-50 | the cases with a positive finite time, in order |
| Evaluation.MeanTimeWithin | src/evaluator.py:322-339 | the mean time lies between any bounds on the times |
| Evaluation.Compare | src/evaluator.py:310-430 | the comparison branch: its score, its one possible error and its counts, from the two lists alone |
| Evaluation.ErrorMeans | src/evaluator.py:345-430 | which error a comparison reports, from the cases: nothing without a timed optimized case, then a missing baseline, different workloads, different timing methods, and invalid times, in this order |
| Evaluation.EvaluateKernel | src/evaluator.py:135-436 | a positive speedup is recorded exactly when compile, correctness and the tool gate passed and the cases are comparable, and it is their mean ratio; no result can make a later report rebuild a speedup |
| Evaluation.WrittenSpeedup | src/evaluator.py:575-590 | the ratio written to the report, with the rebuilding branch |
| Evaluation.EvaluateAndWrite | src/evaluator.py:535-590 | the written ratio is positive exactly when the chain reaches comparable lists, and then lies between any bounds that the baseline times keep in terms of the optimized ones |
| ScoredEvidence.PerformanceCases | src/task_protocol.py:241-255 | one scoring case per row, with declared fields written over the row's own metadata |
| ScoredEvidence.CaseHoldsTheRow | src/task_protocol.py:241-255 | a case holds the row's id, time and shape, what it declares, and under every other name what its own metadata says |
| ScoredEvidence.ManifestPairsIds | src/task_protocol.py:181-199 | passing results of one manifest pair id for id with nothing left over, whatever the order of rows and commands |
| ScoredEvidence.EvidenceVerdicts | src/testcases.py:696-749 | on such results the workloads are equal exactly when undeclared fields agree, and the methods exactly when each case was timed alike |
| ScoredEvidence.CleanEvidenceIsConsistent | src/testcases.py:735-749 | rows without undeclared workload fields are always consistent |
| ScoredEvidence.EvidenceScores | src/testcases.py:549-638 | such results score exactly when undeclared fields agree and every case was timed alike |
| ScoredEvidence.EvidenceScoreWithin | src/testcases.py:613-638 | their score lies between any bounds that the reported times keep, id for id |
| ScoredEvidence.KeylessCasesAreNotPaired | src/testcases.py:479-485 | cases without any key, such as marked ids without params or shape, are not paired |
| ScoredEvidence.MarkedRowHasNoKey | src/testcases.py:468-485 | a row marked as synthetic, without params or shape, has no key of any kind |
| SavedCases.SaveRecord | src/testcases.py:809-835 | the record of one case, whatever the order in which its metadata is visited |
| SavedCases.ReloadedIsAlike | src/testcases.py:786-883 | a saved and reloaded case keeps its keys, workload, method, flag and time, and a generated id stays marked |
| SavedCases.MetadataSurvives | src/testcases.py:809-883 | every saved entry of the metadata comes back: parameters, dtype, and what is said about the benchmark |
| SavedCases.SaveAndLoad | src/testcases.py:786-883 | the same for whole lists, in order |
| SavedCases.ReloadedListsCompareAlike | src/testcases.py:427-546 | reloading both lists changes neither the pairs by position, nor a verdict, nor the speedup |
| TaskQueue.DescriptorNamesDiffer | main.py:698-700 | descriptors of different tasks have different names, whatever the task names are |
| TaskQueue.ClaimedNamesDiffer | main.py:763 | with separator-free worker ids a claimed name tells worker and descriptor |
| TaskQueue.ClaimsCanMeet | main.py:698-763 | without that condition the claims of two tasks of one queue, with the descriptor names the program writes, can have one name |
| TaskQueue.InitializeQueue | main.py:715-754 | initialization leaves exactly one descriptor per task, done exactly when the task was complete and pending otherwise |
| TaskQueue.QueueSafety | main.py:757-788 | in every interleaving of workers and crashes each task's descriptor is in exactly one state directory, and no two workers hold one |
| TaskQueue.NothingIsOverwritten | main.py:757-788 | no rename lands on an existing file, and no descriptor becomes pending again |
| TaskQueue.QueueIsDrained | main.py:757-770 | when a claim finds nothing, the pending directory is empty in spite of the stale listing |
| TaskQueue.ZeroMeansAllDone | main.py:925-959 | post-processing returns 0 only if it passed and every descriptor is in the done directory, although it reads the other directories one after another |
| QueueOutcomes.DirectoriesTellTheOutcome | main.py:907-917 | in every run a descriptor is done because it was from the start or a worker that held it reported success, and failed because one reported failure; no task is reported both ways, and what was reported is never lost |
| QueueOutcomes.PostprocessGate | main.py:925-959 | post-processing returns 0 only if it passed, every task was complete from the start or reported successful, and none was reported to have failed |
| QueueOutcomes.DoneBeforePostprocessing | main.py:925-959 | once every descriptor is done, post-processing that starts then returns 0 exactly when it passes |
| Naming.PaddedValue | src/task_session.py:243 | a padded number can be read back |
| StreamCapture.PartsJoin | agents/quality_loop/backend.py:60 | splitting at newlines loses nothing |
| StreamCapture.PartsUnique | agents/quality_loop/backend.py:60 | it is the only division into newline-free parts |
| StreamCapture.PartsOfChunks | agents/quality_loop/backend.py:60-71 | splitting commutes with cutting the stream anywhere |
| StreamCapture.Capture.Event | agents/quality_loop/backend.py:73-96 | the effect of one line on the terminal events, and that an exception of its decoding leaves them as they are |
| StreamCapture.Capture.Retain | agents/quality_loop/backend.py:47-57 | everything is counted and hashed, the file holds the first bytes of the stream up to the limit and the tail its last 4000; after a short write exactly the accepted bytes are recorded |
| StreamCapture.Capture.FeedEvents | agents/quality_loop/backend.py:58-71 | the event fields after a chunk are those of the whole stream so far, or, exactly when handling a line ends in an exception, those of the stream up to that line |
| StreamCapture.Capture.Feed | agents/quality_loop/backend.py:47-71 | all fields after a chunk are those of the whole stream so far, exactly when the file took its bytes and no line ended in an exception; what they are otherwise |
| StreamCapture.Capture.Finish | agents/quality_loop/backend.py:98-102 | at the end a last nonempty line is handed on too; when that ends in an exception it stays pending |
| StreamCapture.Capture.Drain | agents/quality_loop/backend.py:47-102 | whatever the division into chunks, the final fields are those of the whole stream exactly when handling no line of it ends in an exception; otherwise the events are still the same for every division, and the bytes are those of the chunks up to the one that completes the line; in all cases the tail is the end of what was read, and the 16 events kept are the latest |
| StreamCapture.CompletedMeans | agents/quality_loop/backend.py:73-96 | a turn counts as completed exactly when some line that is not too long says so |
| StreamCapture.FailureMeans | agents/quality_loop/backend.py:73-96 | the failure kept is that of the last line that reports one |
| StreamCapture.SummaryMeans | agents/quality_loop/backend.py:87-96 | a summary keeps the kind and exactly the three token counts that are whole numbers and not negative |
| StreamCapture.CutsMatter | agents/quality_loop/backend.py:73-77 | one stream with such a line, of which two divisions end with different counts |
| EditScopes.CheckOverlaps | src/task_spec.py:197-200 | declarations are accepted exactly when no two of them overlap |
| EditScopes.OverlapMeansSharedPath | src/task_spec.py:127-130 | two declarations overlap exactly when they share a path |
| EditScopes.AtMostOneScope | src/task_spec.py:197-200 | with accepted declarations every path belongs to at most one |
| IgnoreRules.AllowCandidatePaths | agents/forge/bundles.py:17-35 | the emitted lines: each ancestor opened once, before its declaration, caches last |
| IgnoreRules.RulesMeanTheDeclarations | agents/forge/bundles.py:17-35 | under gitignore(5) every entry is decided by the declarations alone, or left to the rules already there, whenever the declared paths are plain |
| IgnoreNames.NameMeansItself | agents/forge/bundles.py:31 | at the end of a line a name matches itself and nothing else exactly when it holds no pattern character and ends in no blank |
| IgnoreNames.OneDeclarationIsMeant | agents/forge/bundles.py:17-35 | the rules of one declaration mean it exactly when its path is plain, for names without line breaks that are no caches |
| IgnoreRules.DeclaredIsVisible | agents/forge/bundles.py:18 | for any existing rules and any order of declarations, a declared file is seen exactly when it is not a cache |
| IgnoreRules.CandidateIsSeen | agents/forge/bundles.py:17-35 | below any prefix a declared file, or one in a declared tree, is seen exactly when no cache is on its way |
| IgnoreRules.NeighbourIsHidden | agents/forge/bundles.py:28-30 | below any prefix an undeclared file beside a declared path or a directory on the way to one is hidden |
| IgnoreRules.UndeclaredVisibility | agents/forge/bundles.py:29 | exactly when an undeclared file is seen, below an opened directory and elsewhere |
| IgnoreRules.DeclaredFileUsedAsDirectory | agents/forge/bundles.py:31 | a declared file that is a directory shows its undeclared content |
| IgnoreNames.NamesReadAsPatterns | agents/forge/bundles.py:30-31 | declared names with pattern characters show or hide other files |
| BundleInstall.CandidateFiles | agents/forge/bundles.py:72-102 | collection succeeds exactly when every declaration fits the tree, and finds exactly the chosen files |
| BundleInstall.ChosenIsDeclared | agents/forge/bundles.py:91-101 | every chosen file is declared, and protected only where its statements are protected one by one |
| BundleInstall.ChosenExactly | agents/forge/bundles.py:72-102 | which paths belong to a bundle: contained in a declaration, outside transient directories, protected only where the declaration is about symbols |
| BundleInstall.RemoveStale | agents/forge/bundles.py:155-158 | exactly the stale candidate files that the source lacks are removed |
| BundleSymbols.CheckSymbols | agents/forge/bundles.py:105-134 | a candidate file is accepted exactly when the dumps of its protected statements are those of the original, in order, and no new helper is a test |
| ProtectedStatements.AcceptedBundleFile | agents/forge/bundles.py:105-134 | a Python file is accepted exactly when, beside imports, declared symbols and allowed new definitions, none of them a test, its statements are those of the original in the same order |
| BundleSymbols.KeptDumpsKeepStatements | agents/forge/bundles.py:130-133 | as far as a dump tells its statement, the protected statements themselves are kept |
| BundleInstall.InstallCandidate | agents/forge/bundles.py:137-166 | the destination ends with exactly the source's bundle and nothing else changed, exactly when the checks hold and nothing stands where a file has to go; refusals change nothing |
| BundleInstall.InstalledKeepsSymbols | agents/forge/bundles.py:148-152 | after a faithful installation the destination keeps the reference's statements around declared symbols |
| ProtectedStatements.InstalledFileKeepsAround | agents/forge/bundles.py:105-152 | after a faithful installation every declared file with symbols holds, around them, exactly what the reference holds, in the same order |
| ProtectedStatements.FitsExactly | agents/forge/bundles.py:72-102 | what collection demands of a tree: no file where a tree is declared, and of a complete bundle every declared file and at least one file |
| BundleInstall.DirectoryInPlace | agents/forge/bundles.py:160-164 | a case in which every check passes and a directory stands where the file has to go |
| BundleInstall.FileOnTheWay | agents/forge/bundles.py:161-162 | a case in which every check passes and an undeclared file stands on the way |
| JsonText.ReadingsAgree | agents/geak/argument_transport.py:79-85 | two names are one string in JavaScript exactly when they are one string in Python, surrogate escapes included |
| JsonScan.Scanner.Whitespace | agents/geak/argument_transport.py:22 | exactly the white space is skipped |
| JsonScan.Scanner.StringToken | agents/geak/argument_transport.py:23-28 | exactly one string is consumed, and its meaning returned |
| JsonScan.Scanner.Scan | agents/geak/argument_transport.py:29-53 | on every value of the grammar the scan ends having consumed exactly that value, and throws exactly when some object at any depth repeats a name |
| JsonLoad.ScanText | agents/geak/argument_transport.py:17-54 | the same for a whole text with surrounding white space |
| JsonLoad.UniqueObject | agents/geak/argument_transport.py:79-85 | the hook refuses exactly repeated names, and loses no pair |
| JsonLoad.Load | agents/geak/argument_transport.py:117-120 | loading with the hook fails exactly when some object at any depth repeats a name, or an integer literal is too long to convert; what is loaded is what the text means, every member under its name |
| JsonLoad.ReadTwice | agents/geak/argument_transport.py:14-16 | beside texts with integer literals that are too long, the scanner throws on exactly the texts that the loader refuses |
| WorkflowInputs.CanonicalDecides | agents/geak/argument_transport.py:92-114 | canonical forms are equal exactly for the same JSON value |
| WorkflowInputs.BooleansAreNoNumbers | agents/geak/argument_transport.py:93 | true and 1 differ here though Python calls them equal |
| WorkflowInputs.SafeMeans | agents/geak/argument_transport.py:99-105 | arguments are safe exactly when no part at any depth is a whole number beyond what JavaScript holds exactly |
| WorkflowInputs.DecodedMeans | agents/geak/argument_transport.py:117-124 | what arguments are decoded to, and that it is a safe object |
| WorkflowInputs.TransportMeans | agents/geak/argument_transport.py:127-150 | when a pinned transport is valid, on the expected inputs: exactly two keys, a textual path, a safe object, empty where the dispatcher fixes it |
| WorkflowInputs.InputsMatch | agents/geak/argument_transport.py:127-171 | an invalid transport is refused before anything else; then inputs match exactly when both have the two keys, the same path, and the same decoded arguments |
| WorkflowInputs.FixedArgumentsAreEmpty | agents/geak/argument_transport.py:138-139 | under a dispatcher with fixed arguments only empty arguments match |
| MarkedRegion.ReplacedRegion | src/perf_helper_materialization.py:135-143 | with the end after the start exactly the text between the first present start marker and the first end marker is exchanged |
| MarkedRegion.PutPut | src/perf_helper_materialization.py:135-143 | the second of two replacements wins exactly when the first end marker follows the chosen start marker |
| MarkedRegion.AkaIsBorderFree | src/perf_helper_materialization.py:33-46 | the generated markers cannot overlap themselves |
| MarkedRegion.MaterializeThenRestore | agents/quality_loop/filesystem.py:149-163 | restoring the stub after materializing gives back the committed text |
| MarkedRegion.MisorderedMarkersGrow | src/perf_helper_materialization.py:135-143 | with the end marker first every replacement makes the text longer |
| MarkedRegion.MisorderedText | src/perf_helper_materialization.py:135-143 | a text with the generated markers in that order, on which the second of two blocks does not win |
| HarnessPolicy.ExpressionSound | src/harness_guard.py:146-156 | the calls an accepted expression may make are all approved, exactly when no callee starts from a rebound name |
| HarnessPolicy.DefinitionSound | src/harness_guard.py:198-280 | everything an accepted definition does on import is approved, exactly under that condition, through all nested classes |
| HarnessPolicy.AcceptedButRebound | src/harness_guard.py:216-247 | a decorator that is accepted although its comprehension rebinds the imported name |
| ConfigFactories.FactorySound | src/harness_guard.py:159-195 | everything an accepted factory calls is listed for factories, exactly when no callee is both imported and defined |
| SymbolDigest.Digest | src/harness_guard.py:283-323 | the digest exists exactly when editable names are defined once and pass the policy, and is the sequence of the statements that define neither an editable symbol nor a name that may be added |
| SymbolDigest.KeptByDumps | src/harness_guard.py:322-323 | as far as a dump tells its statement, comparing digests is comparing the dumps of the kept statements, constants and operators included |
| SymbolDigest.ImportsAreInitial | src/harness_guard.py:92-124 | unchanged kept statements import nothing under a new name |
| SymbolDigest.UnchangedDigestIsSound | src/harness_guard.py:283-323 | with an unchanged digest, what editable definitions do on import is approved under the exact condition |
| SymbolDigest.EditableFactoriesAreSound | src/harness_guard.py:301-307 | the same for the factories the digest admits |
| HarnessGuard.Scan | src/harness_guard.py:326-351 | a scan succeeds exactly when every selected file has a digest, and holds exactly those |
| HarnessGuard.Verify | src/harness_guard.py:687-748 | verification returns exactly when, after deleting only files absent from the snapshot, the protected scan is the snapshot |
| HarnessGuard.VerifyTwice | src/harness_guard.py:687-748 | a second verification deletes nothing and has the same verdict |
| HarnessGuard.MatchMeansUnchanged | src/harness_guard.py:326-351 | a file matches exactly when its text is that of the original, or its kept statements are and its editable definitions pass the policy |
| HarnessGuard.MatchMeansSameDumps | src/harness_guard.py:322-323 | a kept statement with another dump never matches, whatever else is edited; as far as a dump tells its statement, equal dumps and the policy are enough |
| HarnessGuard.VerifyTolerance | src/harness_guard.py:687-748 | two texts that differ in one constant outside the editable symbol: verification refuses the edited one and accepts the other |
| ProtectedStatements.MatchKeepsAround | src/harness_guard.py:283-323 | in a matching file everything that the original holds around the editable symbols stands in the same order, and beside it and the symbols there are only definitions of names the original does not bind |
| ProtectedStatements.MatchIsAround | src/harness_guard.py:283-323 | as far as a dump tells its statement, a file matches exactly when what stands around the symbols is unchanged and the editable definitions pass the policy |
| ProtectedStatements.MatchAddsNoTest | src/harness_guard.py:198-280 | no definition that a matching file adds has a name that test runners call by themselves |
| ProtectedStatements.MatchDefinesOnce | src/harness_guard.py:293-299 | a matching file defines no editable name twice |
| ProtectedStatements.FactoriesAreKnown | src/harness_guard.py:300-307 | decorators may call plain functions of the original file only, which are protected, or are no entry points, carry no decorator, and were checked |
| ProtectedStatements.DecoratorsCompile | src/harness_guard.py:216-235 | an allowed decorator comes from the compiler, or on a method is one of three builtins |
| ProtectedStatements.LastImportCounts | src/harness_guard.py:113-124 | a name that is imported stands for what its last import says |
| ProtectedStatements.DecoratorsReadNoTests | src/harness_guard.py:216-247 | no part of an allowed decorator is a name that leads into pytest, unittest or pluggy |
| ProtectedStatements.MatchedWorkspace | src/harness_guard.py:687-748 | after a match every protected file without editable symbols has its old text, and there is no test file that the snapshot did not have |
| HarnessGuard.VerifiedFileIsSound | src/harness_guard.py:687-748 | in a verified file the editable definitions do only approved things on import, under the exact condition |
| Descendants.Find | agents/forge/process_tree.py:14-29 | the worklist ends on every parent relation, cycles included, with exactly the processes below by one edge or more |

## Left out

- Running commands, signals, deadlines and GPU probing: a command is an observation that reports, breaks or fails.
- TaskSession.Session.Validate: an exception that validate_initial does not catch, such as a failed write, is taken to
  end the process; its callers (src/task_run.py:209, agents/quality_loop/runtime.py:38) let it pass.
- TaskSession.Session.Reload: a torn file is never valid JSON, and a report that was decoded when it was recorded is
  decoded again on a load; the harness and baseline checks are one observation.
- SessionResume.LoadRebuildsTheSession: records are replayed in the order of their numbers; that file names sort that
  way is RecordNames.NamesSortExactly, for fewer than 10000 records.
- TaskProtocol.CheckReport: the text around the report line, exit codes and unknown fields are checked before the
  rows are reached and are not modelled; metrics and latencies are finite numbers.
- TaskProtocol.MergeCommandResults: the joined reason text of a merged result is not kept.
- ScoredEvidence.ManifestPairsIds: numbers are reals, so -0.0 and 0.0, whose identities in the manifest are two texts
  (src/task_protocol.py:63-65), are one value.
- CaseMatching.MatchTestCases: a list holds each case object once, as every parser and loader of the program builds it.
- Speedup.CalculateAverageSpeedup: ratios and their mean are reals; a ratio that underflows to zero or overflows to
  infinity is not modelled.
- Speedup.BenchmarkMethodMismatches: a timing method that is a list or an object counts as unknown; the program
  raises an error on it.
- Evaluation.EvaluateKernel: messages, method lists and the tools' own report are not kept; legacy stdout parsers and
  time-field heuristics only produce the case lists.
- SavedCases.ReloadedIsAlike: YAML is taken to give back what was dumped.
- TaskQueue.QueueSafety: payloads are kept only as far as the index; temporary files of payload writes have names that
  no listing matches. Renames are atomic.
- IgnoreRules.RulesMeanTheDeclarations: ignore files in subdirectories, character classes by name and Git's index are
  not modelled; a name with a line break is two lines and is left out (IgnoreNames.OneDeclarationIsMeant covers all
  other names).
- IgnoreNames.OneDeclarationIsMeant: the exact condition is for one declaration; for a list only the sufficient one is
  proved, because another declaration can decide the same path alike by accident. A component that is exactly ** is
  matched against one component, while gitignore(5) lets it span directories.
- BundleInstall.InstallCandidate: symbolic links are refused by the program and left out.
- JsonScan.Scanner.Scan: the text is one that JSON.parse has accepted, given by its syntax tree; other texts never
  reach the scan. The scan is recursive, and nesting deep enough to exhaust JavaScript's stack is not modelled.
- JsonText.ReadingsAgree: raw characters are whole code points, as text decoded from UTF-8 always is.
- JsonLoad.Load: nesting deeper than the interpreter's recursion limit is not modelled.
- JsonLoad.ReadTwice: the nesting limits of the two readers, which differ, are not modelled.
- WorkflowInputs.InputsMatch: whether the dispatcher file is the pinned one is an observation, as it compares hashes;
  the loader of textual arguments is a parameter, not JsonLoad.Load, and the results hold for every loader.
- StreamCapture.Capture.Drain: one stream at a time, with a file that takes every byte (Feed has the short write);
  decoding a line is a parameter. The two streams of a process share one loop, so an exception in one also ends the
  reading of the other.
- SymbolDigest.Digest: hashes are injective, and the dump of a whole file is the sequence of the dumps of its
  statements; expressions keep only the structure the policy looks at, everything else is in the dump.
- HarnessPolicy.DefinitionSound: operators, attribute access and iteration are not calls; a protected statement that
  rebinds an imported name is not modelled; builtins keep their meaning.
- HarnessGuard.Verify: tasks of the older schema, whose protected set is recomputed from files, are not modelled;
  hashes are injective and path resolution is the identity.
- Descendants.Find: a reading of the process table is one list; processes that start during it are not in it.
- Agent launchers, prompts, reports, plotting, containers, remote hosts, workspace copying, Git itself and summary
  statistics have no property that spans operations.
- The score of a result (src/score.py) is a short case split over values proved here.
