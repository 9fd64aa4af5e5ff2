# Volens, verified

Volens explains why a Pod stays pending under the Volcano scheduler. It makes the
scheduler print its cache, reads the log, rebuilds queue quotas and node capacity,
and collects checks that pass, fail, stay unknown or are skipped. Then it decides
which scheduling stage stopped the Pod, and falls back to a bounded conversation
with a language model when the evidence does not settle it.

This project models that chain in Dafny and proves what its answers rest on:

| file | what it models |
|---|---|
| `Prelude.dfy`, `ResourceValues.dfy`, `Checks.dfy` | text order, resource maps updated in place, one piece of evidence |
| `CacheScan.dfy`, `CacheDump.dfy` | the line-driven scanner of the cache dump, with a round trip from dumps to lines and back, and what a scan of any stream returns, by line positions |
| `CacheCapture.dfy` | the capture protocol: two goroutines, a one-place channel, cancellation, the capture lock |
| `ResourceLists.dfy` | decoding of Kubernetes resource lists, whose map order is unspecified |
| `QueueSnapshot.dfy`, `QueueQuota.dfy` | quota reconstruction and the admission verdict, from the dump to the check |
| `PodRequests.dfy`, `ResourceFit.dfy` | what a Pod needs while it starts (KEP-753, "Resources calculation for scheduling and pod admission") and whether a node can give it |
| `NodeEvidence.dfy`, `AllocateView.dfy`, `EvidenceMonotonicity.dfy` | node folds, predicate normalisation, merging and stage states, what the presentation shows of its inputs, and that better evidence never overturns a verdict |
| `HookInventory.dfy`, `ActionReports.dfy` | the plugin hook inventory and the regrouping of all evidence by action |
| `RulePipeline.dfy`, `AnalysisReport.dfy` | the ordered rules of an analysis and the stages they leave out, and what a finished report says, read off what was observed |
| `SchedulerLeader.dfy` | choosing the scheduler Pod from the leader election Leases |
| `GoSource.dfy`, `GoMemory.dfy`, `GoStruct.dfy` | a fragment of Go with branches, loops, scopes and early exits, two interpreters of it, and an exact account of what a text can do to one variable or field |
| `PluginDefaults.dfy`, `PredicateDefaults.dfy` | reading defaults out of Go source, against those interpreters |
| `PluginText.dfy`, `PredicateText.dfy` | which bodies can be read and what they say, stated on their statements alone |
| `SchedulerSources.dfy` | ownership of plugin files and the content budget |
| `ToolLoop.dfy` | the tool-calling conversation, with an arbitrary peer and arbitrary tools |

Functions of the program that loop over or update data are methods with loops and
classes here, each proved against a specification function or predicate; the lemmas
then say what the specification means, for the main operations a second time and
without it, on the inputs alone. Loops over Go maps pick the next key
arbitrarily, so each contract holds for every iteration order. Amounts
(`float64`) are exact reals and absent pointers are options. The network, the
file system, the parsers, the peer and the tools are inputs.

## Where the code falls short of the expectation

Each of these is proved: a concrete input that fails, and the exact condition.

- `ResourceLists`: two spellings of one resource with different amounts make the
  decoded amount depend on map order; it is order-independent exactly when the
  entries that can win agree.
- `EvidenceMonotonicity`: the enqueue stage passes on admission evidence over unknown
  checks, so a pass there is final exactly when nothing in it is unknown.
- `CacheCapture`: a dump that ends between the empty poll and the signal is taken
  for the answer; the result was finished after the signal exactly when the scanner
  was still reading in the state that sent it.
- `PluginDefaults`, `PredicateDefaults`: the readers skip most statements and stop
  following a value once it is handed out. Over all conditions, loop counts and
  unknown values, a value read from source is the one the scheduler uses exactly
  when no path, through nested statements, loops, shadowed names and early exits,
  leaves the statement that hands it out unreached, writes the field elsewhere or
  ends with another value in it.
- `ToolLoop`: tool names containing NUL can share a memo entry. For a set of names and
  given limits, every answer of every conversation is its own request's exactly when
  no callable name is another one followed by NUL or the limits leave no room for two
  calls.

## Remarks on raw inputs

Four properties hold of everything the program handles and are proved as such:
`PodRequests.RequestsAreThePeak`, `ResourceFit.AccountedFailureIsExact`,
`RulePipeline.StopsAreShownWhenHookChecksAreOpen` and
`ActionReports.StagedReportPassesIff`. Beside each stands the exact condition on raw
inputs, with an input outside it that the program never receives: a container that
requests `pods`, which the API server refuses; a node whose figures contradict each
other; a general hook check recorded as failed, where the built-in rules leave it
open; a check that names no stage, where every rule names one.

## Model

| member | source | states |
|---|---|---|
| CacheScan.ScanCacheDump | internal/cluster/cache.go:406-509 | The line loop, with reset, section change, early stop and the error at the end of input, computes the scan specification for every stream. |
| CacheDump.ScanMeans | internal/cluster/cache.go:406-509 | For every stream, over line positions: the scan succeeds exactly when some line ends a job section, and then returns the last line of each node and job with the tasks up to the next job line, failed exactly when a node line of the node section, a job line of the job section or a task line of a parsed job does not parse. |
| CacheScan.LinesBeforeTheLastStartDoNotMatter | internal/cluster/cache.go:420-429 | Whatever precedes a start marker, unless it already held a finished dump, has no effect on the result. |
| CacheScan.LinesAfterTheEndDoNotMatter | internal/cluster/cache.go:438-444 | Once a dump is complete, later lines and even a broken stream change nothing, and there is no error. |
| CacheScan.CompleteScanSawAllMarkers | internal/cluster/cache.go:406-509 | A scan without an error saw a node marker, later a job marker and later an end marker. |
| CacheScan.NodeSection | internal/cluster/cache.go:446-457 | Lines that render nodes among noise and node lines that do not parse leave exactly those nodes, and the failure if there is such a line. |
| CacheScan.TasksCollect | internal/cluster/cache.go:463-491 | Task lines that follow a job header end up in that job, in order. |
| CacheScan.OrphansAreDropped | internal/cluster/cache.go:463-491 | Tasks behind a job line that does not parse belong to no job. |
| CacheScan.RoundTrip | internal/cluster/cache.go:406-509 | Rendering any dump to lines with noise and lines that do not parse anywhere, unfinished older dumps in front and anything behind, then scanning, gives back what parses, without the tasks of lost jobs, and raises the failure exactly when something did not parse. |
| CacheScan.DistinctNodesAllKept | internal/cluster/cache.go:446-457 | With distinct names no node of the dump is lost or added. |
| CacheScan.DistinctJobsAllKept | internal/cluster/cache.go:463-491 | With distinct keys no job of the dump is lost or added. |
| CacheCapture.InvHolds | internal/cluster/cache.go:328-404 | Every reachable state of every interleaving satisfies the protocol invariant. |
| CacheCapture.SignalIsGuarded | internal/cluster/cache.go:344-368 | The signal is sent at most once, only after reading began, the poll found no finished scan and the leader was confirmed by namespace, name and, where known, UID. |
| CacheCapture.ReturnIsSound | internal/cluster/cache.go:328-404 | Every exit has closed the stream; success means an accepted signal and a complete dump without error or parse failure, whichever came first. |
| CacheCapture.CapturedDumpIsWhole | internal/cluster/cache.go:380-403 | A captured result holds every node and job of a dump in which every line parsed. |
| CacheCapture.CaptureAnswersSignalIff | internal/cluster/cache.go:344-386 | A captured dump was finished after the signal exactly when the scanner was still reading in the state that sent it. |
| CacheCapture.OlderDumpCanBeTaken | internal/cluster/cache.go:344-386 | A run of nine states that captures a dump finished before the signal. |
| CacheCapture.ScannerNeverBlocks | internal/cluster/cache.go:333-342 | The scanner's single send always finds room, and after it the scanner takes no step. |
| CacheCapture.CallerStepsAreBounded | internal/cluster/cache.go:344-403 | Every step of the caller lowers a bound of six. |
| CacheCapture.CancelledCallerCanMove | internal/cluster/cache.go:344-403 | A cancelled caller that has not returned always has a step to take. |
| CacheCapture.CapturesDoNotOverlap | internal/cluster/cache.go:260-318 | In every interleaving of many callers at most one is inside the lock, and only that one signals. |
| ResourceLists.ResourceListValues | internal/cluster/proportion_snapshot.go:311-339 | In every map order each entry's canonical name is decoded, to the value of an entry that nothing displaces. |
| ResourceLists.EntryIsRoundedUp | internal/cluster/proportion_snapshot.go:311-339 | Amounts are rounded up to thousandths for CPU, to ones for memory and Pods, and for other resources to thousandths by the cluster reader and to ones by the agent. |
| ResourceLists.OrdersAgree | internal/cluster/proportion_snapshot.go:311-339 | If all entries that can win agree, two enumerations decode to the same amounts. |
| ResourceLists.DecodingIsOrderIndependentIffUnambiguous | internal/agent/presentation.go:1792-1817 | The decoded amounts are the same for every map order exactly when competing entries agree. |
| ResourceLists.DecodingCanDependOnOrder | internal/agent/presentation.go:1792-1817 | A list on which two orders decode differently. |
| ResourceLists.CanonicalNameIsStableIff | internal/cluster/proportion_snapshot.go:341-350 | A decoded name decodes to itself exactly unless the original carried the prefix twice. |
| ResourceLists.DecodedLists | internal/cluster/proportion_snapshot.go:311-339 | In every map order all names of a decoded list come from canonicalisation. |
| ResourceValues.ResourceMap.Add | internal/cluster/proportion_snapshot.go:255-259 | Adding in place, in any map order, is the pointwise sum. |
| ResourceValues.ResourceMap.Subtract | internal/cluster/proportion_snapshot.go:261-265 | Subtracting in place is the pointwise difference. |
| ResourceValues.ResourceMap.LimitTo | internal/cluster/proportion_snapshot.go:267-274 | Every entry is lowered to its limit and limits without an entry are adopted. |
| ResourceValues.ResourceMap.RaiseTo | internal/agent/filter/resources.go:116-122 | Every entry is raised to the candidate, a missing one from zero. |
| QueueSnapshots.QueueSnapshot.SetResourceValue | internal/cluster/queue_snapshot.go:31-52 | One figure of one resource is replaced and everything else is kept. |
| QueueSnapshots.QueueSnapshot.AddResourceValue | internal/cluster/proportion_snapshot.go:172-222 | A non-zero amount is added to one figure; zero creates no row. |
| QueueSnapshots.QueueSnapshot.AddResourceValues | internal/cluster/proportion_snapshot.go:94-136 | Posting a whole resource map credits each figure once, in any order. |
| QueueSnapshots.JobTaskResources | internal/cluster/proportion_snapshot.go:234-253 | What tasks with the statuses Bound, Binding, Running and Allocated request, the same with Pending, and how many have the former. |
| QueueSnapshots.TaskCountsByStatus | internal/cluster/proportion_snapshot.go:234-253 | Wherever a task stands, it adds its request and one to the count if its status is wanted, and nothing otherwise. |
| QueueSnapshots.PositiveResourceDiff | internal/cluster/proportion_snapshot.go:285-309 | The difference, kept where it is positive. |
| QueueSnapshots.TotalNodeAllocatable | internal/cluster/proportion_snapshot.go:224-232 | The cluster total is the sum over all nodes in any order. |
| QueueSnapshots.BuildQueueSnapshot | internal/cluster/proportion_snapshot.go:53-139 | The errors for a missing name or queue; otherwise every job figure is the sum, over the jobs of the queue, of amounts spelled out by task status, PodGroup phase and minimum, the capability column is the real capability and no row is without a figure. |
| QueueSnapshots.RowFigures | internal/cluster/proportion_snapshot.go:94-136 | The four job figures of a row, with statuses, phases and differences spelled out, present exactly when some job contributes. |
| QueueSnapshots.TotalTakesAnyJobFirst | internal/cluster/proportion_snapshot.go:94-136 | Sums over jobs do not depend on the order of the jobs. |
| QueueSnapshots.JobDifferencesCancel | internal/cluster/proportion_snapshot.go:94-136 | For one job allocated plus inqueue minus elastic is its commitment, stated from phase and minimum alone. |
| QueueSnapshots.CommitmentIdentity | internal/cluster/proportion_snapshot.go:94-136 | For every snapshot and resource, allocated plus inqueue minus elastic is the sum of commitments, and request is allocated plus pending. |
| QueueSnapshots.RowsAreNamed | internal/cluster/proportion_snapshot.go:53-139 | Every row is about a resource that some node, queue, task or PodGroup names. |
| QueueSnapshots.GuaranteesSplit | internal/cluster/proportion_snapshot.go:66-87 | The guarantee total is the queue's own guarantee plus all others. |
| QueueSnapshots.GuaranteeReservation | internal/cluster/proportion_snapshot.go:66-92 | The real capability is the largest amount that leaves all other guarantees and the declared limit intact; it covers the own guarantee exactly when guarantees fit the cluster and the limit covers it. |
| QueueSnapshots.DeservedShare | internal/cluster/proportion_snapshot.go:141-170 | Never below the guarantee, otherwise the largest share within declared share, capability and request. |
| QueueSnapshots.PopulateCapacityDeserved | internal/cluster/proportion_snapshot.go:141-170 | The first queue of the name sets every row's deserved figure and nothing else changes. |
| QueueSnapshots.DeservedKeepsSnapshot | internal/cluster/proportion_snapshot.go:25-37 | Filling in the deserved figures keeps everything that is promised of the other columns. |
| QueueQuota.SortNames | internal/agent/presentation.go:804-877 | Plain names come before `requests.` spellings, each group in byte order. |
| QueueQuota.QueueResourceValues | internal/agent/presentation.go:804-877 | The table is the merge of the rows in that order with candidate, available and required filled in. |
| QueueQuota.TableIsDetermined | internal/agent/presentation.go:804-877 | The table does not depend on the order in which the rows are visited. |
| QueueQuota.CanonicalRowsStaySeparate | internal/agent/presentation.go:879-898 | Rows with canonical names are never merged with each other. |
| QueueQuota.QueueCapacityCheck | internal/agent/presentation.go:933-1034 | In any map order: skipped without a queue plugin, undetermined without a snapshot, a proven policy or a measure for everything asked for, and otherwise passed exactly when nothing asked for exceeds what is available. |
| QueueQuota.FormulaReadings | internal/agent/presentation.go:804-877 | Candidate at most available is equivalent to required at most capability. |
| QueueQuota.VerdictByFormula | internal/agent/presentation.go:933-1034 | Unknown exactly when a positively requested dimension has no capability, else failed exactly when some candidate plus what is held exceeds the capability. |
| QueueQuota.VerdictFromDump | internal/agent/presentation.go:933-1034 | For rows with canonical names the verdict compares the candidate plus the sum of all jobs' commitments with the real capability. |
| QueueQuota.VerdictFromInputs | internal/agent/presentation.go:933-1034 | The same from decoded inputs alone: the rows are canonical because all their names are decoded ones. |
| QueueQuota.QueueBaseStrategy | internal/agent/presentation.go:1036-1081 | Capacity wins over proportion; a plugin with its enqueue switch off has no vote. |
| PodRequests.ComputePodRequests | internal/agent/filter/resources.go:46-79 | The loops over containers and init containers, updating three maps, compute the request specification. |
| PodRequests.InitMaximumIsTheLargest | internal/agent/filter/resources.go:57-73 | The running maximum is the largest usage of the init steps so far. |
| PodRequests.RequestsAreThePeak | internal/agent/filter/resources.go:46-79 | For every admitted Pod and every resource the request is the peak over the whole start-up sequence plus overhead, with one Pod counted. |
| PodRequests.PeakIff | internal/agent/filter/resources.go:46-79 | On raw request maps the same holds exactly unless an init step needs more `pods` than the running Pod. |
| PodRequests.RawPodCountCanFallShort | internal/agent/filter/resources.go:46-79 | Such a map, of a Pod that the API server refuses. |
| ResourceFit.ResourceFitCheck | internal/agent/filter/node.go:454-569 | The returned names are exactly the requested ones that fall short, by cache or by node status, each once, and the verdict fails exactly when there is one. |
| ResourceFit.NodeResourceCheck | internal/agent/filter/node.go:95-161 | Skipped exactly for best-effort requests and otherwise never a pass; a known failure needs a cache entry, no sidecars and an insufficient dimension; only then are dimensions flagged. |
| ResourceFit.VolcanoBestEffort | internal/agent/filter/node.go:187-195 | Best effort means that nothing but the Pod count is requested. |
| ResourceFit.FailureIsExact | internal/agent/filter/node.go:454-569 | Over dimensions in the cache a failure, other than one for Pods on a node without Pod capacity whose releasing Pods cover the request, is reported exactly when no non-negative Pipelined lets the request fit. |
| ResourceFit.UnknownMayStillFit | internal/agent/filter/node.go:541-568 | When nothing is insufficient the request fits all known dimensions if nothing is pipelined. |
| ResourceFit.ReportedIffNeverFits | internal/agent/filter/node.go:466-509 | Dimension by dimension, being reported means never fitting exactly unless releasing Pods cover the Pod count on a node without Pod capacity. |
| ResourceFit.ReportedIffNeverFitsWhenAccounted | internal/agent/filter/node.go:466-509 | On a node whose idle and used amounts make up the allocatable one and cover the releasing one, reported means never fitting, without exception. |
| ResourceFit.AccountedFailureIsExact | internal/agent/filter/node.go:454-569 | On such a node a resource in the cache is reported exactly when no Pipelined lets the request fit. |
| ResourceFit.ReleasingPodsAreIgnored | internal/agent/filter/node.go:478-492 | A remark: on a node whose figures contradict each other the exception shows. |
| NodeEvidence.EvaluateOutcome | internal/agent/filter/node.go:173-184 | Passed means every check is a known pass; determinate means a known failure or no unknown. |
| NodeEvidence.RecomputeNodeOutcome | internal/agent/presentation.go:1732-1749 | One node of the slice is updated in place with the fold over its executed checks. |
| NodeEvidence.FoldsAgree | internal/agent/presentation.go:1732-1749 | On evidence from the constructors both node folds agree. |
| NodeEvidence.PredicateCheckActivation | internal/agent/presentation.go:519-591 | Enabled without a switch, or if a predicates plugin sets the switch or leaves it to a branch default that does; else unknown if one gives it another value or leaves it without a default; else disabled. |
| NodeEvidence.NormalizePredicateChecks | internal/agent/presentation.go:603-685 | Every predicate check is rewritten by its activation and no other check is touched. |
| NodeEvidence.NormalizationKeepsFailures | internal/agent/presentation.go:603-685 | Normalisation keeps exactly the known failures of predicates that are not known to be off, and invents no pass. |
| NodeEvidence.MergeChecks | internal/agent/presentation.go:714-734 | An addition replaces the last check with its ID in place or is appended. |
| NodeEvidence.MergedRecords | internal/agent/presentation.go:714-734 | After merging, the check on record for an ID is the last addition with it, else the existing one. |
| NodeEvidence.NodeAvailabilityCheck | internal/agent/presentation.go:736-789 | Known pass if a node passes, else unknown if a node is undecided, else known failure. |
| NodeEvidence.AllocationCheck | internal/agent/filter/filter.go:119-163 | The filter's own summary is that same check whenever listing the nodes succeeded. |
| NodeEvidence.StateFromChecks | internal/agent/presentation.go:1324-1365 | Fail on an executed known failure, else unknown on an executed unknown or when nothing executed, else pass. |
| NodeEvidence.BuildAllocatePresentation | internal/agent/presentation.go:365-420 | The allocate view: normalised and merged nodes with recomputed outcomes, and the state of the stage. |
| AllocateView.ViewMeans | internal/agent/presentation.go:365-420 | From the inputs alone: what stands at every position of every shown node, its outcome, and the stage by its judged checks and nodes. |
| AllocateView.NormalizedIsShown | internal/agent/presentation.go:603-685 | Whether a check is kept, skipped or left open, by its ID and the switches. |
| AllocateView.MergedMeans | internal/agent/presentation.go:714-734 | What merging leaves at every position and appends behind. |
| AllocateView.SwitchedOffEverywhere | internal/agent/presentation.go:519-591 | A switch that every plugin turns off leaves its checks skipped on every node, whatever the branch defaults. |
| EvidenceMonotonicity.MergedIsMonotone | internal/agent/presentation.go:714-734 | Merging keeps the order of evidence. |
| EvidenceMonotonicity.ViewNodeIsMonotone | internal/agent/presentation.go:393-403 | A node verdict of the view never changes once it is known. |
| EvidenceMonotonicity.EvidenceIsMonotone | internal/agent/presentation.go:365-420 | Replacing unknown node and hook checks by known ones keeps every node, `allocate.nodes` and allocate stage verdict that was pass or fail. |
| EvidenceMonotonicity.EnqueueState | internal/agent/presentation.go:198-216 | A known failure fails the stage, else admission evidence passes it, else the general state applies. |
| EvidenceMonotonicity.EnqueueFailureIsFinal | internal/agent/presentation.go:198-216 | Better evidence never lifts an enqueue failure. |
| EvidenceMonotonicity.EnqueuePassIsFinalIffNothingIsUnknown | internal/agent/presentation.go:198-216 | An enqueue pass survives all better evidence exactly when no check is unknown. |
| EvidenceMonotonicity.EnqueuePassCanBeLost | internal/agent/presentation.go:198-216 | Evidence for which it does not: an open quota check that turns out to fail. |
| EvidenceMonotonicity.ResolveGangChecks | internal/agent/presentation.go:317-363 | Gang checks whose minimum is met become known passes and every other check is kept. |
| EvidenceMonotonicity.ResolvingGangSharpens | internal/agent/presentation.go:317-363 | Resolving gang checks never adds a failure and keeps every known stage verdict. |
| HookInventory.ActionHooksAreConsistent | internal/agent/runtime/plugins.go:22-87 | A hook has the same option under every action of the table. |
| HookInventory.PluginRegistration | internal/agent/runtime/plugins.go:275-295 | Matched means some file carries the name, or has hooks and no plugin names and lies in a directory of the name; the hooks are all hooks of such files. |
| HookInventory.InspectPluginHooks | internal/agent/runtime/plugins.go:94-162 | The rows are exactly one per emitting position, in strict (action, phase, tier, plugin) order. |
| HookInventory.InventoryIsDetermined | internal/agent/runtime/plugins.go:94-162 | That description leaves no freedom: two such inventories are equal. |
| HookInventory.RowsFollowTheDecisionOrder | internal/agent/runtime/plugins.go:108-158 | Along the positions of the walk, the action index and the printed action, hook number, tier and order increase lexicographically. |
| HookInventory.MatchedRowIffRegistered | internal/agent/runtime/plugins.go:139-155 | A matched plugin has a row for a hook of an action exactly when it registers the hook. |
| HookInventory.UnmatchedRowIffFirstHook | internal/agent/runtime/plugins.go:119-137 | An unmatched plugin has exactly one row per occurrence of an action. |
| HookInventory.MatchedRowSays | internal/agent/runtime/plugins.go:164-260 | A matched row field by field: the switch is known exactly if there is none, the plugin sets it, or the plugin does not mention it and the branch has a default, and has that value. |
| HookInventory.UnmatchedRowSays | internal/agent/runtime/plugins.go:119-137 | An unmatched row names its plugin, the unresolved registration and nothing known. |
| HookInventory.DeterminateIffProvenOff | internal/agent/runtime/plugins.go:164-207 | A row is determinate exactly when it is a pass because the hook is known to be off. |
| HookInventory.PluginHookChecks | internal/agent/presentation.go:1170-1245 | The checks are exactly those of the first wanted row of each plugin and hook: skipped when known to be off, open when unknown, and otherwise as the row has it. |
| HookInventory.EveryKeyOnce | internal/agent/presentation.go:1170-1245 | Every wanted key is kept exactly once. |
| HookInventory.EqualKeysAgree | internal/agent/presentation.go:1170-1245 | Rows with the same key carry the same check, whichever actions they come from. |
| HookInventory.DedupLosesNoVerdict | internal/agent/presentation.go:1170-1245 | Every wanted row's check is among the result. |
| ActionReports.SplitNodesByAction | internal/agent/report.go:208-245 | Each action gets, per node with such checks, the fold of that node's checks of the action. |
| ActionReports.PartsRecombine | internal/agent/report.go:208-245 | The per-action outcomes of a node, put together, are the node fold. |
| ActionReports.BuildActionReports | internal/agent/report.go:99-191 | Preflight if observed, the configured actions in order, then every other observed action once, each with all its evidence. |
| ActionReports.ListIsAssembled | internal/agent/report.go:99-191 | Every entry of such a list holds the evidence of its action. |
| ActionReports.EntryMeans | internal/agent/report.go:99-245 | What an entry holds, by the stages of the evidence: its checks, hooks and node parts, and the coverage note. |
| ActionReports.ObservedMeans | internal/agent/report.go:99-191 | An action is observed when some check, hook or node check is shown under its name. |
| ActionReports.ListMeans | internal/agent/report.go:99-191 | The list entry by entry, from the stages of the evidence: preflight if it has evidence, the configured actions in order, then one entry for every other action with evidence. |
| ActionReports.Occurrences | internal/agent/report.go:99-191 | How many entries an action gets: once per configuration, once if only observed, preflight once more. |
| ActionReports.EvidenceIsConserved | internal/agent/report.go:99-191 | Each check, each hook and each check of each node is shown as often as it was reported, once per entry of its action. |
| ActionReports.Passed | internal/agent/report.go:10-26 | The overall pass is a determinate pass of all checks, hooks and nodes of all entries. |
| ActionReports.PassedIff | internal/agent/report.go:10-26 | It holds exactly when all listed evidence is clean and every configured action is natively covered. |
| ActionReports.StagedReportPassesIff | internal/agent/report.go:10-26 | A report whose evidence names its stages passes exactly when every check, every hook and every check of every node is a determinate pass and all configured actions are natively covered. |
| ActionReports.StagedPassExcludesFailures | internal/agent/report.go:48-97 | Such a report, when it passes, has no known failure and no unknown. |
| ActionReports.PassedExcludesFailures | internal/agent/report.go:48-97 | On raw reports, a passing one has no known failure and no unknown exactly when evidence without a stage is clean. |
| ActionReports.UnstagedFailureIsNotSeen | internal/agent/report.go:107-114 | A remark: a raw report with a failed check that names no stage passes. |
| RulePipeline.KnownStageFailure | internal/agent/presentation.go:1632-1640 | The first check that proves the stage failed. |
| RulePipeline.StageFailureIff | internal/agent/presentation.go:1632-1640 | There is one exactly when some executed check of the stage is a known failure. |
| RulePipeline.ObservedEnqueueAction | internal/agent/analyzer.go:82-94 | Enqueue counts as active unless a determinate policy leaves it out. |
| RulePipeline.RuleState.EvaluateValidate | internal/agent/rules.go:104-171 | The whole state after the first rule, with both kinds of preflight stop. |
| RulePipeline.RuleState.EvaluateEnqueue | internal/agent/rules.go:179-241 | The whole state after the enqueue rule; it stops only on a known failure with the action possibly active. |
| RulePipeline.RuleState.EvaluateJobValid | internal/agent/rules.go:311-319 | The whole state after the JobValid rule. |
| RulePipeline.RuleState.EvaluateAllocate | internal/agent/rules.go:327-355 | The nodes and the four allocate checks that the last rule records. |
| RulePipeline.ReplaceCheck | internal/agent/presentation.go:1670-1692 | The loop computes the replacement specification. |
| RulePipeline.ReplacedKeepsOthers | internal/agent/presentation.go:1670-1692 | Exactly one check with the ID is left, and all others are kept in order. |
| RulePipeline.HookInventoryVerified | internal/agent/presentation.go:1291-1312 | The hooks were inspected and the policy is proven and made of known actions. |
| RulePipeline.BuildEnqueueView | internal/agent/presentation.go:78-189 | The recorded enqueue checks, without the general hook check where the inventory answers for it, and the checks that the view adds. |
| RulePipeline.BuildJobValidView | internal/agent/presentation.go:240-291 | The recorded JobValid checks with gang minimums resolved and answered hook checks removed, and the checks that the view adds. |
| RulePipeline.FinishReport | internal/agent/presentation.go:32-50 | Which stages are presented as skipped and why; the others get the outcome of their views of the recorded checks; nodes and `allocate.nodes` are replaced only when allocate was presented. |
| RulePipeline.RunRules | internal/agent/analyzer.go:37-67 | Which rules run in every world, the checks, nodes and evidence they leave, and that none fails. |
| RulePipeline.Analyze | internal/agent/analyzer.go:37-67 | For every world: which rules run, what is recorded, which stages are skipped with which reason, how the others are presented, and that no rule fails. |
| AnalysisReport.ReportMeans | internal/agent/analyzer.go:37-67 | Every report from what was observed: its records, whether the source is consulted, which stages ran, how they came out by the checks they are judged by, and why the others did not run. |
| RulePipeline.StagesRunUnlessProvenUnreachable | internal/agent/rules.go:162-238 | A stage is skipped exactly when a recorded check proves an earlier stage failed or the Pod could not be read. |
| RulePipeline.StopsAreShownWhenHookChecksAreOpen | internal/agent/presentation.go:78-315 | While hook and gang checks are not failures, as with the built-in rules, a stage that stopped the run is always shown as failed. |
| RulePipeline.StopsAreShownAsFailures | internal/agent/presentation.go:78-315 | On raw check lists, a stage that stopped the run is shown as failed exactly when a recorded failure is neither dropped nor rewritten or the view adds one. |
| RulePipeline.DroppedFailureIsNotShown | internal/agent/presentation.go:132-145 | A remark on raw check lists: when only general hook checks fail, the run stops at a stage that is then shown as passed. |
| SchedulerLeader.HolderMatchesOneName | internal/cluster/client.go:704-711 | Without underscores in Pod names a holder matches at most one name. |
| SchedulerLeader.SchedulerLeaderFromLeases | internal/cluster/client.go:690-731 | A Pod is returned exactly when it is named by a holder and no other candidate is. |
| SchedulerLeader.SelectSchedulerLeader | internal/cluster/client.go:574-680 | Among several Pods the returned one is ready and is the sole holder of the referenced Leases, or the only ready one without election; otherwise there is no such Pod. |
| SchedulerLeader.GetVolcanoScheduler | internal/cluster/client.go:424-488 | The same including the case of a single Pod, and when nothing was discovered. |
| SchedulerLeader.ChosenMeans | internal/cluster/client.go:424-731 | The chosen Pod is up, has its container, and is the only one, the only one up without election, or the only one that a readable Lease of some Pod names, by its name alone or followed by an underscore. |
| SchedulerLeader.ChoiceIsUnique | internal/cluster/client.go:424-488 | There is at most one Pod to choose. |
| SchedulerLeader.ChoiceIgnoresOrder | internal/cluster/client.go:424-488 | Neither the order of Pods nor of Leases matters. |
| SchedulerLeader.DoubtfulHoldersAreRefused | internal/cluster/client.go:690-731 | Two named Pods or an unready holder always give an error. |
| SchedulerLeader.OneLeaseNamesOneName | internal/cluster/client.go:704-711 | One Lease names at most one Pod of a namespace. |
| PluginDefaults.LoadOptionFields | internal/source/plugin_defaults.go:36-123 | A struct is accepted exactly when every boolean pointer declares a switch of its own, and then each has the switch its tag declares. |
| PluginDefaults.RecordBooleanAssignment | internal/source/plugin_defaults.go:282-304 | Only literal assignments to one variable are recorded; compound ones are refused. |
| PluginDefaults.LoadDefaultValues | internal/source/plugin_defaults.go:154-232 | From the text alone: succeeds exactly when a field is tested for nil, every such test is of a known field, in the supported form, the only one of its switch and behind a literal assignment to its variable, and no compound assignment of a literal occurs; the result has exactly these switches with the last literals before the tests; otherwise the error names the first obstacle. |
| GoSource.WatchIsAnOutcome | internal/source/plugin_defaults.go:154-232 | What any run does to a variable, field or pointer is among the outcomes computed from the text, nested statements included. |
| GoSource.Reach | internal/source/plugin_defaults.go:154-232 | Every computed outcome is that of some run. |
| GoMemory.RunOnCell | internal/source/plugin_defaults.go:359-414 | Running a body, with its branches, loops, scopes and early exits, leaves in a cell the last value that the watch saw. |
| GoMemory.RunOnField | internal/source/plugin_defaults.go:195-207 | And a pointer field of the caller's struct changes exactly when the watch saw it written. |
| PluginDefaults.CellStory | internal/source/plugin_defaults.go:359-414 | The cell whose address a guard hands out holds at the end the last write since the cell was created, also through later statements. |
| PluginDefaults.DefaultComesFromGuard | internal/source/plugin_defaults.go:195-231 | A default comes from the one guard of its field and the variable as read up to there. |
| PluginDefaults.SoundIffStable | internal/source/plugin_defaults.go:154-232 | On every heap, for all conditions, loop counts and unknown values, running the body gives nil fields the extracted value and keeps set fields, exactly when the guard is always reached with the field untouched, nothing after it writes the field, and every path ends with that value in the cell. |
| PluginDefaults.AssignedOnceIsSound | internal/source/plugin_defaults.go:154-232 | That is so when what one statement assigns no other assigns at any depth, nothing writes the field besides its guard and nothing leaves early. |
| PluginDefaults.LateAssignmentIsMissed | internal/source/plugin_defaults.go:185-192 | A body read as true that leaves false. |
| PluginDefaults.NestedAssignmentIsMissed | internal/source/plugin_defaults.go:195-207 | A body read as true in which a skipped branch leaves false. |
| PluginDefaults.EffectiveOptionIsReal | internal/agent/runtime/plugins.go:209-254 | With stable defaults, an option that the plugin sets or does not mention is known, and what the inventory calls known is the value the scheduler ends up with. |
| PredicateDefaults.PredicateEnableLiteralDefaults | internal/source/predicate_defaults.go:191-279 | From the text alone: the one struct of the body, its variable and exactly the boolean fields its elements set, or an error exactly when there is no such reading. |
| PredicateDefaults.CountsMatchIffNothingHidden | internal/source/predicate_defaults.go:334-345 | The call count matches exactly when no call is nested elsewhere. |
| PredicateDefaults.PredicateGetBoolDefaults | internal/source/predicate_defaults.go:325-426 | From the text alone: succeeds exactly when there is a call, none is hidden in another statement or expression, and each comes behind the struct, reads a constant, non-empty key into a field with a default, and is the first with its key and field; the result has exactly these keys with these defaults. |
| PredicateDefaults.ReadKeysAreTied | internal/source/predicate_defaults.go:350-407 | Every key belongs to one call after the literal and one field, and every call to one key. |
| PredicateDefaults.ResultOfRun | internal/source/predicate_defaults.go:325-426 | What a run that reaches the call returns: the last write after the call, else the argument, else the last write before it, else the default. |
| PredicateDefaults.SoundIffStable | internal/source/predicate_defaults.go:325-426 | For all arguments, conditions, loop counts and unknown values a missing key gives the extracted default and a boolean key gives that boolean, exactly when every path reaches the call with the default in place and none writes the field or returns something else afterwards. |
| PredicateDefaults.WrittenOnceIsSound | internal/source/predicate_defaults.go:191-279 | That is so when, at any depth, only the literal writes the struct, nothing reassigns the parameter and the body ends by returning the struct. |
| PredicateDefaults.LateWriteIsMissed | internal/source/predicate_defaults.go:350-407 | A body whose field is rewritten after its call. |
| PredicateDefaults.NestedWriteIsMissed | internal/source/predicate_defaults.go:350-407 | A body whose field is rewritten in a skipped branch. |
| SchedulerSources.NearestRegisteredPluginUnit | internal/source/scheduler_sources.go:405-429 | The walk ends and returns the deepest registered ancestor, or none exists. |
| SchedulerSources.DeepestOwnerIsUnique | internal/source/scheduler_sources.go:405-429 | There is only one such ancestor. |
| SchedulerSources.DiscoverPluginSources | internal/source/scheduler_sources.go:356-398 | In order and once each, exactly the files below a directory that registers a hook are indexed, with the plugin names of the deepest such directory. |
| SchedulerSources.BoundContents | internal/source/scheduler_sources.go:88-163 | Paths are strictly sorted, contents are prefixes within both limits, and a file is cut only when the budget is spent. |
| SchedulerSources.GreedySpendsAll | internal/source/scheduler_sources.go:143-160 | The total content is the smaller of the budget and what the files offer. |
| SchedulerSources.GreedyFavoursEarlierFiles | internal/source/scheduler_sources.go:143-160 | No allowed allocation gives any prefix of the files more. |
| SchedulerSources.GreedyIsDetermined | internal/source/scheduler_sources.go:143-160 | The contract fixes every content length. |
| SchedulerSources.NothingAfterACut | internal/source/scheduler_sources.go:143-160 | After a file that was cut, contents are empty. |
| ToolLoop.MaxToolRounds | internal/agent/llm.go:174-184 | The configured number of rounds is clamped into its range. |
| ToolLoop.Complete | internal/agent/llm.go:198-312 | For every peer and tool oracle the loop ends for the stated reason, and its messages are the transcript of a conversation that obeys all limits. |
| ToolLoop.EndingMeans | internal/agent/llm.go:217-288 | Why a reply ends the loop, reason by reason in order, or that it does not. |
| ToolLoop.RoundMeans | internal/agent/llm.go:240-311 | Every round answers all calls of a reply that gave no reason to stop. |
| ToolLoop.ExchangeMeans | internal/agent/llm.go:290-311 | A call gets the text of an earlier one with the same key or of a run of its own, and the peer is sent it unless it exceeds the budget. |
| ToolLoop.ConversationIsBounded | internal/agent/llm.go:240-270 | Rounds and calls stay within their limits, so there is at most one more reply than rounds. |
| ToolLoop.TranscriptShape | internal/agent/llm.go:217-311 | System and user first, then per round one assistant message and one tool message per call in order. |
| ToolLoop.BudgetHolds | internal/agent/llm.go:290-310 | Unreplaced tool text fits the byte budget and the excess is budget-error text only. |
| ToolLoop.MemoKeySeparates | internal/agent/llm.go:291-297 | For two names, equal memo keys mean equal requests exactly when neither name is the other followed by NUL. |
| ToolLoop.NoRequestRunsTwice | internal/agent/llm.go:290-297 | No request is executed twice. |
| ToolLoop.EveryAnswerIsItsOwn | internal/agent/llm.go:290-297 | When no name is another followed by NUL every answer is what a run of that very request returned. |
| ToolLoop.AnswersAreOwnIffNamesAreSeparate | internal/agent/llm.go:290-297 | For names and limits: every answer of every conversation, with any peer and tools, is its own request's exactly when no callable name is another followed by NUL or there is no room for two calls. |
| ToolLoop.NulNamesCollide | internal/agent/llm.go:291-297 | A peer and a conversation, ending in an answer, in which the second request gets the first one's answer. |

## Left out

- Kubernetes access, exec, log streaming, git, HTTP and the file system: inputs or oracles.
- The regular expressions, YAML, Go and quantity parsers: lines carry their markers and parse results, source files a small syntax tree, amounts are reals.
- Floating-point rounding: every amount is an exact real.
- Reasons, names, suggestions and diagnosis texts: checks keep their ID, stage, flags and the gang rule's `wouldPass`.
- Which checks the rules produce from cluster objects, and which the enqueue and JobValid views add to the recorded ones: lists of arbitrary checks.
- Non-ASCII text: lower-casing and trimming are the ASCII ones.
- Real time: cancellation is an event that may happen at any step.
- `internal/agent/skills.go` and prompt building: only what a tool call returns matters to the loop.
- `pluginNamesMatch` and `identifier`: a comparison and a printing function passed in; the checks hold for any.
- `parseSchedulerRuntimeOptions` and `schedulerFlag`: the options of a container arrive parsed.
- `predicateStringConstants` and the lookup of struct fields of `predicateEnable`: given as maps.
- `matchCacheNodes`, `eligibleReadyNodeNames` and the host-port, affinity and volume checks: single-branch facts about one node.
- `podResourceValues`: display only; it uses another init rule than `podRequests`.
- `PluginDefaults.SoundIffStable`: the Go fragment has assignments with any operands, expressions, `if`, blocks, loops, `break`, `continue` and `return`; loops have no init or post statement, and `switch`, `defer`, writes through pointers, closures, labels, panics and names that shadow `true`, `false` or `nil` are outside it, and a nil check in a nested statement counts as an arbitrary condition.
- `PredicateDefaults.SoundIffStable`: the same fragment; named results and shadowed key constants are outside it, and `GetBool` leaves its target alone unless the argument is a boolean.
- `QueueQuota.VerdictFromInputs`: names that carry the `requests.` prefix twice stay non-canonical; `QueueQuota.VerdictByFormula` covers the merged tables they give.
- `SchedulerLeader.GetVolcanoScheduler`: sorting the Pods before the choice is not modelled, as the choice does not depend on their order.
- `HookInventory.InspectPluginHooks`: source paths of a hook are not kept in its row.
- `RulePipeline.Analyze`: rules registered besides the four built-in ones, and what source fallback adds after the report is finished.
