# Verified model of the control plane, adapters and publication pipeline

A Dafny model of the parts of the repository that must not go wrong silently, and proofs about it.
`dafny verify dfyconfig.toml` checks everything.

* **Schedule-dispatch leases.** `ScheduleDispatch` holds the row updates of the control-plane store,
  `LeaseProtocol` a transition system of any number of workers, renewer threads and one clock in which each
  database transaction is a step. `LeaseSafety` proves safety over whole runs, `LeaseTiming` what prompt
  renewals add, `LeaseTakeOver` what an expired claim costs. `DispatchWorker` is the worker as it runs: the renewer
  thread, the processing of one dispatch and the watch loop, proved for every interference that
  `LeaseSafety` shows others can cause.
* **As-of snapshots.** `ReportingSnapshots` models each write as delete, insert and prune on a table;
  `SnapshotRetention` says what "the newest N months" means; `ReferenceMonths` relates string order and calendar;
  `SnapshotProjection` fits stored rows to current columns.
* **Configuration, mapping, validation.** `CsvValidation`, `CsvMapping`, `ConfigCatalog` and
  `ConfigPreflight`: the validator, the mapper, what run time refuses, and the static checks meant to rule that out.
* **Adapter packs.** `AdapterRegistries`, `PackLifecycles`, `PackCompatibility`, `EntityCorrelation`,
  `RendererNegotiation` (section 12.5.1 of RFC 9110) and `RendererRouters`.
* **Promotion and confidence.** `CanonicalPromotion`, `ContributingSources`, `PublicationConfidence`.
* **Inbox and statistics.** `InboxProcessing`, `OperationalStatistics`.

Files that update state in place are classes whose methods are proved against a specification function or
predicate; the lemmas beside them say what that specification promises. I/O, clocks, number and date
parsing, registered functions and what ingestion decides are parameters.

## Where the code does not do what it says

Each of these is proved, by its exact condition, by an input, or by both.

* `is_reference_month` accepts decimal digits of every script; such a month is not ordered like the calendar.
  It can also raise: superscripts, subscripts and other digits that are no decimals pass `isdigit` but not `int`.
* A definition the preflight passes may still be refused when it starts: its response format need only be
  non-empty, and HTTPS definitions are not checked at all.
* Contract names with surrounding whitespace, or names that collide once stripped, make the validator reject the
  mapper's own header.
* `resolve_format_from_accept` says an empty header gives nothing; it gives JSON. A part without segments raises.
* `_split_dependency` tries operators in list order and can split a multi-clause dependency in the wrong place.
* "Unknown inputs never upgrade the verdict" holds except that hiding runs can turn unreliable into degraded.
* "An unknown run can never read current" holds for scheduled sources; ad hoc sources do read current.
* The 50% threshold counts a rounded percentage, so it can call a publication unreliable that is not
  "below 50% even counting every unknown source as covered".
* A lease does not by itself keep two workers off one job: a claim can expire during processing exactly when the
  threads' delays need not fit into the lease beside the renewal interval. When the dispatch's schedule then admits
  a replacement, any ready worker ends up processing the same job, after what is queued before it.

## Assumptions

* Files moved out of an inbox keep apart because run ids are all of one length: `uuid4().hex` in
  `packages/storage/landing_service.py:103`. Without that two destinations can meet.
* The preflight skips an empty `function_key`, which the mapper cannot use. Catalog validation refuses such a rule
  when it is stored (`packages/storage/ingestion_catalog.py:371`), so only rules stored in another way meet this.

## Model

| member | source | states |
|---|---|---|
| LeaseProtocol.EachRowEvolvesLegally | packages/storage/execution_control_plane.py:549-853 | every change of an existing dispatch row, in any step of any process, is a claim of an enqueued row, a renewal or mark by its running holder, or the recovery of an expired claim |
| LeaseProtocol.NewRowsAppearLegally | packages/storage/execution_control_plane.py:643-762 | rows only appear enqueued and unclaimed: a new job, or the replacement of a claim recovered in the same step |
| LeaseProtocol.ClaimsPersist | packages/storage/execution_control_plane.py:585-641 | a claim, once made, stays the same worker's; the row never goes back to the queue |
| LeaseProtocol.JobsStayExclusive | packages/storage/execution_control_plane.py:643-762 | recovery keeps at most one enqueued or running row per chain of replacements |
| LeaseProtocol.InvStep | packages/storage/execution_control_plane.py:549-853 | the protocol invariant is kept by every step of every interleaving |
| LeaseSafety.RunsKeepInv | apps/worker/control_plane.py:517-645 | the invariant holds in every reachable state of any number of workers and renewer threads |
| LeaseSafety.RowsNeverVanish | packages/storage/execution_control_plane.py:549-853 | no dispatch record is ever lost |
| LeaseSafety.TerminalRowsAreFrozen | packages/storage/execution_control_plane.py:764-853 | a completed or failed dispatch never changes again, in any column, late renewals and marks included |
| LeaseSafety.ClosesAtMostOnce | apps/worker/control_plane.py:421-447 | each dispatch is closed at most once in a run |
| LeaseSafety.OnlyHolderOrExpiryCloses | apps/worker/control_plane.py:421-500 | what closes a dispatch is its current holder's mark, with the outcome that worker computed, or the recovery of a claim that had expired |
| LeaseSafety.OneHolderPerDispatch | apps/worker/control_plane.py:360-377 | no two workers are ever busy with the same dispatch record |
| LeaseSafety.RecoveredHolderIsPowerless | apps/worker/control_plane.py:139-197 | after a recovery nothing the old holder or its renewer still does for that dispatch, however late, changes the table |
| LeaseSafety.MarksAndRenewalsAreFramed | packages/storage/execution_control_plane.py:585-641 | a mark or renewal touches no other dispatch |
| LeaseSafety.OtherStepsKeepRely | packages/storage/execution_control_plane.py:549-853 | every step another process takes, and this worker's own recovery, is covered by the rely condition the imperative worker is proved under |
| LeaseSafety.RelyIsTransitive | packages/storage/execution_control_plane.py:549-853 | the rely condition composes over steps |
| LeaseSafety.InterferenceIsRely | packages/storage/execution_control_plane.py:549-853 | any stretch of a run without a step of this worker is covered by the rely condition |
| LeaseTiming.IntervalIsHalfLease | apps/worker/control_plane.py:159 | the renewal interval max(0.5, L/3) is at most half the lease exactly when L >= 1 |
| LeaseTiming.HoldersKeepTheirRow | apps/worker/control_plane.py:139-197 | no step takes a dispatch from a holder whose claim is unexpired |
| LeaseTiming.OnCourseIsSecure | apps/worker/control_plane.py:139-197 | a claim whose stamp in the table keeps pace with its worker and renewer thread, neither overdue, is not expired |
| LeaseTiming.RenewerStepStaysOnCourse | apps/worker/control_plane.py:158-197 | each wake-up and committed renewal of a worker's own thread keeps the claim's stamp in pace with the thread |
| LeaseTiming.OwnStepStaysOnCourse | apps/worker/control_plane.py:344-447 | claiming, reading back, and ending processing keep it too |
| LeaseTiming.TimelyRunsStayOnCourse | apps/worker/control_plane.py:139-197 | so it holds throughout every run in which threads keep to bounds on their delays that fit into the lease beside the renewal interval |
| LeaseTiming.TimelyHoldersAreSecure | apps/worker/control_plane.py:139-197 | in such a run the claim never expires while its holder is processing, nor while it is storing the outcome when that delay is bounded too |
| LeaseTiming.HalfTheLeaseIsEnough | apps/worker/control_plane.py:159 | for every lease of at least one second, delays that total at most half of it fit |
| LeaseTiming.ProcessingIsSecureExactlyWhenDelaysFit | apps/worker/control_plane.py:139-197 | bounds on thread delays rule out processing under an expired claim exactly when they fit into the lease beside the interval |
| LeaseTiming.MisfitExpires | apps/worker/control_plane.py:139-197 | bounds that do not fit admit a run that keeps to them and in which a claim expires during processing |
| LeaseTiming.ClaimsCanBeKept | apps/worker/control_plane.py:158-197 | renewals carry a claim on: for every n there is a timely run that processes for n renewal intervals |
| LeaseTiming.TimelyRenewalsSucceed | apps/worker/control_plane.py:158-197 | in a timely run no renewal of a processing worker is rejected |
| LeaseTiming.TimelyClaimsAreNotRecovered | apps/api/runtime_state.py:380-386 | in such a run no recovery ever hits a dispatch being processed |
| LeaseTiming.TimelyMarksSucceed | apps/worker/control_plane.py:427-500 | in such a run no mark is rejected: the computed outcome is the stored one |
| LeaseTiming.TimelyWorkIsExclusive | apps/worker/control_plane.py:545-578 | in such a run no two workers are ever busy with the same job, replacements included |
| LeaseTakeOver.RecoveryKeepsPending | packages/storage/execution_control_plane.py:643-762 | recoveries in order of expiry, each with a replacement exactly when its schedule is live and below its limit, never cost an expired job its own replacement |
| LeaseTakeOver.RecoverAll | packages/storage/execution_control_plane.py:643-762 | a worker that polls recovers every expired claim, and the job of one whose schedule admits a replacement is queued again |
| LeaseTakeOver.WorkOff | packages/storage/execution_control_plane.py:549-583 | taking the head of the queue again and again, it comes to that job, whatever is queued before |
| LeaseTakeOver.ExpiryBreaksExclusion | apps/worker/control_plane.py:545-645 | from any reachable state in which the claim of a processing worker has expired, its schedule is live with no more active dispatches than its limit, and another worker is ready, that worker, doing only what the store's queries make it do, ends up processing the same job |
| LeaseTakeOver.StalledRenewalBreaksExclusion | apps/worker/control_plane.py:139-152 | so for every lease length there is a run in which two workers process one job of a schedule limited to one |
| ScheduleDispatch.UpdatesMean | packages/storage/execution_control_plane.py:549-853 | no update of a row changes its schedule, its place in the queue or its job; only a mark stores run ids; claims and renewals run from their own time; a recovered claim fails as expired and keeps its worker for the record |
| DispatchWorker.ControlPlane.ClaimNext | packages/storage/execution_control_plane.py:549-583 | a claim takes the first enqueued row by enqueue time and id that is not locked, and nothing else changes; there is none exactly when every enqueued row is locked |
| DispatchWorker.ControlPlane.Renew | packages/storage/execution_control_plane.py:585-641 | a renewal succeeds exactly for the running holder and then moves only that row's expiry |
| DispatchWorker.ControlPlane.Mark | packages/storage/execution_control_plane.py:764-853 | a mark between whose read and write others may act stores exactly the outcome it was given, or is rejected; a held claim is only rejected when it was recovered as expired; a closed dispatch is never overwritten |
| DispatchWorker.LeaseRenewer.Run | apps/worker/control_plane.py:158-197 | the renewer goes on while its renewals come through and stops at its first error; a rejected renewal means the claim is gone for good, after another error it may still be held; to its own worker the thread acts within the rely condition |
| DispatchWorker.Watcher.Process | apps/worker/control_plane.py:344-514 | exit code 0 only for a processing that succeeded with no failed renewal, whose run ids are then stored; code 1 with the run ids and error of the processing, or the failed renewal's, unless the claim expired; the table says the same; other rows are framed |
| DispatchWorker.Watcher.Watch | apps/worker/control_plane.py:517-645 | every iteration no shutdown cuts short asks for a claim, which it is given exactly when some enqueued row is not locked; the claims logged are those handed out, each ending as its turn's processing says or by expiry; it returns 1 exactly when some processed dispatch failed, holds nothing on return, stays within max(1, max_iterations), and ends only there or at a shutdown request |
| DispatchWorker.Watcher.Next | apps/worker/control_plane.py:545-645 | an iteration claims nothing exactly when shutdown is requested or every enqueued row is locked; otherwise it claims the head of what is not locked and logs the claim with its outcome |
| DispatchWorker.Watcher.Rest | apps/worker/control_plane.py:583-616 | the idle branch backs up, unless shutdown is requested, with no running claim of this worker, and logs exactly that |
| DispatchWorker.OneMoreAttempt | apps/worker/control_plane.py:568-640 | each attempt adds its claim to the log, or an idle iteration, and earlier dispatches stay as they ended |
| DispatchWorker.SettledStays | packages/storage/execution_control_plane.py:764-853 | what processed dispatches came to stays true whatever others do |
| DispatchWorker.InterferenceGivesNoClaims | packages/storage/execution_control_plane.py:585-641 | other processes can take claims from a worker but never hand it one |
| DispatchWorker.OwnUpdatesKeepOthersRely | packages/storage/execution_control_plane.py:549-853 | a claim, renewal or closing by this worker is a change every other worker's rely condition allows |
| DispatchWorker.OwnUpdatesAreSteps | packages/storage/execution_control_plane.py:549-853 | what the claim, the renewal and the two halves of a mark do to the table is a step of the protocol, enabled where the thread stands, rejections included |
| DispatchWorker.NothingHeldAfter | apps/worker/control_plane.py:427-500 | after processing the worker holds no running claim |
| DispatchWorker.CodesStayTrue | apps/worker/control_plane.py:427-514 | exit codes reported earlier stay true of the table, whatever others do later |
| SnapshotRetention.NewestSize | packages/pipelines/reporting_snapshots.py:244-255 | with at least n months exactly n are the newest, with fewer all are |
| SnapshotRetention.PruningEarlyIsHarmless | packages/pipelines/reporting_snapshots.py:244-255 | top-n of (top-n of A plus m) is top-n of (A plus m) |
| SnapshotRetention.PrunedMonthsAreOutnumbered | packages/pipelines/reporting_snapshots.py:244-255 | a pruned month has n newer months among those kept |
| ReportingSnapshots.LimitIsNewest | packages/pipelines/reporting_snapshots.py:244-255 | with one row per month, ORDER BY month DESC LIMIT n selects the n newest months |
| ReportingSnapshots.PublicationSnapshotStore.Write | packages/pipelines/reporting_snapshots.py:214-256 | delete, insert and prune leave the shelf that the history with this write asks for; a write is refused, changing no shelf, exactly when a cell is of a type JSON cannot take |
| ReportingSnapshots.PublicationSnapshotStore.Read | packages/pipelines/reporting_snapshots.py:258-283 | a month is found exactly when it is held, and shows the last snapshot written for it: its key, month, time and run id, its rows with their keys, each cell itself, a decimal or moment as text, an enum member as its value |
| ReportingSnapshots.CellsRead | packages/pipelines/reporting_snapshots.py:86-95 | a cell encodes exactly when it holds no other type, and decodes to what a reader should see |
| ReportingSnapshots.StoredKeeps | packages/pipelines/reporting_snapshots.py:223-283 | write then read shows the snapshot: no row, key or cell is lost |
| ReportingSnapshots.RefusedExactlyWhenNotEncodable | packages/pipelines/reporting_snapshots.py:86-95 | a snapshot is not encodable exactly when some cell holds another type |
| ReportingSnapshots.PublicationSnapshotStore.Months | packages/pipelines/reporting_snapshots.py:285-293 | the months listed are exactly those held, ascending, once each |
| ReportingSnapshots.HeldMonthsAreNewestWritten | packages/pipelines/reporting_snapshots.py:214-256 | after any history of writes a publication holds exactly the N newest months ever written for it |
| ReportingSnapshots.HeldMonthsAreCalendarNewest | packages/pipelines/reporting_snapshots.py:78-83 | on ASCII months newest means newest by the calendar |
| ReportingSnapshots.HeldMonthsShowLastWrite | packages/pipelines/reporting_snapshots.py:214-283 | a held month shows the snapshot last written for it, whatever was pruned in between |
| ReportingSnapshots.WithoutRetentionAllMonthsAreHeld | packages/pipelines/reporting_snapshots.py:244-255 | with retention zero or less every month ever written is held |
| ReportingSnapshots.DecodedRowsEncodeBack | packages/pipelines/reporting_snapshots.py:86-95 | rows that were read encode back to the payload they were read from |
| ReferenceMonths.AsciiOrderIsCalendarOrder | packages/pipelines/reporting_snapshots.py:78-83 | on ASCII months the string order is the calendar order |
| ReferenceMonths.FollowsCalendarExactlyWhenAscii | packages/pipelines/reporting_snapshots.py:78-83 | `is_reference_month` also accepts other digits; a month is ordered as the calendar orders it exactly when it is ASCII |
| ReferenceMonths.ForeignDigitsAreAccepted | packages/pipelines/reporting_snapshots.py:78-83 | an accepted month that sorts behind later months |
| ReferenceMonths.RaisesExactlyWhenNoDecimal | packages/pipelines/reporting_snapshots.py:78-83 | whatever the Unicode version, it raises exactly for a text of the right shape whose month has a digit that is no decimal |
| ReferenceMonths.DigitsThatAreNoDecimalsRaise | packages/pipelines/reporting_snapshots.py:78-83 | each such digit makes some text raise |
| SnapshotProjection.ProjectSnapshotRows | packages/pipelines/reporting_snapshots.py:140-152 | rows fitted to the columns; the missing columns are those some row lacks, in column order, the dropped ones, ascending, those no longer wanted; the rows change exactly when either is reported |
| SnapshotProjection.UnchangedExactlyWhenNothingDiffers | packages/pipelines/reporting_snapshots.py:121-152 | projection is the identity exactly when nothing is missing or dropped |
| SnapshotProjection.ProjectionIsIdempotent | packages/pipelines/reporting_snapshots.py:140-152 | a fitted row has exactly the columns and is left as it is by another projection |
| CsvValidation.PassingIsConforming | packages/pipelines/csv_validation.py:56-157 | no issue is justified exactly when a header exists without duplicates, missing required or forbidden extra names, and every non-blank row has its width, its required cells and well-typed cells |
| CsvValidation.DuplicateValues | packages/pipelines/csv_validation.py:160-169 | exactly the repeated values, each once |
| CsvValidation.CheckHeader | packages/pipelines/csv_validation.py:74-106 | each duplicate and each missing name once, and an unexpected name as often as it occurs |
| CsvValidation.CheckRow | packages/pipelines/csv_validation.py:108-151 | the width issue once, and for each cell its issue |
| CsvValidation.CountedExactlyWhenJustified | packages/pipelines/csv_validation.py:56-157 | the number of times an issue is reported is positive exactly when the file deserves it |
| CsvValidation.ValidateCsv | packages/pipelines/csv_validation.py:56-157 | exactly the justified issues are reported, each as often as it occurs, and `row_count` is the number of non-blank rows |
| CsvMapping.MapRecord | packages/pipelines/configured_csv_ingestion.py:214-239 | each target column gets the value its rule gives for the row, or the first failing column's error |
| CsvMapping.MappedValueFills | packages/pipelines/configured_csv_ingestion.py:214-239 | a value comes from the last rule for its column: the source cell, else the default, through the function |
| CsvMapping.MapColumns | packages/pipelines/configured_csv_ingestion.py:179-241 | the output is the contract's names and the image of each non-blank source row, in order; it fails only for unknown targets, or at the first row that is wider than the header or that a rule fails on, those before it having images |
| CsvMapping.NormalizedCells | packages/pipelines/configured_csv_ingestion.py:209-212 | a normalized cell is a stripped cell under that header name |
| CsvMapping.SkippedExactlyWhen | packages/pipelines/configured_csv_ingestion.py:204-212 | a row is skipped exactly when no last cell of a name has text |
| CsvMapping.KeptAreNonBlank | packages/pipelines/configured_csv_ingestion.py:204-206 | no blank row is mapped, so mapping never yields more rows than there are non-blank ones |
| CsvMapping.KeptIsNonBlank | packages/pipelines/configured_csv_ingestion.py:204-212 | with different header names exactly the non-blank rows are mapped |
| CsvMapping.MappedOutputHasOnlyCellIssues | packages/pipelines/csv_validation.py:56-157 | mapped output checked against its own contract is faulted only for what is in its cells, exactly when no two stripped names collide and required names, or all names of a closed contract, have nothing to strip |
| CsvMapping.MisfitIsReported | packages/pipelines/csv_validation.py:74-106 | any other contract makes every mapped file fail on its header |
| CsvMapping.MapAndValidate | packages/pipelines/configured_csv_ingestion.py:244-277 | the chain reports nothing but cell issues exactly when the names fit, validates no more rows than the source has non-blank ones, and its verdict is that of the rules' images |
| ConfigPreflight.CheckMapping | packages/pipelines/config_preflight.py:251-354 | exactly the issues of a mapping, each as often as it occurs |
| ConfigPreflight.CheckAsset | packages/pipelines/config_preflight.py:357-448 | exactly the issues of a source asset |
| ConfigPreflight.CheckPublication | packages/pipelines/config_preflight.py:451-507 | exactly the issues of a publication definition |
| ConfigPreflight.CheckDefinition | packages/pipelines/config_preflight.py:510-598 | exactly the issues of an ingestion definition |
| ConfigPreflight.MappingProblemsMean | packages/pipelines/config_preflight.py:294-354 | unknown targets, unmapped required columns and unusable functions, each exactly when some rule or column is at fault |
| ConfigPreflight.PublicationProblemsMean | packages/pipelines/config_preflight.py:451-507 | each problem of a publication by its own condition: an unknown key is unsupported too, an extension's key never is |
| ConfigPreflight.DefinitionProblemsMean | packages/pipelines/config_preflight.py:510-598 | each problem of a definition by its own condition; without a listed asset there is only that one |
| ConfigPreflight.Scoped | packages/pipelines/config_preflight.py:92-152 | the entities a scope selects |
| ConfigPreflight.EverythingIsInTheFullScope | packages/pipelines/config_preflight.py:92-152 | without a scope every listed entity is checked |
| ConfigPreflight.AssetScopeIs | packages/pipelines/config_preflight.py:92-228 | the scope of an asset |
| ConfigPreflight.DefinitionScopeIs | packages/pipelines/config_preflight.py:92-248 | the scope of a definition |
| ConfigPreflight.Run | packages/pipelines/config_preflight.py:55-200 | the report holds exactly the issues of the entities in scope, each as often as it occurs; the scope errors are exact |
| ConfigPreflight.ScopingOnlyHides | packages/pipelines/config_preflight.py:92-200 | a scoped report is the full one cut down to its scope, hence a sub-multiset; a full pass is a pass in every scope |
| ConfigPreflight.PassingIsClean | packages/pipelines/config_preflight.py:180-200 | a check passes exactly when no entity in scope has an issue |
| ConfigPreflight.CleanMappings | packages/pipelines/config_preflight.py:294-354 | a mapping has no issue exactly when its contract and system exist, its targets are columns, required columns have rules and non-empty function keys are usable |
| ConfigPreflight.CleanAssets | packages/pipelines/configured_csv_ingestion.py:118-143 | an asset and its mapping are free of issues exactly when the binding check can refuse them only for a disabled system, the rules fit the contract and the package is listed |
| ConfigPreflight.CleanPublications | packages/pipelines/config_preflight.py:451-507 | a publication has no issue exactly when its package is listed and its key is known and supported |
| ConfigPreflight.RefusalsAreAnnounced | packages/pipelines/configured_csv_ingestion.py:118-143 | each refusal of the binding check, except that of a disabled system, is announced by the problem of its own kind |
| ConfigPreflight.UnusableFunctionsExactlyWhenEmptyKey | packages/pipelines/configured_csv_ingestion.py:223-228 | for rules the preflight accepts, the mapper meets an unusable function exactly when an effective rule has the empty key, which the preflight skips |
| ConfigPreflight.EmptyKeyPassesAndFails | packages/pipelines/config_preflight.py:334-336 | a rule set the preflight accepts and the mapper fails on |
| ConfigPreflight.IngestChecked | packages/pipelines/configured_csv_ingestion.py:74-100 | ingestion of any asset in the scope of a passed check binds, its rules fit the contract, and mapping fails only for a too wide row, a raising function or the empty key |
| ConfigPreflight.CleanDefinitionsStartExactlyWhen | packages/pipelines/configured_ingestion_definition.py:48-162 | a passed, enabled definition starts exactly for `filesystem`, CSV over HTTP, or HTTPS with a URL and CSV or no format; its transport is its system's |
| ConfigPreflight.StartRefusalsAreAnnounced | packages/pipelines/configured_ingestion_definition.py:48-162 | so are the refusals at the start of a definition that the preflight checks for |
| ConfigPreflight.PassedDefinitionMayBeRefused | packages/pipelines/configured_ingestion_definition.py:165-168 | a catalog the preflight passes whose definition is refused when it starts |
| PackLifecycles.CommandsAreFramed | packages/adapters/lifecycle.py:90-197 | a lifecycle command concerns its own key only |
| PackLifecycles.RunsDecomposeByKey | packages/adapters/lifecycle.py:90-197 | after any commands each pack is where its own commands alone lead |
| PackLifecycles.UpgradesParkThePredecessor | packages/adapters/lifecycle.py:131-167 | after upgrades p1..pn the pack just before pn is parked and the active flag is kept |
| PackLifecycles.EvenRollbacksAreIdentity | packages/adapters/lifecycle.py:169-197 | two rollbacks in a row are the identity on the whole state; odd numbers swap |
| PackLifecycles.RollbacksAfterUpgrades | packages/adapters/lifecycle.py:131-197 | after n >= 1 upgrades odd numbers of rollbacks restore the pack before the last, even ones the last |
| PackLifecycles.PackLifecycle.InstallPack | packages/adapters/lifecycle.py:90-96 | refines the per-key machine; an illegal call changes nothing |
| PackLifecycles.PackLifecycle.UninstallPack | packages/adapters/lifecycle.py:98-109 | refines the per-key machine and drops the parked pack |
| PackLifecycles.PackLifecycle.ActivatePack | packages/adapters/lifecycle.py:111-121 | refines the per-key machine |
| PackLifecycles.PackLifecycle.DeactivatePack | packages/adapters/lifecycle.py:123-129 | refines the per-key machine |
| PackLifecycles.PackLifecycle.UpgradePack | packages/adapters/lifecycle.py:131-167 | refines the per-key machine: a rejected upgrade changes nothing, an accepted one keeps the active flag and parks the old pack; no nested registry call raises |
| PackLifecycles.PackLifecycle.RollbackPack | packages/adapters/lifecycle.py:169-197 | refines the per-key machine and returns the parked pack |
| AdapterRegistries.AdapterRegistry.Register | packages/adapters/registry.py:31-51 | both maps keep the same keys; a duplicate changes nothing |
| AdapterRegistries.AdapterRegistry.Unregister | packages/adapters/registry.py:150-168 | both maps lose the key together |
| AdapterRegistries.AdapterRegistry.ListPacks | packages/adapters/registry.py:91-114 | exactly the registered, or active, packs, once each, by ascending key |
| PackCompatibility.ParseVersion | packages/adapters/pack_compatibility.py:34-45 | the release numbers of a version, non-numbers as zero |
| PackCompatibility.SuffixesDoNotMatter | packages/adapters/pack_compatibility.py:34-36 | build metadata and pre-release suffixes do not matter |
| PackCompatibility.BeforeMeans | packages/adapters/pack_compatibility.py:61-101 | the first different number decides, and a version is before its own continuations |
| PackCompatibility.SatisfiesConstraint | packages/adapters/pack_compatibility.py:61-101 | accepts exactly when every non-blank clause holds in tuple order |
| PackCompatibility.ClauseMeans | packages/adapters/pack_compatibility.py:76-101 | what a clause with each comparator asks of a version |
| PackCompatibility.AcceptedVersionsAreConvex | packages/adapters/pack_compatibility.py:61-101 | what lies between two accepted versions is accepted |
| PackCompatibility.CommaIsConjunction | packages/adapters/pack_compatibility.py:61-101 | joining two constraints with a comma is their conjunction, blank ones included |
| PackCompatibility.DependencySplitsExactlyWhen | packages/adapters/pack_compatibility.py:51-58 | key and constraint are split correctly exactly when no comparator earlier in the list occurs in the constraint |
| PackCompatibility.TwoClausesSplitLate | packages/adapters/pack_compatibility.py:51-58 | a dependency with two clauses that is split in the wrong place |
| PackCompatibility.NothingBeforeTheComparator | packages/adapters/pack_compatibility.py:51-58 | a comparator with no key before it does not split |
| PackCompatibility.Checker.Check | packages/adapters/pack_compatibility.py:131-165 | compatible exactly when the platform and every dependency satisfy the pack; each issue names exactly its failed constraint; unknown publications are only warned about |
| EntityCorrelation.StoredIsLastMostTrusted | packages/adapters/entity_correlation.py:48-67 | after any registrations a key holds the last one registered among the most trusted for it |
| EntityCorrelation.StoredKeys | packages/adapters/entity_correlation.py:48-67 | a key is stored exactly when it was ever registered |
| EntityCorrelation.RankNeverFalls | packages/adapters/entity_correlation.py:48-67 | the stored trust rank of a key never decreases |
| EntityCorrelation.EntityCorrelationRegistry.RegisterAlias | packages/adapters/entity_correlation.py:48-67 | the new map, its other keys framed, and what is returned |
| EntityCorrelation.EntityCorrelationRegistry.AliasesFor | packages/adapters/entity_correlation.py:82-93 | lists, sorted and once each, exactly the aliases whose key resolves to the id |
| RendererNegotiation.ParsePart | packages/adapters/renderer_negotiation.py:71-92 | one Accept part: its offer, no offer, or the index error of a part without segments |
| RendererNegotiation.WrittenOffers | packages/adapters/renderer_negotiation.py:71-92 | an offer as a client writes it has the quality its last q parameter says, 1 without one or when it is no number, and the format of its media type in any case |
| RendererNegotiation.FormatsAre | packages/adapters/renderer_negotiation.py:16-28 | which media types and wildcards give which format |
| RendererNegotiation.SemicolonIsMalformed | packages/adapters/renderer_negotiation.py:76-77 | a part of one semicolon raises |
| RendererNegotiation.ParseAcceptHeader | packages/adapters/renderer_negotiation.py:63-95 | exactly the offers with positive quality, once each, by descending quality and then position |
| RendererNegotiation.FirstIsBest | packages/adapters/renderer_negotiation.py:106-119 | the first recognised entry is of greatest quality, and the earliest at that quality |
| RendererNegotiation.ResolveFormat | packages/adapters/renderer_negotiation.py:98-119 | the best recognised offer is chosen, nothing is chosen exactly when none is recognised, and a malformed part raises |
| RendererRouters.RendererRouter.PackIsActive | packages/adapters/renderer_router.py:68-103 | whether the first pack in key order that declares the renderer is active |
| RendererRouters.RendererRouter.Resolve | packages/adapters/renderer_router.py:46-103 | exactly the subsequence of eligible renderers, in router order |
| RendererRouters.RendererRouter.EligibleExactlyWhen | packages/adapters/renderer_router.py:46-103 | a renderer is eligible exactly when it serves the format and publication and the first pack to declare it is active |
| RendererRouters.RendererRouter.Negotiate | packages/adapters/renderer_router.py:134-191 | the routable renderers serving format, publication and version, in order; a failure is reported exactly when nothing is chosen, and which one tells whether a format, any renderer or one for the version was missing |
| RendererRouters.SelectedTwice | packages/adapters/renderer_router.py:152-191 | filtering by version after resolving is resolving with the version |
| PackLifecycles.TwoRollbacksAreIdentity | packages/adapters/lifecycle.py:169-197 | on the whole state two rollbacks of one pack in a row change nothing |
| CanonicalPromotion.RunCanonicalPromotion | packages/pipelines/promotion_registry.py:110-157 | one attempt, dying anywhere or not: the warehouse after it, each outcome and skip reason exactly when it applies, and as `facts_loaded` the rows of the run |
| CanonicalPromotion.ReachingLoadsAndRefreshes | packages/pipelines/promotion_registry.py:110-157 | an attempt that reaches the load appends the run's tagged rows unless some are there, and recomputes the marts it gets to |
| CanonicalPromotion.TransformationService.RefreshPublications | packages/pipelines/promotion_registry.py:139-151 | every named mart is computed from the current facts, others are untouched |
| CanonicalPromotion.FactsAreFirstLoads | packages/pipelines/promotion_registry.py:110-157 | after any attempts a domain holds the rows of each run that reached its load, one block per run in first-load order, and nothing else |
| CanonicalPromotion.ExactlyOnce | packages/pipelines/promotion_registry.py:110-157 | a run's rows are there once if some attempt of it reached the load, else not at all |
| CanonicalPromotion.FactsAreAccountedFor | packages/pipelines/promotion_registry.py:110-157 | the reports and what attempts that died had sent add up to the rows of the runs that reached the load, each run counted once, and to the number of facts |
| CanonicalPromotion.ReportsAddUp | packages/pipelines/promotion_registry.py:110-157 | without deaths the reported `facts_loaded` alone add up to the number of facts |
| CanonicalPromotion.MartsFollowFacts | packages/pipelines/promotion_registry.py:139-151 | unless an attempt died while refreshing, a handler's marts show its domain's current facts, whatever other handlers do in between |
| CanonicalPromotion.RetryMakesGood | packages/pipelines/promotion_registry.py:110-157 | a retry after a death anywhere gives the warehouse a clean promotion would have given, all marts of the handler current |
| ContributingSources.RunResolver.Get | packages/pipelines/publication_confidence_service.py:110-118 | the cached lookup answers as the store does |
| ContributingSources.AttributionMeans | packages/pipelines/publication_confidence_service.py:151-197 | a record speaks for the asset last named for its run, else the declared system, else the run's source name, else for nothing |
| ContributingSources.ResolveContributingSources | packages/pipelines/publication_confidence_service.py:173-206 | the sources are the last attributable record per key, with `declared` sticky, in order of first appearance |
| ContributingSources.ResolutionIsUnique | packages/pipelines/publication_confidence_service.py:173-206 | the evidence determines the contributing sources, order included |
| ContributingSources.AttributedLineageNeedsNoMetadata | packages/pipelines/publication_confidence_service.py:185-197 | hidden run metadata leaves the sources as they are when every record has an asset or a declared system |
| PublicationConfidence.FindLaterFailures | packages/pipelines/publication_confidence_service.py:120-148 | exactly the later failed landings of the dataset |
| PublicationConfidence.ValidationFlags | packages/pipelines/publication_confidence_service.py:209-241 | the error, rejection and unknown counts; the error count is missing exactly when no run was inspected |
| PublicationConfidence.Completeness | packages/pipelines/publication_confidence_service.py:244-264 | covered and unknown counts, their sum within the expected, and a percentage in 0..100 that is 100 exactly when there is a source and all are covered |
| PublicationConfidence.CompletenessBounds | packages/pipelines/publication_confidence_service.py:244-264 | the same bounds for every source map |
| PublicationConfidence.HidingLowersCompleteness | packages/pipelines/publication_confidence_service.py:244-264 | hiding runs never raises the percentage or lowers the unknown count |
| PublicationConfidence.FlaggedExactlyWhenUnclean | packages/pipelines/publication_confidence_service.py:209-241 | all flags are zero exactly when every source's run is known, clean and not followed by a failed landing |
| PublicationConfidence.CleanExactlyWhenKnownAndNotFlawed | packages/pipelines/publication_confidence_service.py:209-241 | a source counts as clean exactly when its run is known, passed, without issues, and no later landing of its data failed |
| PublicationConfidence.EvaluateFreshness | packages/pipelines/publication_confidence_service.py:326-382 | parse-failed exactly for a configured source with a rejected or failed run; a scheduled one is else current exactly when its run is known, succeeded and covers the period, whatever the window, and otherwise due soon or overdue by the window |
| PublicationConfidence.StatesMean | packages/platform/source_freshness.py:165-262 | exactly one state means what is true of a source |
| PublicationConfidence.CurrentWithoutRunExactlyWhen | packages/pipelines/publication_confidence_service.py:351-375 | without its run a source reads current exactly when its config is ad hoc, or it has none and lineage declares it |
| PublicationConfidence.AssessPublication | packages/pipelines/publication_confidence_service.py:326-402 | from contributing sources to the verdict: trustworthy, unreliable and unavailable exactly when the sources, their runs and the window say so, degraded otherwise |
| PublicationConfidence.UnavailableStaysUnavailable | packages/platform/publication_confidence.py:223-227 | hiding runs neither makes a publication unavailable nor available |
| PublicationConfidence.UnavailableExactlyWhen | packages/platform/publication_confidence.py:223-227 | unavailable exactly when no source is configured |
| PublicationConfidence.TrustworthyExactlyWhen | packages/platform/publication_confidence.py:200-253 | trustworthy exactly when there is a source and every source is current, has a known run that passed with rows, no issues and no later failed landing |
| PublicationConfidence.ThresholdIsUnderHalfExceptForRounding | packages/platform/publication_confidence.py:189-197 | the 50% test is the documented "under half even counting unknown sources" except exactly where rounding the percentage crosses it |
| PublicationConfidence.RoundingCrossesTheThreshold | packages/platform/publication_confidence.py:189-253 | six sources of which one is covered and overdue and two are unknown: unreliable though half may be covered |
| PublicationConfidence.HidingNeverMakesTrustworthy | packages/platform/publication_confidence.py:200-253 | hidden contributing runs never make a publication trustworthy |
| PublicationConfidence.UnreliableExactlyWhen | packages/platform/publication_confidence.py:200-253 | unreliable exactly when some source is configured, some source is overdue or has a known run that is not clean, and too few can be covered |
| PublicationConfidence.HidingUpgradesExactlyWhenUnreliable | packages/platform/publication_confidence.py:200-253 | some hiding upgrades the verdict exactly when the sources are like that, and then to degraded |
| PublicationConfidence.HiddenFailureUpgrades | packages/platform/publication_confidence.py:200-253 | a publication whose failed run, once forgotten, reads degraded instead of unreliable |
| InboxProcessing.FileSystem.ProcessFolder | packages/pipelines/configured_ingestion_definition.py:102-137 | unless destinations meet, every file before the first that raises stands with its content in the directory of its verdict, or that directory's default, as run id, "-", name; all others are where they were; the report counts the passed, the rejected and the run ids; fresh run ids lose no file |
| InboxProcessing.FilesAreDelivered | packages/pipelines/configured_ingestion_definition.py:102-137 | the same of the loop as specified: no file lost means each is delivered as its run and verdict say |
| InboxProcessing.NothingIsLostExactlyWhenDestinationsAreFree | packages/pipelines/configured_ingestion_definition.py:107-129 | no file is lost exactly when no destination is any file's place when its turn comes; then every file is at its destination or where it was, with its content |
| InboxProcessing.FreeExactlyWhenDifferentAndNew | packages/pipelines/configured_ingestion_definition.py:123-129 | with output directories other than the inbox that means pairwise different destinations where no file was before |
| InboxProcessing.NoFileIsLost | packages/pipelines/configured_ingestion_definition.py:107-129 | with fresh run ids of one length no file is lost or overwritten: those before a raising one are in their output directory under their run, all others where they were; discovered = processed + rejected = number of run ids on normal return |
| InboxProcessing.DestinationIsFree | packages/pipelines/configured_ingestion_definition.py:123-129 | a destination is nobody else's place |
| InboxProcessing.NextCallFindsTheRest | packages/pipelines/configured_ingestion_definition.py:107-129 | with output directories other than the inbox the next call finds nothing after a normal return, else exactly the files from the one that raised on |
| InboxProcessing.VaryingRunIdsLoseAFile | packages/pipelines/configured_ingestion_definition.py:123-129 | the run ids "a" and "a-b" can make two destinations meet |
| OperationalStatistics.WithRunSummarizes | apps/api/runtime_state.py:61-96 | one more run keeps counts exact and marks latest |
| OperationalStatistics.WithDispatchSummarizes | apps/api/runtime_state.py:99-127 | the same for dispatches, per status |
| OperationalStatistics.LatestGrows | apps/api/runtime_state.py:47-58 | a later or equal time takes the mark, so the mark is the last of the latest |
| OperationalStatistics.RunSummaryMeans | apps/api/runtime_state.py:61-96 | what run statistics say: the number of runs and of failed ones, and the last of the latest runs, successes and failures |
| OperationalStatistics.DispatchSummaryMeans | apps/api/runtime_state.py:99-127 | the same for dispatches, a failed one counted at its completion |
| OperationalStatistics.RunsOfMeans | apps/api/runtime_state.py:195-241 | an entity's runs are those whose context names it, in order |
| OperationalStatistics.OperationalStats.UpdateRun | apps/api/runtime_state.py:61-96 | the dictionary after one run |
| OperationalStatistics.OperationalStats.UpdateDispatch | apps/api/runtime_state.py:99-127 | the dictionary after one dispatch |
| OperationalStatistics.OperationalStats.FoldRuns | apps/api/runtime_state.py:195-241 | after all runs: exact counts, latest run by (created_at, position), latest success and failure |
| OperationalStatistics.OperationalStats.FoldDispatches | apps/api/runtime_state.py:252-260 | after all dispatches: exact counts per status and latest marks |
| OperationalStatistics.LastRunIsLastSuccessOrFailure | apps/api/runtime_state.py:61-96 | the last run shown is the last success or the last failure shown |
| OperationalStatistics.OperationalSummary.Build | apps/api/runtime_state.py:195-241 | the statistics of each asset, contract, mapping, definition and schedule are those of its own runs, and unlisted entities appear with their first run |

## Left out

- DispatchWorker.ControlPlane.ClaimNext: which rows other transactions have locked is a parameter of each iteration, as is what processing comes to.
- DispatchWorker.Watcher.Watch: heartbeats, metrics and logs are not modelled; database exceptions and the worker's crash are steps of the protocol, not of the loop.
- LeaseTiming.TimelyHoldersAreSecure: one lease length and one set of delays for all workers; errors of the heartbeat or the database in a processing worker's renewer are excluded, its rejected renewals are not.
- ReportingSnapshots.PublicationSnapshotStore.Write: the table is a sequence of rows; SQL text, transactions and PostgreSQL collation are not modelled.
- ReportingSnapshots.DecodedRowsEncodeBack: JSON text is not modelled, only values, and of these neither floats nor nested arrays and objects.
- LeaseTakeOver.ExpiryBreaksExclusion: meanwhile no other transaction holds locks, no schedule falls due and no limit on recoveries is set.
- ReferenceMonths.FollowsCalendarExactlyWhenAscii: which characters are digits, and the values of decimals, is a parameter that agrees with ASCII.
- CsvMapping.MapColumns: the CSV library and dialect detection are not modelled; files are sequences of records, and the mapped file reads back as it was written.
- CsvValidation.ValidateCsv: which texts are integers, decimals and dates is a parameter; messages are not modelled, nor is the order of issues.
- ConfigPreflight.Run: the order of issues in the report and the `checked` counts are not modelled; records are tables by primary key.
- ConfigPreflight.CleanDefinitionsStartExactlyWhen: secrets of request headers and the request itself are not modelled.
- PackCompatibility.ParseVersion: integers are recognised on ASCII digits only, with the underscores Python allows.
- PackLifecycles.PackLifecycle.UpgradePack: calls that change the registry behind the lifecycle's back are not modelled, nor are locks.
- RendererNegotiation.ParseAcceptHeader: the parsing of quality values is a parameter that yields finite numbers; lower case is ASCII only.
- RendererRouters.RendererRouter.Negotiate: rendering itself and the error texts are not modelled.
- CanonicalPromotion.RunCanonicalPromotion: the load of a run's rows is one atomic append, and two concurrent promotions of one run are not modelled; a mart is represented by the facts it was computed from.
- PublicationConfidence.AssessPublication: the recorded snapshot, its freshness state and the count of sources that default to current are not modelled.
- PublicationConfidence.EvaluateFreshness: the calendar is a parameter: whether a landing covers the expected period and whether the grace window is open; coverage gaps need several runs and do not occur here.
- PublicationConfidence.ThresholdIsUnderHalfExceptForRounding: over real numbers, without floating-point rounding.
- InboxProcessing.FileSystem.ProcessFolder: file patterns that descend into sub-directories, path aliases and directories named like files are not modelled.
- OperationalStatistics.OperationalSummary.Build: entries are values in a dictionary, not shared objects; the per-entity dictionaries are one, keyed by kind and id.
- SnapshotProjection.ProjectSnapshotRows: the column order inside a row is not modelled.
- `preview_mapped_csv`'s rows, `render_all`, `all_aliases` and the small registries: settled by reading one body.
- HTTP pulls, schedules and cron, the manual mark command, the API routes, Home Assistant and Prometheus adapters: not part of this model.
