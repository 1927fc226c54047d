# Project delivery backend: verified model

The repository is a backend that turns contracts into delivery projects. This project models the parts of it
that are protocols or algorithms in their own right, and proves what they keep over every run and every input:

- **Background schedules**. Three durable schedules are paused, drained, migrated to another build and
  configuration, restored and resumed by competing operations. Each update is atomic, the three together are not.
  - `schedule.dfy`, `schedule_effects.dfy`, `schedule_runs.dfy`: the four updates of one schedule, exactly when each is
    accepted and what it changes, and the theorems over any sequences of them.
  - `runtime.dfy`: calls over all three schedules that nobody disturbs, with an outage after any prefix.
  - `control.dfy`, `control_quiet.dfy`: one call as the remote operations it is made of, with other processes' updates
    between any two of them; the runtime object makes its calls through this machine, and an undisturbed one has the
    outcome of `runtime.dfy`.
  - `interleaving.dfy`, `interleaving_owner.dfy`, `interleaving_runs.dfy`, `interleaving_split.dfy`,
    `interleaving_rollback.dfy`, `interleaving_retry.dfy`: calls of any number of processes interleaved operation by
    operation: which guarantees survive, exactly when single ownership does and how it is lost, and what a rollback
    and a retry achieve while other calls go on.
  - `admission.dfy`, `admission_effects.dfy`: the admission of activities against pause, drain and legacy control.
- **Project snapshot** (`snapshot.dfy`, `snapshot_effects.dfy`, `project_status.dfy`, `projection.dfy`,
  `status_effects.dfy`). A stream that always keeps room for its own end record and takes only its own tenant's
  projects, and the three folds that derive a project's status, report stage and progress.
- **Audit** (`audit_buffer.dfy`, `audit_effects.dfy`, `outbox.dfy`, `outbox_effects.dfy`). A response writer that holds an answer back until its audit
  record is written, and the lease-based queue that delivers audit records.
- **Delivery effects** (`recipients.dfy`, `messages.dfy`, `effects.dfy`). Recipients read page by page from a
  directory that may contradict itself, batching, and the dispatcher.
- **Contract scope** (`split_grouping.dfy`, `split_effects.dfy`, `scope_gate.dfy`, `scope_runs.dfy`,
  `scope_effects.dfy`, `contract_search.dfy`). Merging a contract's list into service items, the fingerprints that keep a decomposition in step with its contract, and
  the cursor search over a directory that is filtered after it is paged.
- **Resources** (`equipment.dfy`, `equipment_exact.dfy`, `equipment_effects.dfy`, `resource_ids.dfy`,
  `import_hash.dfy`). The reservation ledger, the numbering of people and equipment, and the in-place compaction behind an import's fingerprint.
- `text.dfy` and `sorting.dfy` hold the library operations the above rest on.

Code that updates state in place is modelled as classes, arrays and loops, each proved against a function or a
predicate over values; the theorems over runs are lemmas about those. The `*_effects.dfy` files say what each step does
and exactly when it is taken in terms of the states before and after alone, so that the theorems over runs are about
steps that take place. A caller's context, clock, network answer or
library verdict is a parameter. `dafny verify dfyconfig.toml` checks everything.

## Findings

Where the code does not do what its comments or its purpose suggest, the model follows the code, a lemma gives an
input, and another says exactly when the property does hold.

- `Equipment.GateMissesLateEnd`, `Equipment.ListingExactness`: the reservation listing expands a blank window with
  UTC dates, the gate and the index use Beijing days. For a plan that ends at or after 16:00 UTC the gate does not
  see the last day; only the index refuses the double booking. (The comment above the overlap check also calls
  the interval half-open; the code compares closed intervals.)
- `InterleavedSplit.SlippedPauseSplits`, `InterleavedOwnership.SplitIsForever`: a call checks all schedules and then
  updates them one by one without a lock. A pause that passed its checks can take the first schedule after another
  operation's resume broke off there; from then on two operations hold schedules and every call of anybody is refused.
  `InterleavedOwnership.AlwaysSingleIff` says exactly when that happens, and `PlayKeepsSingleOwner` that keeping
  resumes and pauses apart is enough: overlapping pauses alone never split the schedules.
- `InterleavedSplit.SuccessfulResumeLeavesHeld`: for the same reason a resume can succeed while the first schedule is
  held again. `InterleavedRuns.InterleavedRestoration`: in the end a schedule is restored exactly when no pause took it
  since its update without a resume giving it back. `InterleavedRuns.UnpausedRestoration`: keeping pauses away from the
  resume is enough.
- `ScopeRuns.StaleAdjustmentReopens`, `ScopeRuns.ExitMeetsBaselineIff`: leaving the supplement branch is decided by
  the newest adjustment, the scope check by the newest event that carries a scope. An adjustment older than the
  closure that replaced it still opens the way out, so a refused confirmation succeeds when repeated.
- `ScopeRuns.OldBaselineIsForgotten`, `ScopeRuns.OldSwitchIsForgotten`: the application lists the newest 500 events.
  The scope check passes a drifted project once the baseline or the detection switch is older than that.
  `ScopeRuns.WindowDecidesIff` and `ScopeRuns.WindowHarmlessIff` say exactly when the window changes the verdict.
- `ScopeGate.DetectionDependsOnOrder`: the comment says the switch of the newest activation is read; the code reads
  the first activation of the list. `ScopeGate.RightSwitchIff`: that is right, whatever the switches say, iff the
  first activation is the newest; newest-first lists are of that kind.
- `SplitGrouping.OutcomesAgreeIff`: under a plan that does not group by both category and test mode (the default is
  batch and category), one item can keep the outcome of its first line while other lines resolve differently.
- `SplitGrouping.SeparatorHidesAnId`, `SplitGrouping.MembersCanBeReadBack`: merged identifiers can be read back
  exactly when none contains the separator; otherwise one can vanish.
- `AuditBuffers.LateHeadersAreDelivered`, `AuditBuffers.EarlierHeaderSurvivesDeletion`: buffering delivers headers
  changed after the first write, and cannot add to or delete a header an earlier handler set;
  `AuditBuffers.OverlayIsDirectIff` says exactly which handlers that concerns.
- `AuditBuffers.UnbufferedRefusal`, `AuditBuffers.PastTheLimitNothingIsWithdrawn`: what a failed report can no
  longer withdraw.

## Model

| member | source | states |
|---|---|---|
| ScheduleRuns.StepKeepsBaseline | internal/background/schedules.go:129-199 | one update keeps the operator's own pause and note, seen through the stored record, except that an accepted resume settles a bootstrap pause |
| ScheduleRuns.RunKeepsBaseline | internal/background/schedules.go:129-199 | over any run of any operations that pause and note change at most by settling a bootstrap pause, and not at all without a resume |
| ScheduleRuns.ResumeRestoresOriginal | internal/background/schedules.go:178-199 | whatever happened since, an accepted resume leaves the pause and note of before the first pause; bootstrap pauses become active |
| ScheduleRuns.StepRespectsOwner | internal/background/schedules.go:201-243 | on a controlled schedule a foreign operation is refused unchanged, a record's origin never changes, a bound candidate is never rebound, a restoring record refuses ensure |
| ScheduleRuns.RunRespectsOwner | internal/background/schedules.go:201-243 | until its own resume a record survives any run: paused, same origin, candidate bound at most once |
| ScheduleRuns.CreatedIsReachable | internal/background/schedules.go:79-100 | a schedule created by reconcile satisfies the invariant of all reachable schedules |
| ScheduleRuns.StepKeepsReachable | internal/background/schedule_migration.go:121-196 | every update keeps that invariant: valid live configuration, memo naming it as target, record in one of three phases |
| ScheduleRuns.RunKeepsReachable | internal/background/schedule_migration.go:121-196 | so does every run |
| ScheduleRuns.ControlledIsObservable | internal/background/schedule_migration.go:61-80 | a controlled schedule runs its original, target or previous configuration, and every valid process of the identity still recognises it |
| ScheduleRuns.ControlledAcceptance | internal/background/schedule_migration.go:81-120 | exactly which process may pause, ensure, restore or resume a controlled schedule, in terms of its record alone |
| ScheduleRuns.UncontrolledAcceptance | internal/background/schedules.go:201-243 | exactly which process may pause or resume a free schedule: its configuration, and after a migration its build; migrations need a record |
| ScheduleRuns.RestoreThenResume | internal/background/schedule_migration.go:152-196 | a process the record names as original or previous can always restore and then resume, getting its own configuration back |
| ScheduleRuns.RollbackRoundTrip | internal/background/schedule_migration.go:152-196 | pause by the old build, then any steps short of resuming it: restore and resume still succeed and give back configuration, pause and note |
| ScheduleRuns.UpgradeCompletes | internal/background/schedule_migration.go:121-196 | pause, ensure and resume hand the schedule to the new build, whose memo remembers the old one |
| ScheduleRuns.LateRollback | internal/background/schedules.go:164-176 | after the upgrade resumed, and any pauses and resumes of any operations since, a later operation pauses: the old build then restores and resumes its configuration |
| ScheduleEffects.PauseAcceptedIff | internal/background/schedules.go:201-243 | a pause is accepted iff the schedule is recognised and either held by this operation, or free, running what the process wants, with no memo or one that says it runs this build |
| ScheduleEffects.ResumeAcceptedIff | internal/background/schedules.go:201-243 | exactly which process may resume, field by field: the configuration, the bound candidate, the owner of a restore |
| ScheduleEffects.MigrationAcceptedIff | internal/background/schedule_migration.go:81-120 | exactly which process may ensure or restore, field by field of the record |
| ScheduleEffects.ObservedIff | internal/background/schedule_migration.go:61-80 | exactly which schedules a process recognises as its own: identity, standard options, and a configuration the record knows within a process's bounds |
| ScheduleEffects.PauseAndResumeTouchOnly | internal/background/schedules.go:159-199 | an accepted pause or resume changes nothing of the schedule but its pause and its note; in particular the memo of a migration stays |
| ScheduleEffects.FirstPauseRecords | internal/background/schedules.go:159-176 | the record of a first pause holds the operator's pause and note, the running build and configuration, and those of before the last migration |
| ScheduleEffects.MigrationRemembers | internal/background/schedule_migration.go:152-196 | the memo of a migration says who runs now and who ran before |
| ControlMachine.Runtime.Reconcile | internal/background/schedules.go:79-100 | creates exactly the missing schedules paused, changes no existing one, and succeeds iff every existing one is recognised |
| ControlMachine.Runtime.ChangePause | internal/background/schedules.go:129-199 | three reads that check, then three updates that check again, with any updates of other processes between any two operations and an outage after any of them; a failed check ends the call where it is |
| ControlMachine.Runtime.MigrateSchedules | internal/background/schedule_migration.go:121-196 | the same for ensure and restore, with the second look at the records, the drain in between, and the shortcut when nothing is controlled |
| ControlMachine.Runtime.Control | internal/background/control.go:89-144 | one request of any kind: its durable effect, exactly when it reports success, and that the process is blocked after a pause or drain, open after a resume whose updates all went through, and otherwise as before; inspect, verify, an unrouted resume and a malformed request change no schedule |
| QuietCalls.QuietCall | internal/background/schedules.go:129-199 | a call whose operations nobody disturbs has exactly the outcome the theorems about undisturbed calls speak of |
| ControlMachine.DisturbedIsRun | internal/background/schedules.go:129-199 | what other processes do between two operations of a call is, on each schedule, a run of their atomic updates |
| ControlCalls.ChangeMeansAcceptance | internal/background/schedules.go:129-145 | an undisturbed call that changes any schedule had every schedule accept its update: all three are validated before any is changed |
| ControlCalls.MigrationCheckIff | internal/background/schedule_migration.go:81-120 | the check of a migration passes iff a held schedule accepts it; a free one, iff it already runs the caller's configuration and was restored to it by this operation |
| Interleavings.PlayRefinesSteps | internal/background/schedules.go:129-199 | however the operations of any calls of any processes interleave, each schedule sees a run of accepted atomic updates |
| Interleavings.PlayKeepsReachable | internal/background/schedule_migration.go:121-196 | so the invariant of reachable schedules holds under every interleaving |
| Interleavings.HeldStaysHeld | internal/background/schedules.go:201-243 | until a call of its own operation resumes it, a held schedule stays held and paused whatever calls overlap |
| Interleavings.CheckPassesIff | internal/background/schedules.go:129-145 | under any interleaving, the check of a pause or resume passes iff the schedule would then accept the update, and changes nothing |
| Interleavings.UpdatePassesIff | internal/background/schedules.go:146-199 | an update goes on iff its schedule accepts it at that moment, and changes that schedule alone |
| InterleavedOwnership.UpdateKeepsSingleOwnerIff | internal/background/schedules.go:146-199 | an accepted update keeps a single owner iff it is no pause beside another operation's hold |
| InterleavedOwnership.AlwaysSingleIff | internal/background/schedules.go:129-199 | over any interleaving there is a single owner throughout iff no pause ever takes a schedule while another operation holds one |
| InterleavedOwnership.PlayKeepsSingleOwner | internal/background/schedules.go:129-199 | as long as no resume updates while a pause is under way, no interleaving of any calls lets two operations hold schedules at once |
| InterleavedOwnership.ForeignCallsChangeNothing | internal/background/schedules.go:129-145 | while an operation holds a schedule, calls of others begun from then on change nothing, interleaved as they may |
| InterleavedOwnership.SplitIsForever | internal/background/schedules.go:129-145 | once two operations hold schedules, no call of anybody ever changes one again |
| InterleavedSplit.SlippedPauseSplits | internal/background/schedules.go:129-199 | from any free schedules, an interleaving of three calls after which two operations hold schedules |
| InterleavedSplit.SuccessfulResumeLeavesHeld | internal/background/schedules.go:129-199 | from any free schedules, an interleaving in which a resume succeeds and the first schedule is held by another operation |
| InterleavedRuns.PastUpdateWasApplied | internal/background/schedules.go:146-199 | a call that is past a schedule updated it, accepted, at one moment of its own |
| InterleavedRuns.PastCheckWasAccepted | internal/background/schedules.go:129-145 | a pause or resume that is past its checks had each schedule accept it at one moment since it began |
| InterleavedRuns.InterleavedRestoration | internal/background/schedules.go:129-199 | when a resume succeeds, every schedule went back to the operator's original pause and note at its own update; from then on these are never lost, the schedule shows them iff it is free, and in the end it is free iff no pause took it since without a resume giving it back |
| InterleavedRuns.UnpausedRestoration | internal/background/schedules.go:129-199 | if no pause is under way when the resume begins and none is begun until it succeeds, every schedule is then free and as the operator had it |
| InterleavedRuns.InterleavedPauseHolds | internal/background/schedules.go:129-199 | when a pause succeeds its operation holds every schedule, unless that operation was resumed meanwhile, whatever else overlapped |
| InterleavedRuns.InterleavedRollback | internal/background/schedule_migration.go:121-196 | once the outgoing process paused all three, whatever calls overlap short of resuming its operation, its restore and resume, then undisturbed, succeed and give configurations and pauses back |
| OverlappedRollback.StepKeepsBackIff | internal/background/schedule_migration.go:152-196 | a restored schedule is lost again exactly to a restore of the same operation by a process that wants another configuration |
| OverlappedRollback.RestoreNeverFails | internal/background/schedule_migration.go:121-196 | a served restore by a process the records name cannot fail, whatever calls overlap it short of a resume |
| OverlappedRollback.ResumeNeverFails | internal/background/schedules.go:129-199 | nor can the served resume that follows, as long as nobody else resumes the operation and no such rival restores it |
| OverlappedRollback.RollbackGoesThrough | internal/background/schedule_migration.go:121-196 | the rollback with calls overlapping it throughout: the restore succeeds, the resume cannot fail, and when it reports success every schedule went back at its own update to its configuration, pause and note |
| InterleavedRetries.InterleavedRetry | internal/background/schedules.go:129-199 | if a call would succeed undisturbed, then after any broken attempts, with calls of other operations around them begun while this one holds a schedule (for a resume, the last one), a served retry cannot fail and ends exactly where the undisturbed call ends |
| ControlCalls.CallsRefineSteps | internal/background/schedules.go:129-199 | any sequence of undisturbed calls with any outages is, on each schedule, a run of accepted atomic updates |
| ControlCalls.WholeRunRestoration | internal/background/schedules.go:129-199 | after any undisturbed calls and outages a successful undisturbed resume leaves all three schedules with the operator's original pause and note |
| ControlCalls.CallKeepsSingleOwner | internal/background/schedules.go:138-160 | an undisturbed call, broken off anywhere, never lets two operations hold schedules at once |
| ControlCalls.RunKeepsSingleOwner | internal/background/schedules.go:138-160 | nor does any sequence of undisturbed calls |
| ControlCalls.ForeignCallChangesNothing | internal/background/schedules.go:138-160 | while any schedule is held, an undisturbed call of another operation fails in preflight and leaves all three untouched |
| ControlCalls.StepIsIdempotent | internal/background/schedules.go:160-199 | repeating an accepted update is accepted and changes nothing |
| ControlCalls.RetryCompletes | internal/background/schedule_migration.go:121-196 | if a call would succeed undisturbed, then after any number of attempts at it, each broken off anywhere, repeating it ends exactly where the undisturbed call ends |
| ControlCalls.SuccessfulCallAppliesToAll | internal/background/schedules.go:160-199 | a successful undisturbed call applied its update to every schedule |
| ControlCalls.SuccessMeans | internal/background/schedule_migration.go:121-196 | a successful undisturbed pause holds all three schedules for its operation, a resume releases them, and resume, ensure and restore leave all in the caller's configuration |
| ControlCalls.AcceptedCallSucceeds | internal/background/schedules.go:160-199 | if every schedule accepts, an undisturbed call succeeds and applies to all |
| ControlCalls.RollbackOfDeployment | internal/background/schedule_migration.go:121-196 | after a paused deployment any undisturbed calls and outages leave the old process able to restore and resume all three schedules to their configuration and pauses |
| Admission.Gatekeeper.TryEnter | internal/background/runtime.go:232-258 | the locked admission check: an activity is admitted and counted iff the process is not blocked and the schedule was not seen paused; nothing else changes |
| Admission.Gatekeeper.ControlLegacy | internal/background/control.go:145-175 | legacy pause and resume belong to one operation at a time; a foreign one changes nothing |
| Admission.Gatekeeper.LegacyTick | internal/background/runtime.go:206-231 | admits one piece of work after another while control calls may block the process between any two; stops for exactly one of its reasons and leaves no activity counted |
| Admission.NextKeepsInv | internal/background/runtime.go:232-258 | every atomic region keeps: the count equals the running set, pause and drain phases are blocked, confirmed drains are empty |
| Admission.RunKeepsInv | internal/background/runtime.go:232-258 | so does every interleaving |
| Admission.DrainIsStable | internal/background/health.go:305-348 | after a successful drain, until this process resumes, nothing runs and nothing is admitted, not even an activity that had read an unpaused schedule before |
| Admission.ForeignNeverUnblocks | internal/background/control.go:145-175 | a legacy pause keeps the process blocked over any run until its own operation resumes |
| Admission.ConfirmationOnlyFailsOnEvidence | internal/background/control.go:125-134 | the final check of a drain can fail only on leases or the inspection, never on local work |
| AdmissionEffects.DrainCompletes | internal/background/health.go:305-348 | a drain that nothing disturbs completes: after the pause, once everything running has finished, it confirms and leaves the process blocked and empty |
| AdmissionEffects.ResumeReopens | internal/background/control.go:99-116 | after a completed resume an activity that reads an unpaused schedule is admitted |
| Snapshot.EndLineHasFixedLength | internal/domain/project_snapshot.go:103-120 | which 64-character checksum an end line carries changes neither its length nor whether it encodes |
| Snapshot.ProjectKeepsGood | internal/application/project_snapshot.go:138-167 | sending a project keeps exact byte, project and item counts, strictly increasing ids, and room for the next end line |
| Snapshot.NextKeepsGood | internal/application/project_snapshot.go:112-167 | every call keeps the whole accounting, and after an error no call changes anything |
| Snapshot.RunKeepsGood | internal/application/project_snapshot.go:96-167 | over any calls the budget holds and the first error is permanent |
| Snapshot.SummaryAlwaysFits | internal/application/project_snapshot.go:173-191 | whatever was sent, it was a header of the stream's own tenant and projects of that tenant and snapshot, each valid; and the end line of exactly that total, with the checksum of exactly the concatenated project lines, still fits both byte limits |
| Snapshot.RunKeepsBelongs | internal/application/project_snapshot.go:112-167 | over any calls every projection sent is the stream's: its tenant, the header's snapshot, valid times, progress 0 to 100, a non-blank id |
| SnapshotEffects.BeginAnswers | internal/application/project_snapshot.go:112-137 | which header is taken and what each failing one answers: protocol, limits, encoding, sink or cancellation, in that order |
| SnapshotEffects.ProjectAnswers | internal/application/project_snapshot.go:138-167 | which project is taken, what it adds to every counter, and what each failing one answers |
| SnapshotEffects.EndLineReads | internal/domain/project_snapshot.go:103-120 | the end record's fields in their order, as one line |
| Snapshot.ProjectSnapshotStream.Begin | internal/application/project_snapshot.go:112-137 | the object's Begin is the machine's step, error by error |
| Snapshot.ProjectSnapshotStream.Project | internal/application/project_snapshot.go:138-167 | the object's Project is the machine's step, error by error |
| Snapshot.ProjectSnapshotStream.Reserve | internal/application/project_snapshot.go:173-182 | accepts a line iff the end line still fits behind it |
| Snapshot.ProjectSnapshotStream.Finish | internal/application/project_snapshot.go:183-191 | the summary of everything sent, or the sticky error |
| Outbox.RunKeepsInv | internal/auditoutbox/gorm_store.go:49-119 | processing rows and only they hold a lock, waiting rows are within their attempt budget, failed ones have spent it |
| Outbox.AttemptsCountClaims | internal/auditoutbox/gorm_store.go:80-97 | the attempt counter is the number of claims since creation or the last operator reset |
| Outbox.ClaimsAreALeaseApart | internal/auditoutbox/gorm_store.go:49-97 | two claims of one row without a mark between them are more than a lease apart |
| Outbox.LeaseExcludes | internal/auditoutbox/gorm_store.go:49-97 | within the lease no claim changes a processed row |
| Outbox.NoRowIsStuck | internal/auditoutbox/gorm_store.go:49-97 | a reachable row is claimable exactly from a known moment on unless delivered or failed |
| Outbox.FailedOnlyWhenSpent | internal/auditoutbox/gorm_store.go:106-119 | a row fails only by a failed attempt with the budget spent |
| OutboxEffects.ClaimTakesIff | internal/auditoutbox/gorm_store.go:49-97 | a claim takes exactly the due rows that nobody holds within their lease and whose attempts are not spent; a row lost while processed it takes regardless |
| OutboxEffects.DeliveredIsFinal | internal/auditoutbox/gorm_store.go:100-103 | a delivered row is never claimed again, whatever happens short of a failed mark |
| OutboxEffects.FailedMarkEffect | internal/auditoutbox/gorm_store.go:106-119 | a failed attempt makes the row claimable from its retry time on, or never once the attempts are spent |
| OutboxEffects.ResetEffect | internal/auditoutbox/gorm_store.go:147-152 | an operator's retry takes exactly the failed rows of their tenant, claimable from that moment with all attempts anew |
| Outbox.Store.Claim | internal/auditoutbox/gorm_store.go:49-97 | leases exactly the first claimable rows in due order, up to the limit, and nothing else |
| Outbox.Store.MarkFailed | internal/auditoutbox/gorm_store.go:106-119 | retry or final failure by the attempts spent; a missing row is an error only under a budget |
| Outbox.Store.RetryFailed | internal/auditoutbox/gorm_store.go:147-152 | resets exactly a failed row of the tenant |
| Outbox.Backoff | internal/auditoutbox/dispatcher.go:100-109 | the doubling loop computes the capped power of two |
| Outbox.BackoffMonotone | internal/auditoutbox/dispatcher.go:100-109 | a later attempt never waits less |
| OutboxEffects.BackoffIs | internal/auditoutbox/dispatcher.go:100-109 | waits of 1, 2, 4 up to 128 seconds, none above the configured maximum |
| OutboxEffects.PassEffect | internal/auditoutbox/dispatcher.go:60-90 | where one pass leaves a row: delivered, failed, waiting or leased, and until when; the first failure waits two seconds, because the claim has counted already |
| Outbox.DeliverOnce | internal/auditoutbox/dispatcher.go:60-90 | one pass claims at most a batch, the first due rows in due order, and marks every entry by its own report; neither a failed report nor a failed mark stops the others |
| Outbox.PassNeverHotLoops | internal/auditoutbox/dispatcher.go:60-90 | after its pass a row is not claimable at the same moment: marked, it is unlocked and failed iff its budget is spent; unmarked, it stays out of reach for its lease |
| ContractSearch.Search | internal/application/service.go:312-363 | one search's items and what lies behind its cursor are exactly what was eligible behind the given cursor; the cursor strictly advances; it stops early only when full, right behind its last item, or after twenty pages |
| ContractSearch.SearchAll | internal/application/service.go:312-363 | following the cursors, with any limits, yields every eligible contract once and in order, and ends |
| ContractSearch.EligiblesExact | internal/application/service.go:338-356 | what is yielded are the directory's eligible contracts, ordered, none missing, none added |
| ContractSearch.EligibleIff | internal/application/service.go:338-356 | offered are exactly the approved, normal contracts with an id and without a project |
| ContractSearch.PendingProjectCreation | internal/application/service.go:423-461 | the dashboard counts exactly the pending contracts over all pages; it is available iff none of the pages it asks for fails |
| ContractSearch.VisitedIff | internal/application/service.go:423-461 | the pages asked for are those the cursors lead to before one of them ends the list |
| Equipment.CalendarDayMonotone | internal/businessclock/businessclock.go:61-64 | later instants never have earlier days |
| Equipment.CalendarDayOfMidnight | internal/businessclock/businessclock.go:61-64 | a date read as UTC midnight is its own calendar day |
| Equipment.OverlapIsSharedDay | internal/application/delivery_equipment.go:139-165 | the closed-interval comparison holds iff the windows share a day |
| Equipment.ResolvePreparation | internal/application/delivery_equipment.go:76-120 | accepts a list iff every input passes the gate and no device repeats, and returns exactly its rows |
| Equipment.AcceptedRow | internal/application/delivery_plan.go:87-174 | an accepted row stays within the plan's days and its device's calibration days, and shares no day with a listed reservation of its device |
| Equipment.SyncReservations | internal/infrastructure/mysql/delivery_events.go:845-890 | the day-by-day index update is the ledger's booking function |
| Equipment.BookRowsSpec | internal/infrastructure/mysql/delivery_events.go:845-909 | a successful booking keeps every older index row and owns every day of every row |
| Equipment.PreparedRowsAreCalibrated | internal/infrastructure/mysql/delivery_events.go:845-909 | a prepared row occupies only days inside its device's calibration |
| Equipment.PrepareKeepsCover | internal/infrastructure/mysql/delivery_events.go:177-190 | a preparation keeps: every live row owns the index row of each of its days |
| Equipment.ReturnKeepsCover | internal/infrastructure/mysql/delivery_events.go:643-704 | so does a return |
| Equipment.RunKeepsCover | internal/infrastructure/mysql/delivery_events.go:25-320 | so does every run of plan, prepare, revoke, return, field moves, termination and master data edits |
| Equipment.NoDoubleBooking | internal/infrastructure/mysql/delivery_events.go:845-890 | over all runs, however stale the gate's list, two live rows of a device in different items share no day |
| Equipment.DeviceListedOnce | internal/application/delivery_plan.go:87-140 | over all runs of gated lists no item lists a device twice |
| EquipmentExact.BookRowsIff | internal/infrastructure/mysql/delivery_events.go:845-909 | a list is booked iff every row can be placed and no two rows want one device on one day |
| EquipmentExact.IndexIsOccupancy | internal/infrastructure/mysql/delivery_events.go:643-890 | over all runs a device and day stand in the index for an item iff one of its live rows occupies them: nothing is leaked by returns, revocations or terminations |
| EquipmentExact.BookedIffFree | internal/infrastructure/mysql/delivery_events.go:845-890 | over all runs a preparation is booked iff its rows are bookable, do not collide, and no live row of another item has a device on one of their days |
| EquipmentEffects.PrepareEffect | internal/infrastructure/mysql/delivery_events.go:177-190 | over all runs a preparation leaves the item preparing with exactly its rows iff it was planned or preparing, every row may be used, no two collide and no live row of another item is in the way; otherwise nothing changes |
| EquipmentEffects.ReturnReleases | internal/infrastructure/mysql/delivery_events.go:643-704 | over all runs a return leaves the item no live row and no day of the device, and nobody else loses one |
| EquipmentEffects.RevokePreparationEffect | internal/infrastructure/mysql/delivery_events.go:192-205 | revoking a preparation gives back every day of the item and keeps its plan |
| EquipmentEffects.TerminateEffect | internal/infrastructure/mysql/delivery_events.go:336-347 | terminating an item in exception gives back every day of it and leaves it no live row |
| EquipmentEffects.GateIff | internal/application/delivery_equipment.go:76-165 | exactly which input passes the gate: an active device that may leave, days of the plan, calibrated on the first and last of them, not listed away |
| EquipmentEffects.PlanDaysAreTouched | internal/application/delivery_plan.go:87-174 | a plan takes exactly the Beijing days on which it has a moment |
| Equipment.ListingExactness | internal/infrastructure/mysql/repository.go:1037-1093 | the listing shows the days a row occupies iff the row is dated or the plan starts and ends before 16:00 UTC |
| Equipment.GateMissesLateEnd | internal/infrastructure/mysql/repository.go:1037-1093 | a late plan end the gate does not see and the index refuses |
| ProjectStatus.DeriveProjectStatus | internal/domain/project_status.go:268-293 | supplement first, then stored text, all-terminated, or the node of the furthest-behind active item |
| ProjectStatus.DeriveProjectReportStage | internal/domain/project_status.go:370-396 | the lowest report phase iff every active item has one |
| ProjectStatus.DeriveProjectProgress | internal/domain/project_status.go:426-447 | the loop computes the share of rank reached by the active items |
| ProjectStatus.StageFixesStatus | internal/domain/project_status.go:298-396 | a project with a report stage has exactly the status of that stage's rank |
| ProjectStatus.ProgressBounds | internal/domain/project_status.go:426-447 | progress lies between the lowest rank's share and 100, and is 100 iff that rank is the last |
| ProjectStatus.CompletionAgrees | internal/domain/project_status.go:268-447 | completed status, archived stage and progress 100 are one condition |
| ProjectStatus.OrderIrrelevant | internal/domain/project_status.go:268-447 | none of the three depends on the order of the items |
| ProjectStatus.DerivedValuesUnique | internal/domain/project_status.go:268-396 | the specifications of status and stage leave no choice |
| ProjectStatus.AdvancingNeverLowers | internal/domain/project_status.go:268-447 | advancing one active item never lowers status or progress |
| StatusEffects.RankIs | internal/domain/project_status.go:298-314 | which status and report put an item at which node |
| StatusEffects.StatusIff | internal/domain/project_status.go:268-293 | the status by the items alone: some active item stands at its node and none behind |
| StatusEffects.StageIff | internal/domain/project_status.go:370-396 | a project has a report stage iff all active items completed their field work and have a known report; it is the earliest of theirs |
| Projections.NewProjectProjection | internal/domain/project_snapshot.go:67-99 | derives everything, risk included, from the items not archived, copies the rest, and stamps the latest of all times, archived items included |
| Projections.ProjectionIsConsistent | internal/domain/project_snapshot.go:67-99 | progress is a percentage, 100 iff archived; outside the supplement branch that is exactly not in flight; a completed project is a risk iff an item was terminated |
| StatusEffects.LatestIff | internal/domain/project_snapshot.go:67-99 | the stamp is the latest of the project's, its source's and all its items' moments, archiving included |
| SplitGrouping.GroupServices | internal/application/delivery_contract.go:548-588 | refuses a list iff a line is incomplete or an identifier repeats; otherwise returns the merged groups in key order |
| SplitGrouping.TalliedIsMerged | internal/application/delivery_contract.go:551-582 | the loop's map holds, per key seen, the merge of exactly that key's lines |
| SplitGrouping.Partition | internal/application/delivery_contract.go:548-588 | groups come strictly sorted; every line's key is one of them; an identifier is read back from the group of its own key and no other |
| SplitGrouping.MembersCanBeReadBack | internal/application/delivery_support.go:169-182 | a group's identifiers read back as its members iff none contains the separator |
| SplitGrouping.SeparatorHidesAnId | internal/application/delivery_support.go:169-182 | an identifier that vanishes because an earlier one contains it as a part |
| SplitGrouping.NothingLost | internal/application/delivery_contract.go:570-578 | requirement, system, level and name of the merged item open with the first line's as they stand, and list every non-empty part of them and of every later line's trimmed ones |
| SplitGrouping.SameGroupIffSameValues | internal/application/split_config.go:405-414 | clean lines share a group iff they agree on every dimension of the plan |
| Text.JoinUnambiguous | internal/application/split_config.go:413-413 | a joined key stands for one tuple iff no part holds the separator |
| SplitGrouping.KeptOutcome | internal/application/delivery_contract.go:569-582 | a merged item keeps the outcome of the first line of its key |
| SplitGrouping.OutcomesAgreeIff | internal/application/split_config.go:350-414 | that outcome is every member's, for all lists, iff the plan groups by category and test mode |
| SplitEffects.ResolvedIs | internal/application/split_config.go:350-378 | how a line is resolved: penetration iff its category demands it, or it asks and the category does not rule it out; pending iff there is no rule and the plan waits for a person |
| SplitEffects.OneItemIff | internal/application/split_config.go:381-414 | lines become one item iff they agree, trimmed, on every dimension the plan names |
| SplitEffects.KeyIs | internal/application/split_config.go:381-414 | items are ordered by their values on the plan's dimensions, the primary one first |
| SplitEffects.AcceptedIff | internal/application/delivery_contract.go:551-566 | a list is accepted iff every line is complete and no two carry one trimmed identifier |
| SplitEffects.KeepsTheFirst | internal/application/delivery_contract.go:569-582 | site, batch, category and test method of a merged item are the first member's |
| SplitEffects.NothingInvented | internal/application/delivery_contract.go:569-578 | every part of a merged text comes from that text of a member |
| AuditBuffers.AuditBuffer.CopyHeaders | internal/httpapi/audit_buffer.go:54-68 | copying key by key in any order overrides exactly the buffered keys |
| AuditBuffers.AuditBuffer.Apply | internal/httpapi/audit_buffer.go:79-139 | every writer call on the object is the machine's step |
| AuditBuffers.AuditBuffer.FlushToOriginal | internal/httpapi/audit_buffer.go:72-77 | commits once, and not at all when degraded |
| AuditBuffers.BufferStaysInStep | internal/httpapi/audit_buffer.go:83-139 | after any calls the buffer agrees with a direct writer on status and size, and the real writer is untouched or agrees too |
| AuditBuffers.NothingLeaksBelowTheLimit | internal/httpapi/audit_buffer.go:95-124 | sent plus held bytes are all bytes in order; the real writer is touched iff the body passed 64 KiB |
| AuditBuffers.HeadIsSentOnce | internal/httpapi/audit_buffer.go:44-77 | once a head is sent no later call changes it |
| AuditBuffers.FlushMatchesDirect | internal/httpapi/audit_buffer.go:54-77 | buffering and flushing gives the status and bytes of writing directly |
| AuditBuffers.StatusMatchesIff | internal/httpapi/audit_buffer.go:35-68 | that holds for every handler iff the real writer still had status 200 |
| AuditBuffers.LateHeadersAreDelivered | internal/httpapi/audit_buffer.go:54-77 | the flush delivers the earlier headers overlaid with all of the handler's edits, a direct writer the edits before the first write; the client sees the same iff those maps are equal, for every handler |
| AuditBuffers.OverlayIsDirectIff | internal/httpapi/audit_buffer.go:54-68 | overlaying gives what editing the earlier headers directly gives iff every key among them is left alone or replaced, not merely added to or deleted |
| AuditBuffers.SameHeadersIffNoLateEdit | internal/httpapi/audit_buffer.go:54-77 | for such handlers the client sees the same iff no edit after the first write changes the headers |
| AuditBuffers.EarlierHeaderSurvivesDeletion | internal/httpapi/audit_buffer.go:56-61 | a deletion does not reach a header set on the real writer before |
| AuditBuffers.AuditWrites | internal/httpapi/api.go:508-566 | the middleware's run of a handler is the function the theorems are about |
| AuditBuffers.NoSuccessWithoutAudit | internal/httpapi/api.go:508-566 | mandatory auditing, body within the limit: the client gets the handler's answer iff the report succeeded, a bare 503 otherwise |
| AuditBuffers.PastTheLimitNothingIsWithdrawn | internal/httpapi/api.go:547-552 | past the limit the client gets the handler's answer whatever the report says |
| AuditBuffers.UnbufferedRefusal | internal/httpapi/api.go:546-558 | unbuffered, a failed report refuses only a handler that wrote nothing |
| AuditEffects.DirectAnswer | internal/httpapi/audit_buffer.go:79-139 | what a direct writer sends: the last status and headers asked for before the first write, and all bytes |
| AuditEffects.HeldUpToTheLimit | internal/httpapi/audit_buffer.go:95-124 | up to 64 KiB nothing is sent; the write that passes it sends everything so far under the status and headers of that moment |
| AuditEffects.ReportedAnswer | internal/httpapi/api.go:508-566 | a reported response goes out whole: first write's status, all headers, all bytes |
| AuditEffects.NothingOfTheHandler | internal/httpapi/api.go:546-558 | a refused one is a 503 that carries neither a header nor a byte of the handler's |
| AuditEffects.UnbufferedHead | internal/httpapi/api.go:546-558 | unbuffered, the refusal's head is sent iff the handler wrote nothing, and keeps the handler's headers |
| Recipients.CollectPage | internal/application/delivery_effects.go:269-285 | one page is accepted iff all its identifiers are valid and new to the role; then it is merged without repeats |
| Recipients.EmptyPageSpoils | internal/application/delivery_effects.go:292-294 | an empty page before the last implies an incomplete role |
| Recipients.CollectRole | internal/application/delivery_effects.go:246-298 | succeeds iff every page agrees on one total and the role lists exactly that many valid, distinct people |
| Recipients.RoleRecipients | internal/application/delivery_effects.go:241-300 | succeeds iff every role is complete, and never returns a part |
| Recipients.UniqueStrings | internal/application/delivery_support.go:110-121 | keeps first appearances |
| Recipients.ExpectedIsTheUnion | internal/application/delivery_effects.go:241-300 | the result has no repeats and is exactly the union of the roles' listings |
| Recipients.CompleteRoleCount | internal/application/delivery_effects.go:262-291 | a complete role holds as many different people as its pages announced |
| Recipients.RoleCompleteIff | internal/application/delivery_effects.go:246-298 | a role is complete iff as many pages of fifty as one positive total takes, at most 10000, answer for that total and list that many different identifiers of 1 to 26 characters |
| Recipients.ListedIff | internal/application/delivery_effects.go:269-285 | listed are exactly the identifiers on those pages, padding aside |
| Messages.Batch | internal/application/delivery_effects.go:222-238 | the loop produces the numbered parts |
| Messages.PartsOfIsASplit | internal/application/delivery_effects.go:222-238 | parts hold 1 to 500 recipients, concatenate to the list, and have pairwise different keys and event ids |
| Messages.BuildMessages | internal/application/delivery_effects.go:187-239 | all messages in full, or none when one role of one message is incomplete |
| Messages.FlippedIsAnotherID | internal/application/delivery_effects.go:205-211 | the identifier with its lowest bit flipped is another one, and flipping that gives the first number back |
| Messages.BuildDeliveryEffects | internal/application/delivery_effects.go:187-239 | everything one command causes or nothing: its derived events, the warning under the flipped and so a different identifier, and all parts of its messages |
| Messages.PartsAre | internal/application/delivery_effects.go:222-238 | part by part: five hundred recipients each in order, numbered from one in key and identifier |
| Messages.CanBuildIff | internal/application/delivery_effects.go:187-239 | a command's effects can be built iff a warning's identifier is readable and every role written to is complete |
| Effects.Settle | internal/application/delivery_effects.go:124-182 | a claimed job ends with a stored completion iff all went well, otherwise with one stored retry naming its code and delay, unless the dispatch fails; exactly when it fails, and then nothing is stored |
| Effects.Dispatch | internal/application/delivery_effects.go:88-185 | claims and settles job after job up to the bound, the end of its time, an empty queue or an error, and says which; only a last job can be left by an error; the result counts the completions |
| Effects.SettledMeans | internal/application/delivery_effects.go:124-182 | in terms of the answers: when a job is completed, when it is retried with which code and delay, and when neither |
| ScopeGate.ScopeSnapshot | internal/application/split_config.go:427-437 | the loop and sort produce the fingerprint |
| ScopeGate.FingerprintIsTheRows | internal/application/split_config.go:427-437 | fingerprints are equal iff the rows are, each as often |
| ScopeGate.FingerprintIgnoresOrder | internal/application/supplement_exit.go:41-43 | listing order does not matter |
| ScopeGate.RowIsUnambiguous | internal/application/split_config.go:427-437 | a row stands for one line iff no value holds the bar |
| ScopeGate.NewestSpec | internal/application/supplement_exit.go:46-102 | the loop's choice is a newest wanted event, the first among equals |
| ScopeGate.ScopeChangeBaseline | internal/application/supplement_exit.go:78-102 | returns the scope of the newest event that carries one |
| ScopeGate.SupplementAppliedScope | internal/application/supplement_exit.go:46-71 | returns what the newest adjustment applied, nothing if it cannot be read |
| ScopeGate.NewestIgnoresOrder | internal/application/supplement_exit.go:46-102 | for distinct times both are independent of list order |
| ScopeGate.ScopeChangeDetectionEnabled | internal/application/supplement_exit.go:105-114 | the switch of the first activation of the list, off without one; on a newest-first list that of the newest activation |
| ScopeGate.FirstIsNewest | internal/application/supplement_exit.go:104-114 | the newest activation's switch is read from every list whose first activation is its newest |
| ScopeGate.DetectionIffSameSwitch | internal/application/supplement_exit.go:104-114 | on any one list the right switch is read iff its first activation carries the switch of its newest |
| ScopeGate.RightSwitchIff | internal/application/supplement_exit.go:104-114 | the right switch is read, whatever the switches say, iff the first activation is the newest |
| ScopeGate.DetectionDependsOnOrder | internal/application/supplement_exit.go:104-114 | two activations listed oldest first, of which the older is read |
| ScopeEffects.ChangeShowsIff | internal/application/split_config.go:427-437 | changing one item shows in the fingerprint iff it then stands for another source, batch, site or category |
| ScopeEffects.BaselineIff | internal/application/supplement_exit.go:78-102 | the baseline is what the newest activation, adjustment or closure with a scope put on record, of equally new ones the first listed |
| ScopeEffects.AppliedIff | internal/application/supplement_exit.go:46-71 | evidence is what the newest adjustment applied |
| ScopeRuns.AdjustThenConfirm | internal/application/supplement_exit.go:120-128 | after an adjustment, accepted while no item has progressed, the next full confirmation of the same items, in any order, succeeds and leaves the branch for good |
| ScopeRuns.CloseThenConfirm | internal/application/supplement_exit.go:206-240 | after a closure confirmations of the accepted items succeed |
| ScopeRuns.ExitIff | internal/infrastructure/mysql/supplement_exit.go:23-72 | a confirmation leaves the branch iff the newest adjustment, as listed and on record, equals the current fingerprint |
| ScopeRuns.DriftIff | internal/application/split_config.go:442-512 | outside the branch a confirmation is refused, and opens it, iff watched items left their baseline |
| ScopeEffects.ConfirmEffect | internal/application/service.go:966-990 | a confirmation is refused for a drift, which it records and which opens the branch; within the branch for want of proof that the supplement was applied; otherwise only the last one changes anything, and leaves the branch |
| ScopeRuns.ConfirmingAgainIsNoWayOut | internal/application/supplement_exit.go:15-28 | once items have progressed and nothing was adjusted before, no run of confirmations, edits and refused adjustments leaves the branch: only a closure does |
| ScopeRuns.ExitMeetsBaselineIff | internal/application/supplement_exit.go:73-128 | a confirmation that leaves the branch meets the baseline iff the newest scope on record is an adjustment or has the newest adjustment's fingerprint |
| ScopeRuns.StaleAdjustmentReopens | internal/application/supplement_exit.go:46-128 | otherwise a refused confirmation succeeds when repeated, against the baseline, for any two different scopes |
| ScopeRuns.WindowDecidesIff | internal/infrastructure/mysql/delivery_queries.go:60-89 | the scope check on the listed window equals the check on the whole ledger iff the latter passes or the window holds both the newest scope and the newest activation |
| ScopeRuns.WindowHarmlessIff | internal/infrastructure/mysql/delivery_queries.go:60-89 | for all items the two agree iff nothing is watched or both events are in the window |
| ScopeRuns.OldBaselineIsForgotten | internal/infrastructure/mysql/delivery_queries.go:60-89 | 500 events after its activation a drifted project passes the check |
| ScopeRuns.OldSwitchIsForgotten | internal/infrastructure/mysql/delivery_queries.go:60-89 | so does one whose newest baseline is listed, when only the switch is older |
| ImportHash.CompactInPlace | internal/application/import_confirmation.go:118-124 | writing into the array still being read yields the compaction of its old contents |
| ImportHash.UniqueRows | internal/application/import_confirmation.go:116-124 | the sorted, compacted copy; the caller's rows are not written |
| ImportHash.SelectionSpec | internal/application/import_confirmation.go:116-124 | strictly increasing, with the members of the selection |
| ImportHash.SelectionIsTheSet | internal/application/import_confirmation.go:112-124 | two selections compact alike iff they are one set |
| ImportHash.FingerprintIdentifies | internal/application/import_confirmation.go:115-133 | the hashed texts are equal iff operation, content hash, resource type and set of rows are |
| ImportHash.SameHeaderIff | internal/application/import_confirmation.go:115-133 | operations compare without padding, hashes and types without padding and case |
| ImportHash.FingerprintTextIs | internal/application/import_confirmation.go:125-133 | the hashed text line by line |
| ResourceIds.AtoiOfFormat | internal/application/delivery.go:124-131 | reading a printed number gives that number, over all 64-bit values |
| ResourceIds.AtoiIff | internal/application/delivery.go:124-131 | which text stands for which number |
| ResourceIds.SequenceIff | internal/application/delivery.go:118-131 | a record's number is what stands behind the prefix of its type |
| ResourceIds.NextIsFree | internal/application/delivery.go:113-136 | one past the maximum is unused |
| ResourceIds.NextResourceID | internal/application/delivery.go:113-136 | the loop ends with the first number behind the maximum, wrapping around, that no record of the type carries; that is one past the maximum unless it wraps |
| ResourceIds.AssignResourceID | internal/application/delivery.go:141-149 | fills in only a blank identifier of a known type, with the first free number |
| ResourceIds.PreviewNumbers | internal/application/equipment_import.go:44-109 | a chosen equipment number differs from the register's, from every number in the file and from every other chosen one; rows are marked iff another row shows the same |

## Left out

- Error texts, log lines and the order of messages: a refusal is one outcome, or one constructor where callers can tell them apart.
- Temporal, GORM, HTTP routing, sockets, JSON and CSV: their verdicts and answers are parameters. A control record whose JSON cannot be read is `Garbled` or `Unreadable`.
- The drain evidence of schedules and workflows, routing checks, deployment promotion and license checks are oracle answers.
- ControlMachine.Runtime.Control: does not model the fields of the reported state, nor the promotion after ensure beyond its verdict.
- Interleavings.PlayRefinesSteps: starts once all three schedules exist; creating a missing one is reconcile's only effect. The drain inside a migration is one event with its verdict.
- Admission.Gatekeeper.LegacyTick: the wall clock and the context are one answer per round.
- Outbox.Store.Claim: does not model the worker name, because marks are not fenced by it; a late mark may change any row.
- ContractSearch.Search: contract ids are ranks in the upstream's order, and the upstream's paging contract over a fixed directory is a precondition because the upstream is another system.
- Equipment.NoDoubleBooking: does not cover archiving a project's items, device renaming or items of other tenants; times stored in the database are taken as UTC and Beijing as a fixed offset.
- SplitGrouping.GroupServices: plan dimensions, test modes and missing-rule actions are read by name beforehand; normalised capability codes come with the directory entry.
- AuditBuffers.AuditWrites: does not model write errors, panics, hijacking and server push.
- Recipients.RoleRecipients: the directory's answers are fixed per role and page, because each is asked for once.
- Messages.BuildDeliveryEffects: the identifier library is a parameter that reads back what it prints; time stamps and payloads of derived events are not modelled.
- Effects.Dispatch: the four-minute budget is an answer per turn, and a failing repository call is taken to have stored nothing.
- ScopeRuns.DriftIff: covers one project of a confirmation; projects with a native scope are checked elsewhere.
- ScopeRuns.AdjustThenConfirm: takes the events of a project to have distinct times, so that newest first is one order.
- ImportHash.FingerprintIdentifies: is about the text before SHA-256, and asks that one of the two requests keeps line breaks out of its names.
- ResourceIds.NextResourceID: takes the length of a list as addressable, which is what ends the search after the wrap-around.
- Trimming and case folding cover ASCII only; a char stands for one byte or rune.
- Choosing a split plan among override rules, imports of detection categories, personnel rows of a plan, import row selection, SLA texts, field masking and handover would add easy members or rest on database constraints alone.
