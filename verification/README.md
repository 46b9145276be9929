# Verified models of the Prequest core

Prequest is a facility-management platform: tickets, bookings, approvals, a
reception kiosk, and the web client that drives them. This project models the
parts of it where many actors, retries, clocks or odd inputs meet, and proves
what those parts guarantee over all inputs and all runs. `dafny verify
dfyconfig.toml` checks everything.

| file | models |
|---|---|
| `CommandOperations.dfy` | the idempotent command protocol: read probe, write gate, side-effect claim, as interleaved attempts |
| `IdempotencyKeys.dfy` | the whole family of idempotency-key builders and the dispatch child ids |
| `AttachPlan.dfy` | the booking plan: deterministic row ids, grouping and canonical sorting |
| `Calendar.dfy`, `LocalTime.dfy`, `SchedulerTime.dfy` | the planning grid: Gregorian days, local time of section 21.4.1 of ECMA-262, cells and instants, date shifting |
| `KioskQueue.dfy` | the kiosk's offline queue, sequential and overlapping flushes |
| `ApprovalCompiler.dfy`, `ApprovalWorkflow.dfy`, `ApprovalMeaning.dfy`, `ApprovalRaces.dfy` | the approval-config compiler, the engine, grants and events that run the compiled graph, and the races around them |
| `ReclassifyPreview.dfy`, `DebouncedSave.dfy` | two client hooks as race and timer machines |
| `Permissions.dfy` | permission strings, wildcard matching and expansion |
| `CatalogTree.dfy` | the request-type picker's tree walk, scope and exclusion |
| `ErrorPipeline.dfy` | from a database raise to the wire body |
| `FormatRef.dfy` | references such as `TKT-12`, printed and parsed |
| `DeliveryStatus.dfy` | mail delivery events folded into a status |
| `Common.dfy`, `Sorting.dfy` | text and stable-sort vocabulary |

Code that updates things in place is imperative here too: `JsDate`,
`OfflineQueue`, `PreviewHook`, `DebouncedHook`, `Flattener` and `WebhookStore`
are classes whose methods are proved against functions of the old state, and the
run theorems are about those functions. Protocols are step functions over a
shared state; a run is any sequence of steps.

## What the proofs found

- **Command protocol.** The read probe closes the permanent poison (`RetryAfterCommitReachesClaim`, against `UnguardedKeyStaysPoisoned`). Mismatches are bounded by the attempts already past their probe. A winner that dies between claiming and firing silences its key for good (`CanStillFireExactly`). The gate's `unexpected_state` branch is dead.
- **Approvals.** The compiled graph follows the all/any rule in every run in which grants wait until the instance is waiting. The rows are inserted one by one before that, so a grant that comes earlier can confirm an `all` chain alone (`EarlyApprovalDecidesAlone`), and an event delivered before the wait is lost (`EarlyDeliveryIsLost`). A worker that dies after `resume` claimed the instance leaves it stuck for good (`KilledNeverCompletes`). The grant's `already_resolved` branch is dead once grants wait.
- **Booking plan.** Rows of different requests never share an id, for every key the program builds. A retry with reordered lines rebuilds the same plan exactly when no two different ids tie in `localeCompare`; canonically equivalent strings do.
- **Grid.** A cell that starts in a stretch the clock skips comes back exactly when cells are longer than the stretch.
- **Date shifts.** A zone that skips a whole day shifts past it. Elsewhere shifts add up exactly while the date in between has a four-digit year.
- **Reclassify preview.** `loading` stays on when the inputs are emptied while a request is in flight, exactly then.
- **Debounced save.** A change of the delay alone saves the mount value.
- **Permissions.** `x.constructor` is accepted for storage and grants nothing; `constructor.x` throws.
- **Errors.** A raise whose two-segment code is not registered shows its raw message unless the leak detector catches it. That includes three-segment codes, unless their two-segment prefix is itself registered; then the prefix's copy shows.
- **Mail.** The status keeps the first terminal event, but the error column follows the last failure, so a delivered list can carry a bounce reason.
- **Kiosk.** An item can be posted again exactly while it is stored or ahead of a running flush; overlapping flushes do it. A flush counts an item whose delete failed.

## Model

| member | source | states |
|---|---|---|
| `CommandOperations.ProbeCommandOperationSuccess` | apps/api/src/common/command-operations-probe.ts:81-109 | hits exactly on a visible `success` row, with its cached result; throws exactly on a read error |
| `CommandOperations.WriteGate` | supabase/migrations/00419_floor_plan_publish_history_AND_set_entity_assignment_v3_2_chosen_provenance_guard.sql:236-257 | proceeds exactly without a row, mismatches exactly on a different hash, replays exactly a success of the same hash with its cached result |
| `CommandOperations.VisibleRowsAreSuccess` | supabase/migrations/00419_floor_plan_publish_history_AND_set_entity_assignment_v3_2_chosen_provenance_guard.sql:241-258 | every row another transaction can see is a success row with a cached result, so the gate's last branch is dead |
| `CommandOperations.StepKeepsInv` | apps/api/src/common/command-operations-probe.ts:22-43 | every step of every attempt keeps table, locks, claims and attempts consistent |
| `CommandOperations.CommittedRowIsPermanent` | supabase/migrations/00316_command_operations_table.sql:32-54 | from its commit on a key shows the same row in every later state of the run |
| `CommandOperations.WritesAtMostOnce` | apps/api/src/common/command-operations-probe.ts:5-9 | in every interleaving the canonical write of a key commits at most once |
| `CommandOperations.CommitStoresTheCall` | supabase/migrations/00419_floor_plan_publish_history_AND_set_entity_assignment_v3_2_chosen_provenance_guard.sql:861-865 | an attempt that recomputed a payload hash and committed a result leaves, in every later state, exactly that hash and that result under its key; the committer knows the result unless its answer was lost |
| `CommandOperations.GateAfterCommit` | supabase/migrations/00419_floor_plan_publish_history_AND_set_entity_assignment_v3_2_chosen_provenance_guard.sql:236-249 | whoever reaches the gate after that commit replays the result when its own hash is the same and mismatches when it is not |
| `CommandOperations.ProbeAfterCommitNeverCalls` | apps/api/src/common/command-operations-probe.ts:22-28 | an attempt that probes after the commit holds the committed result in the very next state, and never calls, locks or writes again |
| `CommandOperations.CallersAgree` | apps/api/src/common/command-operations-probe.ts:56-63 | all attempts that learn a result under one key learn the same one |
| `CommandOperations.MismatchMeansRaced` | apps/api/src/common/command-operations-probe.ts:36-43 | whoever ends in a payload mismatch was past its probe when the key committed |
| `CommandOperations.MismatchesAreBounded` | apps/api/src/common/command-operations-probe.ts:36-43 | the number of mismatches is at most the number of such attempts |
| `CommandOperations.SideEffectsFireAtMostOnce` | apps/api/src/modules/sla/sla.service.ts:1088-1110 | in every run the side effects of a key run at most once |
| `CommandOperations.SideEffectsAreBacked` | apps/api/src/modules/sla/sla.service.ts:1208-1345 | every single firing holds its key's claim and stands on a durable write or a recorded no-op |
| `CommandOperations.CanStillFireExactly` | apps/api/src/modules/sla/sla.service.ts:1280-1345 | after any run, the side effects of a claimed key that have not run can still run exactly when the claim holder is alive between claiming and firing |
| `CommandOperations.RetryAfterCommitReachesClaim` | apps/api/src/common/command-operations-probe.ts:36-43 | after any run, one more attempt under a committed key reaches the claim |
| `CommandOperations.UnguardedKeyStaysPoisoned` | apps/api/src/common/command-operations-probe.ts:11-20 | without the probe, a lost answer plus a drifting payload keeps the claim from ever being recorded |
| `CommandOperations.PoisonIsReachable` | apps/api/src/common/command-operations-probe.ts:11-20 | that situation is reachable from the start |
| `IdempotencyKeys.DecodeKey` | packages/shared/src/idempotency.ts:65-71 | every key of the family reads back to its operation and arguments, with colons allowed in request ids, node ids and timer types |
| `IdempotencyKeys.KeyIsItsTemplate` | packages/shared/src/idempotency.ts:65-661 | every builder joins the literal segments of its template |
| `IdempotencyKeys.KeyOfDecoded` | packages/shared/src/idempotency.ts:374-419 | whatever decodes was built from that very call |
| `IdempotencyKeys.KeysNeverCollide` | packages/shared/src/idempotency.ts:462-661 | two keys are equal exactly when operation and arguments are |
| `IdempotencyKeys.LegacyEditKeyCollides` | packages/shared/src/idempotency.ts:374-382 | the one restriction is needed: a legacy edit key whose booking id is an operation word equals an op-tagged key |
| `IdempotencyKeys.ChildIdsNeverCollide` | packages/shared/src/idempotency.ts:98-151 | batch children, their indexes and single dispatches never share an id |
| `IdempotencyKeys.SeedIsItsTemplate` | packages/shared/src/idempotency.ts:98-151 | the literal seeds of single and batch children |
| `AttachPlan.IdsNeverCollide` | apps/api/src/modules/booking-bundles/plan-uuid.ts:45-82 | under one key no two rows share an id, whatever colons the line ids contain |
| `AttachPlan.RowSeeds` | apps/api/src/modules/booking-bundles/plan-uuid.ts:45-82 | the literal seeds of bookings, slots, orders, approvals and chains |
| `AttachPlan.LineSeeds` | apps/api/src/modules/booking-bundles/plan-uuid.ts:45-82 | the literal seeds of lines and reservations |
| `AttachPlan.KeysShareExactly` | apps/api/src/modules/booking-bundles/plan-uuid.ts:70-82 | two different keys can give rows one id exactly when one key followed by a row-kind word begins the other, segment by segment |
| `AttachPlan.RequestsNeverShareIds` | apps/api/src/modules/reservations/booking-flow.service.ts:177-178 | over both key shapes the program builds (create by a user, the recurrence job or the Outlook sync; attach), two rows share an id only when they are the same row of the same request |
| `AttachPlan.CheckLineIds` | apps/api/src/modules/booking-bundles/bundle.service.ts:537-551 | accepts exactly lines with non-empty distinct ids; otherwise names the first bad line and why |
| `AttachPlan.GroupLines` | apps/api/src/modules/booking-bundles/bundle.service.ts:600-612 | the insertion-ordered map holds the service types by first appearance and each one's lines in order |
| `AttachPlan.BuildAttachPlan` | apps/api/src/modules/booking-bundles/bundle.service.ts:495-712 | succeeds exactly on a key, valid line ids and non-empty service types, and then builds the specified plan |
| `AttachPlan.PlanIsComplete` | apps/api/src/modules/booking-bundles/bundle.service.ts:638-712 | the lines of the plan are the lines of the request; each carries its own id and the id of the order of its type, and a reservation of its own exactly when it has an asset; every order and reservation belongs to some line |
| `AttachPlan.PlanAscends` | apps/api/src/modules/booking-bundles/plan-sort.ts:61-86 | orders ascend by service type and lines by client line id |
| `AttachPlan.OrderFreeExactly` | apps/api/src/modules/booking-bundles/plan-sort.ts:1-33 | the plan is the same for every order of the lines exactly when no two different ids or service types tie |
| `AttachPlan.PlanIdsDiffer` | apps/api/src/modules/booking-bundles/attach-plan.types.ts:97-141 | the ids of all orders, lines and reservations of one plan are pairwise distinct; booking, slot and approval ids are covered by `IdsNeverCollide` |
| `Calendar.YearOf` | apps/web/src/lib/scheduler-time.ts:49-54 | the year of a day number, by its defining bounds |
| `Calendar.CivilOf` | apps/web/src/lib/scheduler-time.ts:49-54 | the date of a day number is valid and has that day number |
| `Calendar.CivilRoundTrip` | apps/web/src/lib/scheduler-time.ts:42-46 | dates and day numbers are inverse, leap days included |
| `Calendar.ValidExactly` | apps/web/src/lib/scheduler-time.ts:42-46 | the valid dates are the days of the twelve months, lengths and leap rule written out |
| `Calendar.DaysFollowTheCalendar` | apps/web/src/lib/scheduler-time.ts:42-46 | day 0 is 1 January 1970 and one day later is the next date by those lengths, which fixes the date of every day |
| `Calendar.DateTextRoundTrip` | apps/web/src/lib/scheduler-time.ts:49-54 | a printed date reads back exactly when its year has four digits |
| `Calendar.DateTextReads` | apps/web/src/lib/scheduler-time.ts:49-54 | where a printed date shows its year, month and day |
| `Calendar.DateTextInjective` | apps/web/src/lib/scheduler-time.ts:49-54 | different dates print differently |
| `Calendar.ParseExactly` | apps/web/src/lib/scheduler-time.ts:43 | what is read as a date and as which one: ten characters, two dashes, digits, a valid date |
| `LocalTime.UtcOfExisting` | apps/web/src/lib/scheduler-time.ts:78-81 | an existing wall time resolves to the first instant that shows it |
| `LocalTime.UtcIsMonotone` | apps/web/src/lib/scheduler-time.ts:60-64 | where no wall time is skipped, later wall times are later instants |
| `LocalTime.SettersShowTheTime` | apps/web/src/lib/scheduler-time.ts:78-81 | where the wanted wall time is shown, each setter makes the clock show exactly it |
| `LocalTime.JsDate.SetHours` | apps/web/src/lib/scheduler-time.ts:79 | moves to that hour of the local day |
| `LocalTime.JsDate.SetMinutes` | apps/web/src/lib/scheduler-time.ts:80 | moves the wall clock by the difference, overflow included |
| `LocalTime.JsDate.SetDate` | apps/web/src/lib/scheduler-time.ts:44 | moves the wall clock by whole days, across months and years |
| `SchedulerTime.ColumnsPerDay` | apps/web/src/lib/scheduler-time.ts:127-133 | at least one column, and the last one starts before the day ends although the count is rounded |
| `SchedulerTime.ColumnsAreNearest` | apps/web/src/lib/scheduler-time.ts:132 | the count is the nearest one, halves up, never below one |
| `SchedulerTime.CellToIso` | apps/web/src/lib/scheduler-time.ts:66-82 | the Date object ends at the specified instant, clamping and unreadable dates included |
| `SchedulerTime.IsoToCell` | apps/web/src/lib/scheduler-time.ts:93-120 | answers the specified cell, null or NaN |
| `SchedulerTime.RoundTripExactly` | apps/web/src/lib/scheduler-time.ts:66-120 | a cell comes back exactly when the zone shows its instant on its date and within its minutes |
| `SchedulerTime.CellShowsItsTime` | apps/web/src/lib/scheduler-time.ts:56-82 | at the instant of a cell the clock shows its date, at day start plus the cells before it |
| `SchedulerTime.CellsAreClamped` | apps/web/src/lib/scheduler-time.ts:74-77 | cells outside the window are taken at its edges |
| `SchedulerTime.RoundTrip` | apps/web/src/lib/scheduler-time.ts:66-133 | with the computed column count every cell whose wall times are not skipped comes back |
| `SchedulerTime.AnswerIsTheCell` | apps/web/src/lib/scheduler-time.ts:93-120 | an instant gets a cell exactly when its date and wall-clock minute lie in it |
| `SchedulerTime.NoCellExactly` | apps/web/src/lib/scheduler-time.ts:101-108 | null for an invalid instant; NaN exactly for a listed date whose year has not four digits |
| `SchedulerTime.CellsAscend` | apps/web/src/lib/scheduler-time.ts:66-82 | over ascending dates without a gap, later cells are strictly later instants, end boundary included |
| `SchedulerTime.SkippedCell` | apps/web/src/lib/scheduler-time.ts:56-65 | whatever the offset and the length of the jump, a cell that starts in the skipped stretch comes back exactly when cells are longer than it, in whole minutes |
| `SchedulerTime.SkippedHalfHour` | apps/web/src/lib/scheduler-time.ts:56-65 | on any date with a change from 02:00 to 03:00, the 02:00 half hour of a full-day board does not come back |
| `SchedulerTime.ShiftDate` | apps/web/src/lib/scheduler-time.ts:42-46 | prints the date the Date object ends on |
| `SchedulerTime.ShiftIsExact` | apps/web/src/lib/scheduler-time.ts:42-54 | from a date whose midnight is shown, a shift lands on the calendar day exactly when that day's own midnight settles on it |
| `SchedulerTime.ShiftOverASkippedDay` | apps/web/src/lib/scheduler-time.ts:42-46 | in a zone that skips a whole day, the day before shifted by one is the day after |
| `SchedulerTime.EveryMidnightShown` | apps/web/src/lib/scheduler-time.ts:42-46 | zones that show every midnight keep all shifts on the calendar |
| `SchedulerTime.DatesKept` | apps/web/src/lib/scheduler-time.ts:42-46 | so do zones that skip midnights without carrying a wall time to another date |
| `SchedulerTime.ShiftsAddUp` | apps/web/src/lib/scheduler-time.ts:42-54 | a shift by a then b is a shift by a+b exactly when the date in between has a four-digit year |
| `SchedulerTime.ShiftByZero` | apps/web/src/lib/scheduler-time.ts:42-46 | shifting by zero is the identity exactly on dates the code would print |
| `SchedulerTime.ShiftByOne` | apps/web/src/lib/scheduler-time.ts:42-46 | shifting by one is the next date of the calendar |
| `SchedulerTime.ShiftOfNothing` | apps/web/src/lib/scheduler-time.ts:42-54 | an unreadable date gives the text of an invalid date |
| `SchedulerTime.WeekIsConsecutive` | apps/web/src/lib/scheduler-time.ts:136-142 | all seven dates are the anchor's day plus 0 to 6, pairwise distinct, and read back to those ascending day numbers |
| `KioskQueue.OfflineQueue.EnqueueCheckin` | apps/web/src/lib/kiosk-offline-queue.ts:65-83 | appends under a fresh id, or changes nothing when the store fails |
| `KioskQueue.OfflineQueue.ListQueued` | apps/web/src/lib/kiosk-offline-queue.ts:85-97 | the store in id order, or nothing on a read failure |
| `KioskQueue.OfflineQueue.RemoveQueued` | apps/web/src/lib/kiosk-offline-queue.ts:99-113 | removes exactly that id, or nothing on a failure |
| `KioskQueue.OfflineQueue.FlushQueue` | apps/web/src/lib/kiosk-offline-queue.ts:123-159 | drains the store as specified; reports zero remaining without a token or when the store cannot be read |
| `KioskQueue.FlushConserves` | apps/web/src/lib/kiosk-offline-queue.ts:123-159 | remaining + flushed + dropped equals the initial count plus the failed deletes |
| `KioskQueue.FlushCounts` | apps/web/src/lib/kiosk-offline-queue.ts:142-149 | `flushed` counts exactly the answers from 200 to 299 and `dropped` those from 400 to 499 |
| `KioskQueue.FinalRange` | apps/web/src/lib/kiosk-offline-queue.ts:142-150 | the answers that end an item are 200 to 299 and 400 to 499 |
| `KioskQueue.FlushEmptiesTheStore` | apps/web/src/lib/kiosk-offline-queue.ts:123-159 | a flush whose posts are all answered and deleted empties the store and answers everything; without a token it does nothing |
| `KioskQueue.FlushAttemptsAPrefix` | apps/web/src/lib/kiosk-offline-queue.ts:129-155 | posts a prefix of the snapshot and stops exactly at the first network failure |
| `KioskQueue.FlushRemovesAnswered` | apps/web/src/lib/kiosk-offline-queue.ts:142-150 | exactly the answered items with a working delete leave the store |
| `KioskQueue.AnsweredInOrder` | apps/web/src/lib/kiosk-offline-queue.ts:129-155 | the answered items are the front of the snapshot exactly when no server error was overtaken |
| `KioskQueue.FirstInFirstAnswered` | apps/web/src/lib/kiosk-offline-queue.ts:123-159 | over any run of enqueues and clean flushes, answered then queued items are all items in enqueue order |
| `KioskQueue.NothingIsLost` | apps/web/src/lib/kiosk-offline-queue.ts:65-159 | in every interleaving of enqueues and overlapping flushes each stored item is still queued or was answered 2xx or 4xx |
| `KioskQueue.NothingIsEverLost` | apps/web/src/lib/kiosk-offline-queue.ts:65-159 | in particular in every run of an empty device |
| `KioskQueue.AloneItDrains` | apps/web/src/lib/kiosk-offline-queue.ts:129-155 | the interleaved steps of a flush that runs alone leave the store as `FlushQueue` does |
| `KioskQueue.EndedIsSilent` | apps/web/src/lib/kiosk-offline-queue.ts:151-154 | a flush that met a network failure, or whose page died, makes no further move |
| `KioskQueue.AnsweredAgainExactly` | apps/web/src/lib/kiosk-offline-queue.ts:123-159 | from any state, a stored item can be answered (again) exactly when it is still stored or ahead of a running flush, and then with a 2xx |
| `KioskQueue.OverlapCanPostTwice` | apps/web/src/lib/kiosk-offline-queue.ts:123-159 | a run in which two overlapping flushes both have one item accepted |
| `ApprovalCompiler.Compile` | apps/api/src/modules/approval/approval-config-compiler.service.ts:107-202 | succeeds exactly on valid configs; each refusal says what is wrong, and of the entries the first bad one; a success asks the named persons and teams in their order under the given or defaulted threshold |
| `ApprovalCompiler.SameGraphExactly` | apps/api/src/modules/approval/approval-config-compiler.service.ts:155-195 | two valid configs compile to one graph exactly when they list the same approvers in order and ask for the same threshold, an absent one being `all` |
| `ApprovalWorkflow.Moves` | apps/api/src/modules/workflow/workflow-engine.service.ts:1179-1210 | the engine's edge choice on a compiled graph: trigger to approval, each decision to its own end node |
| `ApprovalWorkflow.EngineInvHolds` | apps/api/src/modules/workflow/workflow-engine.service.ts:1537-1694 | in every run worker, status, node and inserted rows fit together, and each row asks the approver of its place under the threshold of the config |
| `ApprovalWorkflow.SetupWaits` | apps/api/src/modules/workflow/workflow-engine.service.ts:1537-1694 | left alone, the engine asks every approver once, in order, and then waits |
| `ApprovalWorkflow.RepliesSayWhatHappened` | supabase/migrations/00426_grant_booking_approval_v3_outbox_emit_signature_fix.sql:140-331 | every reply of a grant by its exact condition, what it changed, and the number of rows that still stand in the way |
| `ApprovalWorkflow.CompletesExactly` | apps/api/src/modules/workflow/workflow-engine.service.ts:1987-2086 | in every run, the instance can finish exactly when a delivery claimed it and its worker lived, at the end node of that decision |
| `ApprovalWorkflow.CompletedIsFinal` | apps/api/src/modules/workflow/workflow-engine.service.ts:1737-1747 | a completed instance never moves again, so both end nodes are never reached |
| `ApprovalWorkflow.KilledNeverCompletes` | apps/api/src/modules/workflow/workflow-engine.service.ts:2007-2024 | once the claiming worker died, no continuation completes the instance |
| `ApprovalWorkflow.FirstEventIsTheVerdict` | supabase/migrations/00426_grant_booking_approval_v3_outbox_emit_signature_fix.sql:189-420 | in every run, the first event is the verdict of the rule exactly when the threshold is `any`, the decision a rejection, or all rows were inserted |
| `ApprovalWorkflow.VerdictIsStable` | apps/api/src/modules/approval/event-types.ts:31-32 | later answers never change a verdict |
| `ApprovalWorkflow.RunFollowsTheRule` | apps/api/src/modules/approval/event-types.ts:31-32 | in every orderly run, whatever crashes and redeliveries, events, booking and end node are those of the rule, with at most one event |
| `ApprovalMeaning.CompilationPreservesMeaning` | apps/api/src/modules/approval/approval-config-compiler.service.ts:107-202 | for every valid JSON config and every orderly run of the graph compiled from it: rows ask the listed approvers in order; events, booking and end node are those of the all/any rule read off the config; and a verdict is never stuck unless the claiming worker was killed |
| `ApprovalWorkflow.NeverStuckOnceResolved` | apps/api/src/modules/outbox/handlers/workflow-approval-granted.handler.ts:90-200 | after a verdict, one delivery and two engine writes reach its end node exactly when the claiming worker was not killed |
| `ApprovalWorkflow.AlreadyResolvedIsDead` | supabase/migrations/00426_grant_booking_approval_v3_outbox_emit_signature_fix.sql:263-283 | in orderly runs that branch is never taken |
| `ApprovalRaces.RowsAreFinal` | supabase/migrations/00426_grant_booking_approval_v3_outbox_emit_signature_fix.sql:234-261 | an answered or expired row keeps its status in every run |
| `ApprovalRaces.UnlockedAnswerIsTheLockedOne` | supabase/migrations/00426_grant_booking_approval_v3_outbox_emit_signature_fix.sql:122-157 | the early answer from the unlocked read is what the locked body would answer at any later time |
| `ApprovalRaces.SilentExactlyWhenQuiet` | supabase/migrations/00426_grant_booking_approval_v3_outbox_emit_signature_fix.sql:285-420 | a resolved chain can emit again exactly when a row is pending or still to be inserted |
| `ApprovalRaces.EarlyApprovalDecidesAlone` | apps/api/src/modules/workflow/workflow-engine.service.ts:1584-1634 | one approval given while rows are still inserted confirms an `all` booking |
| `ApprovalRaces.EarlyDeliveryIsLost` | apps/api/src/modules/workflow/workflow-engine.service.ts:1679-1694 | in every run a delivery that finds the instance not waiting changes nothing, and if nobody had claimed it no continuation without another delivery completes it |
| `ApprovalRaces.EarlyEventIsReachable` | apps/api/src/modules/workflow/workflow-engine.service.ts:1584-1634 | for every config and decision such an early event is reachable |
| `ReclassifyPreview.PreviewHook.Effect` | apps/web/src/hooks/use-reclassify.ts:78-97 | the effect body on the hook's state |
| `ReclassifyPreview.PreviewHook.SetInputs` | apps/web/src/hooks/use-reclassify.ts:96-97 | cleanup of the old request, then the effect, only when an input changed |
| `ReclassifyPreview.PreviewHook.Refresh` | apps/web/src/hooks/use-reclassify.ts:97-99 | a refetch cancels the old request and starts another |
| `ReclassifyPreview.PreviewHook.OnSettled` | apps/web/src/hooks/use-reclassify.ts:91-94 | data or error of a live request only |
| `ReclassifyPreview.PreviewHook.OnFinally` | apps/web/src/hooks/use-reclassify.ts:95 | loading off for a live request only |
| `ReclassifyPreview.SupersededNeverSpeaks` | apps/web/src/hooks/use-reclassify.ts:84-96 | in every run, callbacks of any but the latest-started request change nothing shown |
| `ReclassifyPreview.FetchesExactly` | apps/web/src/hooks/use-reclassify.ts:78-99 | a new pair of inputs starts a request exactly when both are given, else clears; a refetch starts another for the same inputs |
| `ReclassifyPreview.MountFetchesExactly` | apps/web/src/hooks/use-reclassify.ts:73-97 | a hook mounts empty and is loading exactly when both inputs are given |
| `ReclassifyPreview.LiveAnswerIsTaken` | apps/web/src/hooks/use-reclassify.ts:91-95 | the answer to the live request is shown as it is, and its `finally` ends loading |
| `ReclassifyPreview.LiveMeansLoading` | apps/web/src/hooks/use-reclassify.ts:85-95 | while a request is live, loading is on exactly until it is done |
| `ReclassifyPreview.ShownIsTheLatest` | apps/web/src/hooks/use-reclassify.ts:69-101 | settled data is the response of the latest-started request, made for the current inputs |
| `ReclassifyPreview.LoadingSticksExactly` | apps/web/src/hooks/use-reclassify.ts:79-83 | emptying the inputs leaves loading on for good exactly when the request had not finished |
| `DebouncedSave.DebouncedHook.Rerender` | apps/web/src/hooks/use-debounced-save.ts:13-30 | cleanup and effect run only when value or delay changed; the newest callback always counts |
| `DebouncedSave.DebouncedHook.Effect` | apps/web/src/hooks/use-debounced-save.ts:19-29 | skips the first run, otherwise replaces the timer |
| `DebouncedSave.DebouncedHook.OnTimeout` | apps/web/src/hooks/use-debounced-save.ts:25 | saves the captured value through the newest callback |
| `DebouncedSave.AtMostOnePending` | apps/web/src/hooks/use-debounced-save.ts:24-28 | in every run at most one timeout is pending, and none after unmount |
| `DebouncedSave.RenderIsTaken` | apps/web/src/hooks/use-debounced-save.ts:13-29 | a render's value, delay and callback are taken; a change restarts the one timeout with them, anything else leaves it |
| `DebouncedSave.ChangeCountIsTheirNumber` | apps/web/src/hooks/use-debounced-save.ts:29 | changes are counted one by one |
| `DebouncedSave.SaveIsCurrentAndSettled` | apps/web/src/hooks/use-debounced-save.ts:6-8 | a firing timeout saves the current value through the newest callback after a full delay without change |
| `DebouncedSave.OneSavePerChange` | apps/web/src/hooks/use-debounced-save.ts:7-8 | at most one save per change, so none for the mount value alone |
| `DebouncedSave.NoEditIsLost` | apps/web/src/hooks/use-debounced-save.ts:19-29 | while mounted, the current value is pending or was the last thing saved |
| `DebouncedSave.SavesAreApart` | apps/web/src/hooks/use-debounced-save.ts:13-30 | with a fixed delay consecutive saves are at least that delay apart |
| `DebouncedSave.SilentAfterUnmount` | apps/web/src/hooks/use-debounced-save.ts:26-28 | nothing fires after unmount |
| `DebouncedSave.UnmountDropsThePendingSave` | apps/web/src/hooks/use-debounced-save.ts:26-28 | unmounting drops exactly a pending save |
| `DebouncedSave.DelayChangeSavesTheMountValue` | apps/web/src/hooks/use-debounced-save.ts:29 | a change of the delay alone saves the mount value |
| `Permissions.NormaliseIdempotent` | packages/shared/src/permissions.ts:584-592 | normalising twice is normalising once |
| `Permissions.ExpandGranted` | packages/shared/src/permissions.ts:666-688 | exactly the catalog keys that match, each once, ascending |
| `Permissions.CharLeExactly` | packages/shared/src/permissions.ts:687 | the order of the result: prefix first, otherwise the first difference |
| `Permissions.MatchesIsGrants` | packages/shared/src/permissions.ts:648-659 | a catalog key matches exactly through one of its four grants |
| `Permissions.MatchesExactly` | packages/shared/src/permissions.ts:648-659 | anything without two parts matches nothing; otherwise the first two parts and the four grants decide |
| `Permissions.SecondPartExactly` | packages/shared/src/permissions.ts:650 | the second part of a split: up to the next dot, or all |
| `Permissions.ExpansionDistributes` | packages/shared/src/permissions.ts:666-688 | expanding a concatenation is the union |
| `Permissions.ExpansionIdempotent` | packages/shared/src/permissions.ts:666-688 | expanding an expansion gives it back |
| `Permissions.IsKnownSomewhere` | packages/shared/src/permissions.ts:610-616 | the module loop finds the action exactly when some module knows it |
| `Permissions.AcceptedIffItExpands` | packages/shared/src/permissions.ts:598-641 | accepted exactly when it expands to something, except precisely the permissions that name an inherited property |
| `Permissions.RefusedExactly` | packages/shared/src/permissions.ts:628-641 | malformed, unknown module and unknown action, each by its exact condition |
| `Permissions.LowerInherited` | packages/shared/src/permissions.ts:598-601 | of the inherited names only `constructor` and `__proto__` can occur |
| `Permissions.ThrowsExactly` | packages/shared/src/permissions.ts:617-622 | validation throws exactly on a concrete action of an inherited resource name |
| `Permissions.InheritedActionIsAccepted` | packages/shared/src/permissions.ts:617-622 | `constructor` is accepted on every module and grants nothing |
| `CatalogTree.Flattener.Walk` | apps/web/src/components/request-type-picker.tsx:39-55 | pushes the sibling-sorted preorder groups of the subtree after what was there |
| `CatalogTree.FlattenTree` | apps/web/src/components/request-type-picker.tsx:37-61 | the walk equals plain preorder of the tree with every sibling list sorted |
| `CatalogTree.FlatteningSorts` | apps/web/src/components/request-type-picker.tsx:45-59 | the walked tree ascends by display order, then name; every group is that of one place of the tree, under the names from the root, with exactly its request types in that order; and every place with request types has its group |
| `CatalogTree.FlatteningPermutes` | apps/web/src/components/request-type-picker.tsx:37-61 | one group per category with request types under its root path; items are all request types, as often as listed |
| `CatalogTree.FindIsFirstInPreorder` | apps/web/src/components/request-type-picker.tsx:97-106 | the scoped search finds the first category with that id in preorder, and only misses when there is none |
| `CatalogTree.ScopedExactly` | apps/web/src/components/request-type-picker.tsx:94-107 | no scope or an empty one is the whole tree; otherwise the first category with the id, or nothing |
| `CatalogTree.ExclusionIsExact` | apps/web/src/components/request-type-picker.tsx:109-116 | removes exactly the excluded ids, keeps order, leaves no empty group |
| `CatalogTree.PickerOffersExactly` | apps/web/src/components/request-type-picker.tsx:94-116 | every item is offered as often as the catalog lists it under the scope, and not at all when excluded; no empty group |
| `ErrorPipeline.ExtractExactly` | apps/api/src/common/errors/map-rpc-error.ts:443-449 | a code is extracted exactly from that two-segment code followed by a tail |
| `ErrorPipeline.ThreeSegmentsNeverExtracted` | apps/api/src/common/errors/map-rpc-error.ts:443-449 | of a three-segment code only the first two are extracted |
| `ErrorPipeline.BuildBody` | apps/api/src/common/errors/normalize.ts:143-231 | the body field by field: fail-closed code and status, curated copy, scrubbed override and fields |
| `ErrorPipeline.RegisteredRaise` | apps/api/src/common/errors/map-rpc-error.ts:456-560 | a registered code with any tail goes out as that code with curated copy and its table status where the mapping handles it |
| `ErrorPipeline.ConflictCarriesVersions` | apps/api/src/common/errors/map-rpc-error.ts:501-537 | a version conflict carries the versions of its raise detail, and none without one; no error is the fallback |
| `ErrorPipeline.TailsDoNotShow` | apps/api/src/common/errors/map-rpc-error.ts:484-494 | raises that differ only in the tail give identical bodies |
| `ErrorPipeline.RawMessageShowsExactly` | apps/api/src/common/errors/map-rpc-error.ts:466-479 | the raw message shows exactly when the code is unrecognised and the text is neither empty nor caught |
| `ErrorPipeline.ThreeSegmentRaiseShows` | apps/api/src/common/errors/map-rpc-error.ts:466-479 | so a three-segment raise shows its message unless its prefix is registered |
| `ErrorPipeline.NothingLeaks` | apps/api/src/common/errors/normalize.ts:451-495 | whatever is thrown, the wire code is registered and the detail is curated, or explicit and not caught as a leak |
| `ErrorPipeline.UnregisteredGoesOutAsUnknown` | apps/api/src/common/errors/normalize.ts:154-172 | an unregistered code goes out as the unknown error, 500, without its detail |
| `ErrorPipeline.StatusOfThrown` | apps/api/src/common/errors/normalize.ts:451-495 | wire status and code of everything thrown, and the branch a database error takes |
| `ErrorPipeline.NativeStatusExactly` | apps/api/src/common/errors/normalize.ts:381-435 | which SQLSTATEs give 403, 409, 400, and 500 for the rest |
| `ErrorPipeline.NativeCodeExactly` | apps/api/src/common/errors/normalize.ts:381-435 | which SQLSTATEs give which wire code |
| `ErrorPipeline.PostgrestExactly` | apps/api/src/common/errors/normalize.ts:335-353 | which PostgREST codes give which wire code and status |
| `ErrorPipeline.GenericExactly` | apps/api/src/common/errors/normalize.ts:233-252 | the generic code of every HTTP status |
| `ErrorPipeline.FieldsAreKept` | apps/api/src/common/errors/normalize.ts:191-205 | every given field entry keeps field and code; a clean message stays and a leaky one becomes the placeholder |
| `ErrorPipeline.ShoutRuns` | apps/api/src/common/errors/normalize.ts:199-202 | the placeholder run by run: words in upper case, one underscore between |
| `FormatRef.RefRoundTrip` | apps/web/src/lib/format-ref.ts:23-50 | a reference parses back to its kind and number in any letter case and padding |
| `FormatRef.RefText` | apps/web/src/lib/format-ref.ts:14-26 | the printed references, spelled out |
| `FormatRef.AcceptedExactly` | apps/web/src/lib/format-ref.ts:43-50 | what is accepted and as what: a known prefix, a dash and digits, after trimming and upper-casing |
| `FormatRef.RefsAreInjective` | apps/web/src/lib/format-ref.ts:23-26 | different kinds or numbers print differently |
| `FormatRef.ReprintIsCanonical` | apps/web/src/lib/format-ref.ts:43-50 | reprinting an accepted reference gives it trimmed, upper case, without leading zeros |
| `FormatRef.TicketRefRoundTrip` | apps/web/src/lib/format-ref.ts:29-36 | ticket references round-trip, a missing kind as a case |
| `FormatRef.DashIsNotARef` | apps/web/src/lib/format-ref.ts:23-26 | the dash for a missing number never parses |
| `DeliveryStatus.WebhookStore.Ingest` | apps/api/src/common/mail/mail-webhook.controller.ts:107-241 | audit row first, then the status and error columns of the addressed list only |
| `DeliveryStatus.WebhookStore.HandleBatch` | apps/api/src/common/mail/mail-webhook.controller.ts:82-99 | counts the events that went through; a failing one stops nothing |
| `DeliveryStatus.ProcessedAreFine` | apps/api/src/common/mail/mail-webhook.controller.ts:84-99 | the count is the number of events that went through |
| `DeliveryStatus.AuditedAreStored` | apps/api/src/common/mail/mail-webhook.controller.ts:112-132 | the audit holds every event whose first call went through, as often as it came |
| `DeliveryStatus.RowsAreIndependent` | apps/api/src/common/mail/mail-webhook.controller.ts:226-240 | however lists interleave in a batch, each row is the fold of its own events |
| `DeliveryStatus.StatusFollowsTheRule` | apps/api/src/common/mail/mail-webhook.controller.ts:208-241 | the first delivered, bounced or complained event decides, else any failure, else nothing |
| `DeliveryStatus.ReplaysAreHarmless` | apps/api/src/common/mail/mail-webhook.controller.ts:222-231 | whatever follows a prefix that reached a final status leaves that status |
| `DeliveryStatus.OrderFreeExactly` | apps/api/src/common/mail/mail-webhook.controller.ts:222-231 | every order of the events gives the same status exactly when not both outcomes occur |
| `DeliveryStatus.ErrorIsTheLast` | apps/api/src/common/mail/mail-webhook.controller.ts:232-238 | the error is the reason of the last failure event, a complaint clears it, and without any it keeps its old value |
| `DeliveryStatus.LateBounceOnDelivered` | apps/api/src/common/mail/mail-webhook.controller.ts:224-238 | a late bounce keeps a delivered status and overwrites the error |

## Left out

- React rendering, routing, markup, theming and toasts; Supabase, Postgres and fetch themselves; guards and tenant middleware. Their answers are parameters or environment steps.
- UUIDv5 (section 5.5 of RFC 9562), md5, Svix signatures: a name-based UUID is an injective function with colon-free results, and a payload hash stands for its payload.
- Error-code lists, message tables, the permission catalog and its role templates: parameters. `GoodCatalog` says what the permission catalog's own data satisfies (plain distinct names, no empty module).
- Leak-detection regular expressions: an arbitrary predicate. The wire body's `docsUrl` and `retryAfter` are carried but no raise sets them.
- Case folding covers ASCII letters only, so characters outside ASCII that fold to ASCII letters are not modelled (`Permissions`, `FormatRef`).
- Numbers of 2^53 and above: `Number` is some rounding that is exact below.
- Parsing of date texts outside the ISO date format, which engines may accept each in their own way: unreadable here.
- `localeCompare`: any total preorder, so locale rules are not modelled and ties between different strings are allowed.
- Workflow node types other than trigger, approval and end, the legacy single-approver node, dry runs, and bookings with several approval chains at once.
- `cancelInstance` and its cascade: no run of the approval model contains a cancelled instance, so "in every run" there means every run without a cancellation.
- Failures of an approval-row insert: the engine then stops, which the runs cover as a worker that dies.
- ApprovalWorkflow.RunFollowsTheRule: assumes that grants find the instance waiting, because without that the rule fails; `FirstEventIsTheVerdict` and `SilentExactlyWhenQuiet` say exactly when.
- Service-rule resolution, approval aggregation and setup hints of the booking plan, and its second uniqueness check per service type, which the first one makes unreachable. Other columns of a line travel unchanged as `details`.
- Outlook event ids and user ids with a colon in them: `RequestsNeverShareIds` takes them as colon-free; `KeysShareExactly` covers all keys.
- The order in which a plan's slots and approvals are sorted; only their ids are modelled.
- React's development double-invocation of effects.
- Correlating a mail event to its list: the list is part of the event.
