# Uptimeflow: verified models of the monitoring core

Uptimeflow probes monitors, opens and resolves incidents, tells people about them,
and wraps this in an API with plans, billing, status pages and reports. This project
models the parts of it whose correctness is a matter of state and algorithms, and
proves what they promise over all inputs, all runs or all interleavings.
`dafny verify dfyconfig.toml` checks everything.

**Monitor and incident lifecycle.** `StateMachine` is the debounced health machine.
`HealthHistory` shows what its counters mean: the health of a monitor is a property of
its whole check history, and the number of outages it reports is bounded, tightly, by
the number of checks. `MonitorHistory` extends this to maintenance, pauses and resumes,
and to the whole row. `Lifecycle` gives every serialized operation on the tables
(check, heartbeat ping, maintenance edit, pause, resume, acknowledge, manual resolve) a
meaning as a function, and class `Engine` performs the operations statement by
statement. About their runs: `IncidentAgreement` (incidents agree with health, the
dedupe key marks the unresolved ones), `DebouncedIncidents` (rows and incident counts
follow the history specification), `AlertRate` (flapping suppression is a sliding-window
bound), `AlertLog` (the alert log is determined by the incident table) and `Timeline`
(incidents are disjoint intervals, resolved once, with bounded reported downtime).
`OperationEffects` says what single operations change, and for whom.
`RegionalWorkers` splits a check into its database calls and lets any number of workers
with stale snapshots, crashes and API requests interleave; `RegionalAlertRate` bounds
the alerts of racing workers, `RegionalRecoveries` their recovery notices, and
`RegionalTraces` holds schedules in which things go wrong.

**Reconciliation and quota protocols.** `Scheduler` (one sync reaches the desired
schedulers) and `SchedulerRace` (any number of concurrent syncs amount to one), `Seats`
(invite, accept and add-member with check and insert apart), `BillingWebhook` (replay
safety and tenant separation) with `BillingEffects` (what the events leave behind) and `Subscribers` (double opt-in).

**Algorithms.** `Pagination` (keyset walks over a changing table), `IsoWeek` and
`Analytics` over `Grouping` (week keys and daily roll-ups), `JsonLd` with
`JsonLdRoundTrip` (escaping after serialization, undone by an RFC 8259 reader) and `Csv`
(printing, undone by an RFC 4180 reader). `FirstSeenOrder`, `Sequences` and `Wrappers`
are shared.

Where the code does less than its documentation says, the model follows the code and
states exactly when the promise holds:

- An incident survives a pause into UP, by a resume or by a ping to the paused monitor;
  `RunAgreement` says after which runs a monitor that is up has an unresolved incident,
  and `PausedOutageTrace` is one of them. Among interleaved checks, a
  snapshot older than the outage and a crash before the resolve leave it open too:
  `StaleCheckIff` and `CrashedCheckIff` say exactly when (`StaleSuccessHappens`,
  `StaleFailureHappens`, `CrashedRecoveryHappens`).
- An acknowledge whose write comes after a resolve leaves an unresolved incident without
  the dedupe key (`AcknowledgeWriteIsSafeIff`, `StaleAcknowledgeHappens`).
- `packages/monitoring/src/pipeline.ts:335-342` says that opening mirrors resolving, but
  the recovery of an outage suppressed as flapping is still announced if a scheduled check
  ends it (`UnannouncedRecoveries`). Conversely, the recovery of an announced outage is
  announced to nobody if a ping or a person ends it: the ingest route
  (`apps/api/src/routes/heartbeats.ts:29`) passes no alert dispatcher (`SilentRecovery`).
  `AlertsFollowIncidents` covers every run.
- The recovery of one incident can be announced by several workers at once
  (`RecoveryNoticeBound`, `RepeatedRecoveriesHappen`).
- The flapping count is read before the incident is created, so k workers at once can
  announce k - 1 more than the threshold allows (`RacingAlertBound`,
  `RacingAlertsHappen`).
- `apps/api/src/services/plan-limits.service.ts:165-172` says that only invites raise
  members plus pending invitations; adding a member directly does too, and its gate looks
  at members only (`DirectAddIsSafeIff`, `DirectAddHappens`).
- `apps/api/src/services/billing-webhook.service.ts:25-32` says that "duplicate" means
  already applied; every unique violation is answered so (`DuplicateMeansSeenIff`).
- Unsubscribing does not withdraw an unused verification link
  (`UnsubscribeLeavesLinkIff`).
- The week number is wrong for the years 0 to 99 (`WeekInRangeIff`), though keys still
  tell weeks apart.
- A CSV of a single column loses an empty last cell (`CsvRoundTrip`).

Functions carry the names of the code they model and have no contract of their own
unless the table lists them; what they compute is stated by the lemmas and methods below.

## Model

| member | source | states |
|---|---|---|
| HealthHistory.HealthIsHistory | packages/monitoring/src/state-machine.ts:75-117 | From a new monitor and outside maintenance, the machine is DOWN or RECOVERING exactly when the history holds a block of failureThreshold failures with no later block of successThreshold successes (told apart by the last check), PENDING exactly before the first success and the failureThreshold-th check; the counters are the lengths of the trailing runs |
| HealthHistory.DebounceBound | packages/monitoring/src/state-machine.ts:79-108 | n checks ask for k incidents only if k * (failureThreshold + successThreshold) <= n + successThreshold |
| HealthHistory.DebounceBoundIsTight | packages/monitoring/src/state-machine.ts:79-108 | For every k and all thresholds there is a history that attains the bound |
| MonitorHistory.RowIsHistory | packages/monitoring/src/state-machine.ts:75-117 | In every serialized run, with maintenance, pauses and resumes anywhere, a monitor's mode, health, counters, time stamp, settings, check log and windows are what the operations alone say: DOWN or RECOVERING exactly in an outage confirmed since the last maintenance check, pause or resume (failures before it count, except before a resume), MAINTENANCE, PAUSED and PENDING exactly where these apply, the counters being the trailing runs since the last resume, through maintenance and pauses |
| MonitorHistory.FailingAfterMaintenance | packages/monitoring/src/state-machine.ts:99-102 | When all checks since the last one in maintenance have failed, the monitor is DOWN with its incident if these and the failures before them make failureThreshold in a row, and otherwise UP with nothing unresolved |
| MonitorHistory.SuppressedIsMaintenance | packages/monitoring/src/pipeline.ts:108-119 | A check is in maintenance exactly if some window that suppresses alerts names the monitor and contains the time, ends included |
| DebouncedIncidents.IncidentsAreDebounced | packages/monitoring/src/pipeline.ts:247-417 | In every serialized run without maintenance and without pauses of this monitor, it is down or recovering exactly in a standing outage of its check history, has had exactly one incident row per outage the history reports (whatever is resolved by hand), and so satisfies the debounce bound |
| IncidentAgreement.RunAgreement | packages/monitoring/src/pipeline.ts:301-404 | In every serialized run, and for each monitor on its own: at most one unresolved incident, and the unresolved ones are the key holders; down or recovering means exactly one if and only if every manual resolve of its incident during an outage was followed by the end of that outage; up or pending means none if and only if every pause or resume during an outage was followed by a manual resolve, a confirmed failure or a check in maintenance |
| IncidentAgreement.CleanStepIff | packages/monitoring/src/pipeline.ts:301-404 | After any operation an up or pending monitor has no unresolved incident if and only if the operation was not a pause or resume of it during an outage, and it had none before or the operation mends that |
| IncidentAgreement.CoveredStepIff | packages/monitoring/src/pipeline.ts:301-404 | After any operation a down or recovering monitor has its incident if and only if the operation did not resolve it by hand, and it had one before or the outage ended |
| IncidentAgreement.UndisturbedAgreement | packages/monitoring/src/pipeline.ts:301-404 | Without manual resolves, down or recovering means exactly one unresolved incident in every run; for a monitor that nobody pauses or resumes, up or pending means none, whatever happens to the others |
| IncidentAgreement.PauseStrandsIncident | apps/api/src/services/monitor.service.ts:680-733 | The plainest failing case: after pause, resume and a passing check the monitor is UP, with no unresolved incident if and only if there was none before the pause |
| IncidentAgreement.PausedOutageTrace | packages/monitoring/src/pipeline.ts:424-444 | A failing check, a pause and a ping: a new heartbeat monitor ends UP with an unresolved incident, without any resume |
| AlertRate.AlertRateBound | packages/monitoring/src/flapping.ts:15-27 | In every serialized run, every closed window of FLAP_WINDOW_MS holds at most FLAP_THRESHOLD unsuppressed "opened" dispatches of a monitor, even if the clock runs backwards |
| AlertLog.AlertsFollowIncidents | packages/monitoring/src/pipeline.ts:307-397 | An incident is announced as opened exactly once unless three incidents of its monitor had started in the 30 minutes before it, and then never; its recovery is announced exactly once if a scheduled check resolved it, and never if it is unresolved or was resolved by a ping or a person; it is resolved if and only if one of these did so; hence exactly which outages are announced as over only, or as begun only |
| AlertLog.SilentRecovery | apps/api/src/routes/heartbeats.ts:29 | A failing check and a ping: the outage of a new heartbeat monitor is announced, its recovery is not |
| AlertLog.UnannouncedRecoveries | packages/monitoring/src/pipeline.ts:335-342 | For every n, a monitor that fails and passes in turn every minute has n incidents of which the first three are announced, and the recovery of every one is |
| AlertLog.StampIsLastPing | packages/monitoring/src/pipeline.ts:285-299 | In every run a heartbeat monitor's lastCheckedAt is the time of its last ping; freshness checks never move it |
| Timeline.RunIntervals | packages/monitoring/src/pipeline.ts:211-232 | With a clock that does not run backwards, a monitor's incidents are ordered, disjoint intervals with the right duration, at most the last one unresolved |
| Timeline.DowntimeBound | apps/api/src/services/incident.service.ts:197-209 | The reported durations of a monitor's k resolved incidents add up to at most the span of the run plus 500 ms for each |
| Timeline.ResolvedIsFinal | apps/api/src/services/incident.service.ts:190-222 | Once resolved, an incident row never changes in any serialized run |
| Timeline.EventLogTellsAll | packages/monitoring/src/pipeline.ts:135-146 | In every serialized run each incident has exactly one DETECTED event, one ACKNOWLEDGED event if it was acknowledged and one RESOLVED event if it is resolved, and no other of these kinds |
| Timeline.EventTimes | packages/monitoring/src/pipeline.ts:148-232 | In every serialized run the events and alerts of an incident carry the start, acknowledge and resolve times of its row, and the alerts its monitor |
| OperationEffects.ResultTellsEffect | packages/monitoring/src/pipeline.ts:301-417 | A processed check answers "down" exactly if it opened an incident and "recovered" exactly if it resolved one, with that incident's id; it adds the DETECTED or RESOLVED event, a note for a suppressed alert or a relapse, and no other event |
| OperationEffects.AcknowledgeEffect | apps/api/src/services/incident.service.ts:159-188 | An acknowledge changes only an OPEN incident of the organization, and of that only status and time |
| OperationEffects.ManualResolveEffect | apps/api/src/services/incident.service.ts:190-223 | A manual resolve changes only an unresolved incident of the organization, and of that only status, key, time and duration |
| OperationEffects.RequestsStayInTenant | apps/api/src/services/incident.service.ts:160-164 | A pause, resume, acknowledge or manual resolve changes no row of another organization, and no checks, alerts or windows |
| OperationEffects.IncidentsBelongToTenant | packages/monitoring/src/pipeline.ts:148-184 | In every serialized run an incident belongs to the organization of its monitor |
| Engine.Engine.OpenIncident | packages/monitoring/src/pipeline.ts:148-184 | Inserts an open row holding the key and its DETECTED event, or nothing if the key is taken |
| Engine.Engine.ResolveIncident | packages/monitoring/src/pipeline.ts:211-232 | Closes the unresolved incident with the latest start, frees its key and records the event; changes nothing if there is none |
| Engine.Engine.RecordCheck | packages/monitoring/src/pipeline.ts:270-299 | Appends the raw result and writes the decided state and counters, stamping the time for pings and ordinary monitors only |
| Engine.Engine.OpenAndAlert | packages/monitoring/src/pipeline.ts:307-369 | Opens an incident and announces it if there is a dispatcher, or notes the suppression when flapping |
| Engine.Engine.ResolveAndAlert | packages/monitoring/src/pipeline.ts:370-397 | Resolves the open incident and announces the recovery if there is a dispatcher |
| Engine.Engine.ProcessCheckResult | packages/monitoring/src/pipeline.ts:247-417 | The tables and the result after one processed check, with or without an alert dispatcher, are those of the specification function Process |
| Engine.Engine.CheckJob | packages/monitoring/src/processor.ts:44-68 | A scheduled check processes active monitors from a fresh row and skips all others |
| Engine.Engine.RecordHeartbeat | packages/monitoring/src/pipeline.ts:424-444 | A ping is processed as a success of a heartbeat monitor, paused or not, with its time stamped and without an alert dispatcher, and ignored for any other |
| Engine.Engine.Acknowledge | apps/api/src/services/incident.service.ts:159-188 | Acknowledges an OPEN incident of the organization and records it; anything else is left alone |
| Engine.Engine.Resolve | apps/api/src/services/incident.service.ts:190-223 | Resolves an unresolved incident of the organization, frees its key and records it; anything else is left alone |
| Engine.Engine.Pause | apps/api/src/services/monitor.service.ts:680-703 | Sets mode and health to PAUSED and keeps the counters and incidents |
| Engine.Engine.Resume | apps/api/src/services/monitor.service.ts:705-733 | Sets the monitor active and PENDING with zero counters and keeps the incidents |
| RegionalWorkers.InterleavingsKeyed | packages/monitoring/src/pipeline.ts:148-232 | In every interleaving of workers and pings with stale snapshots, crashes, non-atomic manual resolves and acknowledges that are not stale, a monitor has at most one unresolved incident and the unresolved ones are exactly the key holders |
| RegionalWorkers.AtomicAcknowledgesAreNotStale | apps/api/src/services/incident.service.ts:159-175 | A schedule whose acknowledges are atomic meets that condition |
| RegionalWorkers.UninterruptedCheck | packages/monitoring/src/pipeline.ts:247-417 | The calls of a check or ping that nobody interrupts amount to the serialized pipeline on the same snapshot, however old |
| RegionalWorkers.SerializedCheckIsRun | packages/monitoring/src/processor.ts:44-68 | So a serialized check or ping is the run of one worker that loads the row and is not interrupted |
| RegionalWorkers.SerializedAcknowledgeIsRun | apps/api/src/services/incident.service.ts:159-175 | The read and the write of an acknowledge that nothing interrupts amount to the atomic one |
| RegionalWorkers.SerializedRunIsSchedule | packages/monitoring/src/processor.ts:44-68 | Every serialized run of checks, pings, acknowledges, manual resolves and edits is a schedule of one participant |
| RegionalWorkers.StaleCheckIff | packages/monitoring/src/processor.ts:47-62 | After an uninterrupted check from a snapshot of any age, up or pending means no unresolved incident if and only if it did not decide UP or PENDING, or asked to resolve, or there was none; down or recovering means one if and only if it did not decide DOWN or RECOVERING, or asked to open, or there was one |
| RegionalWorkers.CrashedCheckIff | packages/monitoring/src/pipeline.ts:285-404 | A check that crashes between the monitor write and its first incident write agrees with the incidents if and only if its decision agrees with those there were |
| RegionalWorkers.AcknowledgeWriteIsSafeIff | apps/api/src/services/incident.service.ts:160-175 | The separate write of an acknowledge keeps the key discipline if and only if the incident is still unresolved |
| RegionalWorkers.StaleAcknowledgeForksOutage | apps/api/src/services/incident.service.ts:166-175 | From any state in which a worker is about to create, an acknowledge that reads OPEN, a manual resolve, the late write and the create leave exactly two unresolved incidents of one monitor |
| RegionalWorkers.StaleSuccessKeepsIncidents | packages/monitoring/src/processor.ts:47-62 | A success decided from a snapshot taken before the outage writes UP and leaves the unresolved incidents as they are, and no later step of that check changes them |
| RegionalTraces.StaleAcknowledgeHappens | apps/api/src/services/incident.service.ts:166-175 | A schedule of two workers and two requests from a single new monitor that ends with two unresolved incidents |
| RegionalTraces.StaleSuccessHappens | packages/monitoring/src/processor.ts:47-62 | A schedule of two workers from a single new monitor that ends UP with an unresolved incident |
| RegionalTraces.StaleFailureHappens | packages/monitoring/src/state-machine.ts:79-108 | A schedule of two workers in which a failing check below the threshold of its old snapshot ends PENDING with an unresolved incident |
| RegionalTraces.CrashedRecoveryHappens | packages/monitoring/src/pipeline.ts:285-397 | A schedule of three workers in which one crashes after writing UP, and the incident stays unresolved |
| RegionalWorkers.AnnouncedAtMostOnce | packages/monitoring/src/pipeline.ts:307-349 | In every interleaving from rest, with crashes anywhere, any two "opened" alerts in the log are for different incidents |
| RegionalAlertRate.RacingAlertBound | packages/monitoring/src/flapping.ts:15-27 | In every interleaving, if at most k workers at a time stand between reading a count below the threshold and creating the incident, every closed window of FLAP_WINDOW_MS holds at most FLAP_THRESHOLD + k - 1 "opened" alerts of the monitor, whatever their clocks |
| RegionalTraces.RacingAlertsHappen | packages/monitoring/src/pipeline.ts:307-349 | For every k there is a schedule from a single new monitor in which k workers attain that bound |
| RegionalRecoveries.RecoveryNoticeBound | packages/monitoring/src/pipeline.ts:211-232 | In every interleaving without stale acknowledges, if at most k workers at a time stand between finding an incident and resolving it, its recovery is announced at most k times, so at most once for k = 1 |
| RegionalRecoveries.RepeatedRecoveriesHappen | packages/monitoring/src/pipeline.ts:370-388 | For every k there is a schedule from a single new monitor in which k workers announce the same recovery |
| Scheduler.SchedulerIdInjective | packages/monitoring/src/scheduler.ts:38-42 | The key determines monitor and region although ids may contain colons, and carries the prefix |
| Scheduler.SyncReachesDesired | packages/monitoring/src/scheduler.ts:61-102 | From any prior state, one sync leaves in each served queue exactly one scheduler per active monitor due there (a heartbeat monitor in the default region only, any other in its regions, or the default one if it has none), every 1000 ms per second of its interval and 1000 ms at least, no other key with the prefix, and every foreign key as it was |
| Scheduler.NothingWrongMeansExact | packages/monitoring/src/scheduler.ts:61-78 | A queue without wrong keys has one scheduler with that period for each active monitor due there, and no other scheduler of a monitor |
| Scheduler.DesiredIsWanted | packages/monitoring/src/scheduler.ts:65-78 | Every desired key is monitor:<id>:<region> of an active monitor due in the region |
| Scheduler.WantedIsDesired | packages/monitoring/src/scheduler.ts:65-78 | Every active monitor due in the region has its key desired, with 1000 ms per second of its interval and 1000 ms at least |
| Scheduler.ReconcileIsIdempotent | packages/monitoring/src/scheduler.ts:90-101 | After one pass nothing is left to upsert or remove, and a second pass changes nothing |
| Scheduler.SecondSyncIsQuiet | packages/monitoring/src/scheduler.ts:83-104 | An immediate second sync reports no upserts and no removals |
| Scheduler.Scheduler.UpsertWanted | packages/monitoring/src/scheduler.ts:90-94 | Every wanted key gets its period, other keys are kept, and the count is the number of wanted keys that were missing or different |
| Scheduler.Scheduler.RemoveUnwanted | packages/monitoring/src/scheduler.ts:96-101 | Exactly the listed, prefixed, unwanted keys are removed and counted |
| Scheduler.Scheduler.CollectDesired | packages/monitoring/src/scheduler.ts:61-78 | The nested loops compute the desired map of each served region and count the active monitors |
| Scheduler.Scheduler.Sync | packages/monitoring/src/scheduler.ts:55-107 | From any prior state each served queue ends with the wanted schedulers and its foreign keys, and the summary counts the differences |
| Scheduler.ActiveCountIsCount | packages/monitoring/src/scheduler.ts:56-59 | The monitors in the summary are the active ones of the table |
| SchedulerRace.FinishedMeansExact | packages/monitoring/src/scheduler.ts:83-102 | In every interleaving of the list, upsert and remove calls of any number of instances, each serving its own regions, once an instance has finished, every queue it serves is reconciled and stays so |
| SchedulerRace.ConcurrentSyncsAreOneSync | packages/monitoring/src/scheduler.ts:44-50 | Concurrent syncs of one table by instances that serve the same or different regions leave exactly what a single sync would, once every queue is served by a finished instance |
| SchedulerRace.RunImproves | packages/monitoring/src/scheduler.ts:90-101 | The set of wrong keys of a queue never grows and foreign keys are untouched |
| SchedulerRace.UnfinishedCanGoOn | packages/monitoring/src/scheduler.ts:83-102 | An instance is finished if and only if none of its steps is enabled |
| SchedulerRace.StepsBringNearer | packages/monitoring/src/scheduler.ts:83-102 | Each step lowers a well-founded rank of its instance and changes no other instance |
| Seats.SeatsNeverOversold | apps/api/src/services/plan-limits.service.ts:165-201 | With at most k invites between check and insert, no direct adds and no invitation lapsing between accept check and insert, members plus pending never exceed the limit by more than k - 1, so for k = 1 never, in every interleaving and over plan changes |
| Seats.OvershootHappens | apps/api/src/services/plan-limits.service.ts:173-178 | k invites racing for the last seat do reach limit + k - 1 |
| Seats.AcceptIsSafeIff | packages/auth/src/seat-limits.ts:73-82 | Inserting an accepted member keeps the commitments within the limit if and only if the invitation has not lapsed or there is room |
| Seats.DirectAddIsSafeIff | packages/auth/src/seat-limits.ts:84-91 | A direct add that passes its own gate keeps the commitments within the limit if and only if an invitation would have been allowed |
| Seats.DirectAddHappens | packages/auth/src/seat-limits.ts:84-91 | For every limit, an invitation for the last seat and then a direct add are both let through and exceed it by one |
| Seats.MembersWithinLimit | apps/api/src/services/plan-limits.service.ts:151-163 | With at most j joins in flight, members never exceed the limit by more than j - 1, even with direct adds and lapsing invitations |
| Seats.InviteLetThroughIff | apps/api/src/services/plan-limits.service.ts:179-201 | An invitation is let through if and only if there is no limit or members plus waiting invitations are below it |
| Seats.JoinLetThroughIff | packages/auth/src/seat-limits.ts:73-91 | The accept of a waiting invitation, and a direct add, are let through if and only if there is no limit or the members are below it |
| Seats.SeatsGivenBack | apps/api/src/services/plan-limits.service.ts:173-187 | A lapsing invitation frees exactly one seat, and a participant that gives up holds none |
| Seats.LimitIsLastPlan | apps/api/src/services/plan-limits.service.ts:151-163 | In every run the limit in force is that of the last plan change |
| Seats.AcceptConverts | apps/api/src/services/plan-limits.service.ts:165-172 | While the commitments fit the limit, accepting a waiting invitation always succeeds: one member more, the invitation accepted, the commitments and all else unchanged |
| Seats.InvitationCanBeRedeemed | apps/api/src/services/plan-limits.service.ts:165-172 | With one invite at a time, no direct add and no shrinking plan, an inserted invitation can be redeemed at any later time until it lapses or is accepted |
| Seats.MembersBalance | packages/auth/src/seat-limits.ts:62-93 | In every run the members are those at the start, plus inserted accepts and adds, minus leaves, no invitation being accepted twice |
| BillingWebhook.ReplaysChangeNothing | apps/api/src/services/billing-webhook.service.ts:185-294 | Every sequence of deliveries has the result of its applied deliveries alone, and these all apply again when delivered alone |
| BillingWebhook.AppliedOnce | apps/api/src/services/billing-webhook.service.ts:214-232 | The applied deliveries have distinct ids not seen before, and the ledger grows by exactly these |
| BillingWebhook.RepeatCanBeDropped | apps/api/src/services/billing-webhook.service.ts:286-292 | Dropping a repeat of an applied event from any place in a sequence changes nothing |
| BillingWebhook.OutcomeTellsEffect | apps/api/src/services/billing-webhook.service.ts:199-274 | "Applied" is answered if and only if the id enters the ledger; every other answer leaves no trace |
| BillingWebhook.HandleKeepsTenantsApart | apps/api/src/services/billing-webhook.service.ts:108-122 | Stripe ids stay unique, and an event changes no row but that of the organization it resolves to |
| BillingWebhook.RunKeepsUnique | apps/api/src/services/billing-webhook.service.ts:108-122 | Stripe customer and subscription ids stay unique over every sequence of deliveries |
| BillingWebhook.UnresolvedCanApplyLater | apps/api/src/services/billing-webhook.service.ts:202-207 | An invoice event of an unknown customer is ignored without trace and is applied to the right organization when redelivered after the checkout that links the customer |
| BillingWebhook.DuplicateMeansSeenIff | apps/api/src/services/billing-webhook.service.ts:286-292 | An attributed event is answered "duplicate" if and only if its id is in the ledger or another organization holds one of its Stripe ids |
| BillingWebhook.FirstDeliveryCanBeDuplicate | apps/api/src/services/billing-webhook.service.ts:286-292 | A concrete first delivery that is answered "duplicate" and never applied |
| BillingEffects.AppliedTo | apps/api/src/services/billing-webhook.service.ts:108-122 | An applied event is ledgered for the organization of its metadata if given, else for the one that holds its customer, and changes no other row |
| BillingEffects.IgnoredIff | apps/api/src/services/billing-webhook.service.ts:185-207 | An event is ignored if and only if its type is not handled or it can be attributed to no organization |
| BillingEffects.DeletionLeaves | apps/api/src/services/billing-webhook.service.ts:173-189 | After an applied deletion the organization is CANCELED on the FREE plan, without Stripe subscription and price; all fields stated |
| BillingEffects.SubscriptionLeaves | apps/api/src/services/billing-webhook.service.ts:125-170 | After an applied created or updated subscription: plan and tier of a known price, else as before; the status of Stripe's word; every other field as given, else as before |
| BillingEffects.CheckoutLeaves | apps/api/src/services/billing-webhook.service.ts:235-255 | After an applied checkout a new row is FREE and INCOMPLETE with the given ids, and an existing one keeps all but its ids |
| BillingEffects.InvoiceLeaves | apps/api/src/services/billing-webhook.service.ts:263-268 | A paid invoice makes an existing row ACTIVE, a failed one PAST_DUE, and nothing else changes |
| BillingEffects.PlanIsLastSet | apps/api/src/services/billing-webhook.service.ts:185-294 | After every sequence of deliveries an organization's plan is that of its last applied subscription event with a known price, or FREE if a deletion was applied after it |
| BillingWebhook.Service.HandleEvent | apps/api/src/services/billing-webhook.service.ts:185-294 | The transaction keeps ledger entry and effect together or neither, as the specification function Handle says |
| BillingWebhook.Service.FindOrg | apps/api/src/services/billing-webhook.service.ts:108-122 | Metadata first, then the organization of the Stripe customer |
| Subscribers.ActiveIffConsented | apps/api/src/services/status-page.service.ts:1065-1136 | In every run of subscribe, verify and unsubscribe calls with fresh tokens, a row is ACTIVE if and only if the token generated by the subscriber's latest token-issuing subscribe was presented to verify on that page afterwards and no call with the row's unsubscribe token came after the first such presentation |
| Subscribers.NoTokenActivatesTwice | apps/api/src/services/status-page.service.ts:1107-1123 | Of the verify calls of a run that make a row ACTIVE, no two present the same token, whoever it was issued to and whatever the page |
| Subscribers.UnsubscribeTokenWorks | apps/api/src/services/status-page.service.ts:1107-1136 | From any table, also one with rows from before unsubscribe tokens existed, after every run an ACTIVE row has an unsubscribe token, and the token of a row stops that row and touches no other |
| Subscribers.UnsubscribeTokenStays | apps/api/src/services/status-page.service.ts:1082-1096 | Once a row has an unsubscribe token it keeps it through every run |
| Subscribers.HiddenPageRefuses | apps/api/src/services/status-page.service.ts:1066-1068 | A subscribe to a page that is missing, deleted or not public creates and changes nothing |
| Subscribers.UnsubscribeLeavesLinkIff | apps/api/src/services/status-page.service.ts:1131-1134 | After an unsubscribe a link can still activate the row if and only if the row was waiting for one |
| Subscribers.Service.Subscribe | apps/api/src/services/status-page.service.ts:1065-1105 | Creates or renews the one row of page and email, except when it is ACTIVE or the page is not public |
| Subscribers.Service.VerifySubscriber | apps/api/src/services/status-page.service.ts:1107-1123 | Activates the row that waits for the token on this page and spends the token |
| Subscribers.Service.Unsubscribe | apps/api/src/services/status-page.service.ts:1125-1136 | Stops the row with this unsubscribe token on this page |
| Pagination.WalkRepeatsNothing | apps/api/src/services/cursor.ts:12-25 | Whatever is inserted and deleted between page reads, a walk in either direction is in strict order, returns no row twice and only rows that were in the table when read |
| Pagination.WalkMissesNothing | apps/api/src/services/monitor.service.ts:744-782 | A finished walk returned every row that was in the table at each of its reads |
| Pagination.WalkOverFixedTable | packages/shared/src/pagination.ts:28-44 | On a fixed table the pages concatenate to the whole order, and the walk ends with the first read by which there was room (limit rows per read) for all of them |
| Pagination.PageIsBetweenCursors | packages/shared/src/pagination.ts:32-44 | The rows of a page are exactly those beyond its cursor and not beyond the next one |
| IsoWeek.WeekIffSameWeek | apps/web/lib/analytics.ts:316-327 | Two days get the same year and week if and only if they lie in the same Monday-to-Sunday week |
| IsoWeek.WeekIsIso | apps/web/lib/analytics.ts:316-327 | Unless the week's year is one of 0 to 99, the result and nothing else is the week of clause 4.1.4 of ISO 8601:2004, and it is between 1 and 53 |
| IsoWeek.WeekInRangeIff | apps/web/lib/analytics.ts:322-325 | The week number is in 1..53 if and only if the week's year is not one of 0 to 99 |
| IsoWeek.KeyTextInjective | apps/web/lib/analytics.ts:326 | The printed key determines year and week |
| IsoWeek.KeyTextShape | apps/web/lib/analytics.ts:326 | A key is the year, "-W" and the week number in two digits |
| Analytics.WeekKeyIff | apps/web/lib/analytics.ts:316-327 | Two valid dates share a key if and only if they lie in the same Monday-to-Sunday week |
| Analytics.MonthKeyIff | apps/web/lib/analytics.ts:225 | Two dates share a month key if and only if year and month agree |
| Analytics.PointInOneBucket | apps/web/lib/analytics.ts:222-231 | Every point is in exactly one bucket, that of its week or month |
| Analytics.RollUpConserves | apps/web/lib/analytics.ts:233-250 | Rolling up conserves total and failed checks, whatever the order of the input |
| Analytics.RollUpKeepsDateOrder | apps/web/lib/analytics.ts:222-233 | On ascending input every day of an earlier bucket comes before every day of a later one |
| Analytics.BucketDaily | apps/web/lib/analytics.ts:219-251 | Returns the input for days, else one aggregate per bucket in the order in which the buckets are first seen, each with the figures of its own points |
| Analytics.RolledReports | apps/web/lib/analytics.ts:233-250 | Each rolled-up point has the day of the first point of its week or month, the sums of its checks and failures, an uptime within 0.005 of 100 * (checks - failures) / checks or none without checks, and a response time within 0.5 of the mean of the days that have one, or none |
| Analytics.MeanLiesBetween | apps/web/lib/analytics.ts:237-241 | A reported response time lies between the least and the greatest of its days, up to 0.5 |
| Grouping.Group | apps/web/lib/analytics.ts:222-231 | The loop with its map and order list yields the groups of all keys, none empty, in order of first appearance |
| JsonLdRoundTrip.SafeJsonLdIsSafeAndFaithful | apps/web/lib/status.ts:86-93 | For every JSON value the text is free of the five characters, and a reader per RFC 8259 returns the same value |
| JsonLdRoundTrip.FivePassesAreOne | apps/web/lib/status.ts:87-92 | The five replacements over the whole text equal one replacement of each character |
| JsonLdRoundTrip.ValueRoundTrip | apps/web/lib/status.ts:80-84 | A printed and escaped value is read back from the front of any text that does not continue a number |
| JsonLdRoundTrip.StringRoundTrip | apps/web/lib/status.ts:80-84 | Every string of UTF-16 code units survives printing and escaping, also right after an escaped backslash and with lone surrogates |
| Csv.CsvRoundTrip | apps/web/lib/export.ts:12-28 | A reader for section 2 of RFC 4180 returns the header and every cell exactly if and only if there are two columns or more, or one whose last cell is not empty |
| Csv.FieldRoundTrip | apps/web/lib/export.ts:12-17 | A printed field followed by a comma, a line break or the end reads back as its text |
| Csv.CellIsValue | apps/web/lib/export.ts:14-28 | The cell read back is the text of the value that the row has for the column, and empty if it has none |
| Csv.QuotedIff | apps/web/lib/export.ts:12-17 | A field is quoted if and only if it holds a comma, a quote or a line break |
| Csv.DeriveColumns | apps/web/lib/export.ts:30-38 | The nested loops collect the distinct keys in order of first appearance |
| Csv.ToCsv | apps/web/lib/export.ts:23-28 | Prints the given or derived columns, readable under the stated condition |
| FirstSeenOrder.FirstSeenElements | apps/web/lib/export.ts:30-38 | The collected keys are exactly those that occur, each once |
| FirstSeenOrder.FirstSeenInOrder | apps/web/lib/export.ts:30-38 | They are listed in the order of their first occurrences |

## Left out

- Probes, retries, sockets, assertions and the text of errors: a check enters as its status.
- Alert, integration and escalation delivery: a dispatch is one entry in the alert log; audit entries are not modelled.
- Deleting monitors, editing thresholds during a run, and comments on incidents.
- RegionalWorkers.InterleavingsKeyed: says nothing about health, since a stale snapshot can write any state; StaleCheckIff and CrashedCheckIff are about single checks.
- RegionalRecoveries.RecoveryNoticeBound: assumes that no acknowledge is stale, since that reopens the incident.
- Lifecycle.FindUnresolved: of several unresolved incidents with the same start, which the database returns is not fixed by the code; the model takes the newest row.
- Scheduler.Scheduler.RemoveUnwanted: a queue is reconciled as a value and then stored, so the calls of one sync are not visible in between; SchedulerRace models them one by one.
- Scheduler.Desired: the job payload, which a sync does not compare, and periods given as text, which are taken as numbers.
- Seats.Take: clock-driven expiry is one step that lapses an invitation; plans without a seat limit are modelled but the bounds are about limited ones.
- BillingWebhook.Handle: invoice amounts, links and the stored payload of a ledger entry.
- Subscribers.Apply: trimming and lower-casing of the email, which happens before, timestamps, mails and page edits during a run.
- Subscribers.ActiveIffConsented: subscribers who were ACTIVE or had a link waiting before the run began, since the calls that led there are not part of it.
- Pagination.Query: filters by organization, monitor, region or status, which only select the table, and the base64url text of a cursor, which is its pair of values.
- IsoWeek.WeekOf: moving Date objects in place is written as arithmetic on day numbers; malformed dates are not modelled.
- Analytics.BucketDaily: rates and means are over the reals, so floating-point rounding is not captured.
- Csv.Lookup: columns named like an inherited property of objects, and the text that `String` gives a number, which is taken as given.
- JsonLd.Stringify: the formatting of numbers (a lexeme of the RFC 8259 number grammar), and values that are not JSON.
- Role matrices, form validation, rollup queries, on-call schedules, custom domains, and the user interface.
