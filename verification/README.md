# AlphaPing, modelled and proved

AlphaPing is a monitoring system: agents sample machines, an ingest worker stores their reports, a live
hub relays fresh samples, a notification worker announces state changes and a retention worker removes
what is old or deleted. Its hard parts are protocols that must survive crashes, lost messages and
overlapping runs, with nothing but a few small tables to remember by. This project models those parts in
Dafny and proves what they promise.

One SQL statement or transaction is one atomic step on sets and maps. A crash loses everything that is
not stored. Where SQL leaves a choice open (rows of equal rank, LIMIT without an order) the operation is a
relation. Where the source changes things in place, a class with methods does; its `ensures` tie the new
state to the specification function or relation, and lemmas prove what that means over all runs.

- **Report protocol.** `SpoolModel`, `SpoolInvariant`, `SpoolCreation`, `SpoolCapacity` and the class in
  `SpoolStore` are the agent's durable spool. `ReplayWindow` (over the bit arithmetic of `SqlBits`) and
  `Ingest` are the server's replay table and five-slot block store. `Protocol` joins both ends by a network
  that keeps, repeats, reorders and shows around whatever was sealed; the agent can die at any step and
  its spool can be replaced by any other consistent one. `ProtocolInvariant` and `ProtocolSafety` hold the
  invariant and the theorems, `Resending` what follows a lost answer, `SampleAccounts` and `ProbeReports` where every
  sample and probe result ends up, `SpoolLaws` what the statements mean for a row, `GapAccounts` what the loss
  counters are worth, `CommandReports` how often a command result is reported, `ProtocolRuns` and
  `ResultRuns` runs in which something is lost or repeated, and `AgentRuntime` the event-loop handlers,
  each shown to be a path of it.
- **Live hub.** `LiveModel` is the state machine of handlers that decrypt asynchronously, `LiveSafety` its
  theorems, `LiveSessions` what holds across its losses of memory, `LiveProgress` what it does let through, `LiveHubs` the class that runs it.
- **Notifications.** `Discovery`, `DiscoverySafety`, `DiscoveryWorker` and `DiscoveryDrain` are cursor-based
  discovery with any number of overlapping runs; `NotificationOutbox` is the outbox with claim tokens.
- **Retention.** `SoftDelete`, `SoftDeleteWorker` and `TelemetryRetention`.
- **Calendar, codecs and folds.** `Calendar`, `Rfc3339`, `Protobuf`, `MetricDecoding`, `LiveFrames`,
  `Rollup`, `Confirmation`.

`Sql` is ORDER BY with LIMIT, `Options` a value that may be absent. `dafny verify dfyconfig.toml` checks
everything.

The spool carries a ledger of where samples went, which no operation reads.

Assumptions: AES-GCM and hashes are ideal (a ciphertext opens only under the key, nonce and header it was
sealed with, and equal hashes mean equal reports); times are not negative; random identifiers and claim
tokens are new; a machine keeps its workspace (`Ingest.ScopesAgree`, used only where named).

What the proofs showed about the code:

- Transport sequences rest on the configuration file alone. A restored spool is harmless as long as the
  file is not behind (`ProtocolSafety.FreshIffNotBehind`).
- A report can be acknowledged without being written: an answered report is in its slot if and only if
  its block was new or belongs to its workspace (`Ingest.AnsweredStoresIff`; `Ingest.AcknowledgedUnstored`
  is a request that ends this way).
- The record in `data_gaps` is a statement of its own. The counters sum to the dropped samples if and
  only if no capacity call was cut short between its drop and its record (`GapAccounts.CountersAgreeIff`;
  `ProtocolRuns.DropWithoutRecord` is such a run).
- A sample that comes after its minute's delivery was built is parked: it is not in the payload, and the
  acknowledgement deletes it although the server has it in no report. A delivery's sample is in the
  payload if and only if its minute had no delivery when it was reached
  (`SampleAccounts.PayloadIffAssigned`), and the account of all samples keeps the two kinds apart
  (`SampleAccounts.EverySampleAccounted`; `ProtocolRuns.ParkedSampleIsLost` is such a run). A restored
  file forgets what was taken in after its backup, and only that
  (`SampleAccounts.ForgottenIsAfterBackup`, `ProtocolRuns.RestoreForgets`).
- A command result can reach the server in two reports, but only through an eviction
  (`CommandReports.ReportedAgainAfterEviction`, `ResultRuns.ResultReportedTwice`).
- The branch of `create_next_delivery` for a minute without samples cannot be reached
  (`SpoolInvariant.ChosenMinuteHasSamples`).
- After a full disconnect the live hub accepts any number again (`LiveSafety.DisconnectForgets`); after
  hibernation it is safe exactly when an attachment still holds the last number
  (`LiveSafety.HibernationIsHarmlessIff`, `LiveSessions.RemembersIff`; `LiveSessions.CloseRemembersIff`
  for a close), and then a session repeats no number however often its state is rebuilt
  (`LiveSessions.SessionRepeatsNothing`).
- The reader of live frames takes numbers and times that the writer refuses
  (`LiveFrames.ReadIsWritersIff`, `LiveFrames.ZeroFrameIsRead`).
- A hundred events that match more than 2000 rules stop discovery for good; without such a hundred it
  drains its queue (`DiscoveryDrain.DrainQueue`).
- A five-minute row misses the reports that come after the one of the fifth minute
  (`Rollup.RowIsCompleteIff`).
- A rotated key that is in the file but for which no client can be made leaves the agent sealing under
  its old key until it restarts, and its next save puts that key back into the file; the numbers still
  increase (`Protocol.Rotates`, `ProtocolSafety.SealedNumbersIncrease`).
- `days_from_civil` takes days before the first (`Calendar.RefusedIff`).
- `parse_rfc3339_ms` looks at neither the separators of the fields nor what follows a numeric zone, takes
  signs in fields, zones out of range and a point without digits, and refuses a lower-case "t" or "z".
  A text that it reads is a timestamp if and only if everything is in its place
  (`Rfc3339.ReadTextIsTimestampIff`, `Rfc3339.LowerCaseIsRefused`).
- The varint reader takes longer encodings than the shortest one; what it read was the shortest if and
  only if it is one byte or does not end in a zero byte (`Protobuf.ShortestFormIff`).

## Model

| member | source | states |
|---|---|---|
| ReplayWindow.ClaimRefinesSet | workers/ingest/src/worker_entry.rs:789-842 | one UPSERT on the 63-bit register accepts exactly the numbers the set rule admits (above all, or new and at most 62 below the highest), and bit i then means that the number i below the highest was accepted |
| ReplayWindow.RunRepresents | workers/ingest/src/worker_entry.rs:796-841 | in every run of claims the stored row stands for exactly the accepted numbers |
| ReplayWindow.RunRefinesSet | workers/ingest/src/worker_entry.rs:796-841 | in every run acceptance is the set rule and no number is accepted twice |
| ReplayWindow.IncreasingRunAccepted | workers/ingest/src/worker_entry.rs:796-841 | a sender whose numbers increase is never refused, whatever the gaps |
| Ingest.MinuteFromSlot | workers/ingest/src/worker_entry.rs:328-334 | block start and slot tell whole minutes apart, and there are five slots |
| Ingest.WritesOnlyItsSlot | workers/ingest/src/worker_entry.rs:876-909 | a block write changes at most the empty slot of its own minute: an entry once stored is never replaced |
| Ingest.WriteStores | workers/ingest/src/worker_entry.rs:844-909 | a report classified as new is stored by the write if and only if its block is new or belongs to its workspace |
| Ingest.AnsweredStoresIff | workers/ingest/src/worker_entry.rs:1314-1485 | over a whole request, without the assumption on workspaces: an answered report is in its slot if and only if its block was new or belongs to its workspace |
| Ingest.AcknowledgedUnstored | workers/ingest/src/worker_entry.rs:844-909 | a server and a request of a machine that changed workspace: the answer is sent and the report is not in its slot |
| Ingest.HandlesKeepsEntries | workers/ingest/src/worker_entry.rs:1314-1485 | every request, however far it gets, leaves each stored entry in the slot of its own report, within its minute and workspace |
| Ingest.HandlesKeepsSlots | workers/ingest/src/worker_entry.rs:1314-1485 | no request, however far it gets, loses or replaces an entry |
| Ingest.AnswerMeansStored | workers/ingest/src/worker_entry.rs:1194-1220 | an acknowledgement is only sent when the slot holds exactly that report id and hash |
| Ingest.IngestWorker.ClaimReplay | workers/ingest/src/worker_entry.rs:789-842 | accepts exactly when the statement changed a row, and then stores the new row |
| Ingest.IngestWorker.HandleReport | workers/ingest/src/worker_entry.rs:1314-1485 | an authentic request with an admitted number is answered as a duplicate, changing no block, when its slot holds this very report, as committed when the slot is empty, and stops after its number exactly when the slot holds another report; whatever cuts it short, only what the handler's order allows is written |
| Ingest.SlotDecides | workers/ingest/src/worker_entry.rs:844-909 | the same of every request that is let through, whatever else the handler does |
| Ingest.CarriedIff | workers/ingest/src/lib.rs:200-240 | a request carries a report exactly when the key's own agent sealed it over this header with a number in range, for the key's machine and workspace, with 1 to 60 samples in its minute and at most two minutes ahead |
| SpoolInvariant.AppendSampleKeeps | crates/agent/src/spool.rs:264-276 | appending keeps ownership, uniqueness of buckets and the account of samples |
| SpoolStore.Spool.ReconcileSequenceCheckpoint | crates/agent/src/spool.rs:249-262 | the sequence is raised to the checkpoint and never lowered; a number over the limit is refused |
| SpoolStore.Spool.Create | crates/agent/src/spool.rs:50-82 | a new spool exists exactly for an initial sequence within the protocol's range, and is consistent |
| SpoolStore.Spool.AppendSample | crates/agent/src/spool.rs:264-276 | a second sample of the same instant is ignored |
| SpoolStore.Spool.ParkStaleMinutes | crates/agent/src/spool.rs:307-365 | the parking loop ends, having parked all samples of the minutes before the one it returns on the deliveries of their minutes |
| SpoolCreation.ParkOneMore | crates/agent/src/spool.rs:309-365 | parking minute by minute, earliest first, is parking all earlier minutes at once |
| SpoolCreation.ParkShrinks | crates/agent/src/spool.rs:309-365 | each round strictly shrinks the set of unassigned samples |
| SpoolCreation.NothingLeftToReport | crates/agent/src/spool.rs:307-365 | when no report is built before the cap of 256 minutes, no unassigned sample of a closed minute is left |
| SpoolStore.Spool.CreateNextDelivery | crates/agent/src/spool.rs:301-498 | a report has the oldest (at most 60) unassigned samples of the earliest closed minute without delivery, and owns them; otherwise nothing is created and everything earlier is parked |
| SpoolInvariant.CreatesDeliveryKeeps | crates/agent/src/spool.rs:366-498 | the new delivery keeps single ownership and owned samples in their minute, and its payload is well formed |
| ProbeReports.CreationTakesProbes | crates/agent/src/spool.rs:406-485 | the oldest stored probe results up to the minute, 512 at most and each once, move into the report; afterwards the table has exactly the others |
| ProbeReports.ReportedOnce | crates/agent/src/spool.rs:480-485 | over any stretch of a run on one spool file, a probe result is in at most one report, unless its execution was taken in again |
| ProbeReports.ResidentOrReportedOnce | crates/agent/src/spool.rs:480-485 | a probe result taken in is ever after in the table or in exactly one report |
| SpoolLaws.ReportHasOldestSamples | crates/agent/src/spool.rs:366-398 | the samples of a report are the oldest unassigned ones of its minute, 60 at most, and all of them when fewer |
| SpoolLaws.ReportHasOldestResults | crates/agent/src/spool.rs:421-437 | its command results are those that ended first, 16 at most, and all when fewer |
| SpoolLaws.CreatedIsDue | crates/agent/src/spool.rs:455-470 | a new delivery is pending, untried and due at once, and no other delivery changes |
| SpoolLaws.AttemptCounts | crates/agent/src/spool.rs:542-575 | an attempt counts, uses one number and makes the delivery due again exactly from the given time on |
| SpoolLaws.RescheduledWaits | crates/agent/src/spool.rs:628-643 | a rescheduled delivery is due exactly from its new time on |
| SpoolLaws.QuarantinedWaits | crates/agent/src/spool.rs:645-678 | a quarantined delivery is never due and can be redriven exactly from an hour later on, unless it was tried eight times or was too large |
| SpoolLaws.RedrivesEarliest | crates/agent/src/spool.rs:667-678 | redriving makes the earliest 64 of these pending and due, and changes nothing else |
| SpoolLaws.WakesEarliest | crates/agent/src/spool.rs:680-694 | waking brings the earliest sleeping deliveries forward to the given time, and changes nothing else |
| SpoolLaws.StoredIffNewInstant | crates/agent/src/spool.rs:264-276 | a sample is stored, under a number of its own, exactly when the spool has none of its instant |
| SpoolLaws.CommandLives | crates/agent/src/spool/commands.rs:18-104 | a command is pending, running, completed with its result, and then neither starts nor ends again |
| SpoolLaws.AcknowledgedCommands | crates/agent/src/spool.rs:696-749 | an acknowledgement takes exactly the command results of its delivery, with their commands |
| SpoolInvariant.ChosenMinuteHasSamples | crates/agent/src/spool.rs:366-375 | the minute chosen still has unassigned samples after parking, so the branch for none is never taken |
| SpoolStore.Spool.AcceptCommands | crates/agent/src/spool/commands.rs:18-45 | all offered commands are accepted or, with more than eight or a bad one, none |
| SpoolInvariant.AcceptAllAdds | crates/agent/src/spool/commands.rs:18-45 | every offered command is there afterwards, and a known one keeps its state |
| SpoolStore.Spool.DueDelivery | crates/agent/src/spool.rs:500-518 | returns a due pending delivery of the earliest minute, or None when none is due |
| SpoolStore.Spool.BeginDeliveryAttempt | crates/agent/src/spool.rs:542-575 | number and attempt are stored together or not at all; it succeeds exactly for a pending delivery while numbers are left |
| SpoolStore.Spool.RescheduleDelivery | crates/agent/src/spool.rs:628-643 | changes a row exactly when the delivery is pending |
| SpoolStore.Spool.QuarantineDelivery | crates/agent/src/spool.rs:645-665 | changes a row exactly when the delivery is pending |
| SpoolStore.Spool.RedriveQuarantined | crates/agent/src/spool.rs:667-678 | the oldest 64 redrivable deliveries become pending, nothing else changes |
| SpoolStore.Spool.WakeBacklog | crates/agent/src/spool.rs:680-694 | the oldest sleeping deliveries within a limit of 1 to 64 are made due |
| SpoolStore.Spool.Acknowledge | crates/agent/src/spool.rs:696-749 | no ON DELETE RESTRICT is ever hit; the delivery goes with all it owns, and the result is true exactly when it existed |
| SpoolCapacity.AcknowledgeUnhindered | crates/agent/src/spool.rs:696-749 | what a delivery owns is linked to nothing else, and it owns a sample exactly when it exists |
| SpoolCapacity.CompactionKeepsNewest | crates/agent/src/spool/capacity.rs:59-117 | however scan and row limits cut, a pass spares the newest unassigned sample of each five-minute bucket |
| SpoolCapacity.CompactionsKeepNewest | crates/agent/src/spool/capacity.rs:59-117 | so do all passes of a call together |
| SpoolCapacity.EvictionFrees | crates/agent/src/spool/capacity.rs:136-143 | evicting a quarantined delivery frees its samples and command results; its probe results do not come back |
| SpoolCapacity.RecordGapKeeps | crates/agent/src/spool/capacity.rs:152-161 | recording a loss keeps the hourly counters in step with what was dropped |
| SpoolLaws.CompactionTakes | crates/agent/src/spool/capacity.rs:59-117 | a compaction pass takes only unassigned samples older than its bound, each for a newer one of its bucket, within its limit |
| SpoolLaws.CompactionThins | crates/agent/src/spool/capacity.rs:59-117 | a pass not cut short by scan or row limit leaves no sample in its reach that has a newer one in its bucket |
| SpoolLaws.EvictionTakes | crates/agent/src/spool/capacity.rs:136-143 | an eviction takes the earliest quarantined deliveries, 64 at most, and nothing else |
| SpoolLaws.DropTakes | crates/agent/src/spool/capacity.rs:144-150 | a drop takes the oldest unassigned samples, 1000 at most, and nothing else |
| SpoolLaws.ReliefTakes | crates/agent/src/spool/capacity.rs:132-161 | when the budget is still exceeded, at most 64 quarantined deliveries and then at most 1000 unassigned samples go, all of them when fewer, and the loss is recorded |
| SpoolLaws.RecordsInItsHour | crates/agent/src/spool/capacity.rs:152-161 | a loss is added to the counter of the hour it is recorded in and to no other |
| SpoolLaws.EnforcementIsGraded | crates/agent/src/spool/capacity.rs:54-131 | nothing below 70 percent with free disk, samples of the last day spared below 95, deliveries untouched unless the budget is exceeded |
| SpoolStore.Spool.EnforceCapacity | crates/agent/src/spool/capacity.rs:40-167 | wherever the call is cut short, pending deliveries keep their rows and samples; a completed call records all it dropped, one cut short none; the trace names the statements that ran, each record directly after its drop and for all of it |
| SpoolStore.Spool.CompleteCommand | crates/agent/src/spool/commands.rs:80-104 | completes exactly a command that is not completed yet |
| ProtocolSafety.SpoolStaysConsistent | crates/agent/src/spool.rs:301-498 | in every run: single ownership of samples and results, owned samples in the delivery's minute, no empty delivery, appended = resident + acknowledged in the payload + acknowledged beside it + compacted + dropped, and the hourly counters lack exactly the unrecorded drops |
| SampleAccounts.PayloadIffAssigned | crates/agent/src/spool.rs:307-498 | over any stretch of a run on one spool file, a sample that a delivery came to own in it is in the payload if and only if the create step built the report from it, which is so if and only if its minute had no delivery then; otherwise it was parked and stays out |
| SampleAccounts.OwnershipHasOrigin | crates/agent/src/spool.rs:307-498 | the same over whole runs with restored files, for every ownership the first file did not have |
| SampleAccounts.PayloadIsOwned | crates/agent/src/spool.rs:366-498 | a sample whose content is in a payload is owned by that delivery |
| SampleAccounts.EverySampleAccounted | crates/agent/src/spool.rs:696-749 | end to end, in every run whose spool file is only ever replaced by an earlier one: samples taken in = resident + acknowledged in a report the server has + parked and acknowledged although no report at the server has them + compacted + dropped + forgotten by restored files; those not forgotten have numbers of their own, and under these the file has the very samples taken in |
| SampleAccounts.ForgottenIsAfterBackup | crates/agent/src/spool.rs:264-276 | what is forgotten after a restore is exactly what was taken in between the backup and the restore, besides what the backup had forgotten |
| SampleAccounts.NothingForgotten | crates/agent/src/spool.rs:264-276 | without a replaced file nothing is forgotten |
| SampleAccounts.FileIsAccounted | crates/agent/src/spool.rs:696-749 | the same account for the samples the present file has seen |
| SampleAccounts.MissedIsNowhere | workers/ingest/src/worker_entry.rs:876-909 | a sample that its minute's stored report lacks is in no report of its machine at the server |
| GapAccounts.CountersAgreeIff | crates/agent/src/spool/capacity.rs:136-161 | from agreeing counters on, over any stretch of a run on one spool file, the hourly counters sum to the dropped samples if and only if no capacity call was cut short between its drop and its record |
| GapAccounts.MissingIsLost | crates/agent/src/spool/capacity.rs:136-161 | the counters come to lack exactly what calls cut short had dropped, besides what is just being recorded |
| GapAccounts.OpenIsUnrecorded | crates/agent/src/spool/capacity.rs:152-161 | a record never takes more than was dropped and is not recorded yet |
| ProtocolRuns.DropWithoutRecord | crates/agent/src/spool/capacity.rs:136-161 | a run from the start in which the agent dies between drop and record and the counters lack the sample |
| ProtocolRuns.ParkedSampleIsLost | crates/agent/src/spool.rs:309-365 | a run from the start in which a late sample is parked and then deleted by the acknowledgement, with no report at the server containing it |
| ProtocolRuns.RestoreForgets | crates/agent/src/spool.rs:264-276 | a run from the start in which a restored backup forgets exactly the one sample taken in after it |
| CommandReports.ReportedAgainOnlyAfterLeaving | crates/agent/src/spool.rs:420-470 | in every run, a command result goes into a second report only after its first delivery was evicted, acknowledged or replaced with its file |
| CommandReports.ReportedAgainAfterEviction | crates/agent/src/spool/capacity.rs:136-143 | on one file: only after an eviction, or after an acknowledgement and another completion of the command |
| ResultRuns.ResultReportedTwice | crates/agent/src/spool/capacity.rs:136-150 | a run from the start in which an evicted delivery was stored at the server and its command result reaches the server again in the next report |
| ProtocolSafety.AcknowledgedIsStored | crates/agent/src/uploader.rs:211-251 | whenever an acknowledgement removes a delivery, the server's slot for its minute holds exactly that report, then and for ever after |
| ProtocolSafety.ProofMeansStored | crates/agent/src/uploader.rs:211-251 | a reply that passes the header, nonce and hash checks was sealed by the server for this very report |
| ProtocolSafety.StoredForever | workers/ingest/src/worker_entry.rs:876-909 | along every path a stored report stays stored |
| ProtocolSafety.UploadEndsCleanly | crates/agent/src/runtime.rs:103-184 | the delivery in flight stays stored, pending and unchanged until its upload ends, so none of the ending operations finds zero rows |
| ProtocolSafety.SealedNumbersIncrease | crates/agent/src/runtime.rs:254-286 | numbers handed to the sealer strictly increase over crashes, restarts, rotations and replaced spools, and stay within the limit |
| ProtocolSafety.NoncesAreUsedOnce | crates/agent/src/uploader.rs:174-209 | neither end ever seals two messages under one nonce |
| ProtocolSafety.FreshIffNotBehind | crates/agent/src/spool.rs:249-262 | after a restart the next number is new if and only if the spool or the file is not behind the last one used |
| ProtocolSafety.NewNumberIsAdmitted | workers/ingest/src/worker_entry.rs:796-841 | the replay window admits every number above those the agent sealed |
| ProtocolSafety.StoredReportsValidate | workers/ingest/src/lib.rs:200-240 | whatever the spool stores passes the server's checks of identity, scope, count and times |
| ProtocolSafety.DeliveryGetsThrough | crates/agent/src/runtime.rs:254-320 | one undisturbed exchange of a due report whose slot is empty or already has it stores the report, is answered as committed or as a duplicate accordingly, removes the delivery and settles the account of its samples |
| ProtocolSafety.DeliveryGoesUnheard | crates/agent/src/runtime.rs:288-354 | the same exchange with its answer lost: the report is stored, and the delivery is quarantined or put off |
| Resending.SentAgain | workers/ingest/src/worker_entry.rs:864-875 | the earliest due report whose answer was lost is sent again once its retry is due, answered as a duplicate and removed |
| Resending.SentAgainRun | crates/agent/src/runtime.rs:288-354 | a run from the start in which this happens |
| ProtocolInvariant.NextKeeps | crates/agent/src/runtime.rs:103-184 | every step of agent, network and server keeps the protocol's invariant |
| AgentRuntime.Runtime.EnsureSequenceReservation | crates/agent/src/runtime.rs:356-375 | the checkpoint is in the file before a number under it is used; refusal exactly when no number is left |
| AgentRuntime.Runtime.StartDueUpload | crates/agent/src/runtime.rs:254-286 | at most one upload: reservation, attempt, then the flight, as steps of the protocol |
| AgentRuntime.Runtime.ApplyAck | crates/agent/src/runtime.rs:377-443 | every way it can fail: a bad configuration or wrong epoch changes nothing, a key once in the file stays there even if no client can be made for it, commands are accepted all or none; the delivery goes exactly when every part got through |
| AgentRuntime.Runtime.FinishUpload | crates/agent/src/runtime.rs:288-354 | every branch takes the steps its result calls for and finds the delivery it names; it is gone exactly after an acknowledgement that got through, and else pending or quarantined with the error and the time for the next attempt that the result calls for, its attempts and payload and all other deliveries unchanged |
| AgentRuntime.Runtime.SampleTick | crates/agent/src/runtime.rs:105-127 | the sample tick is a path of the protocol: the sample, the statements of the capacity call that ran and, when it failed between drop and record, the loss without a record |
| AgentRuntime.Runtime.ReportTick | crates/agent/src/runtime.rs:130-152 | redrives, then creates up to 64 deliveries, stopping early only when there is nothing to create |
| LiveSafety.NothingIsBroadcastTwice | workers/live/src/live-hub.ts:315-374 | while a session's state lives, no number is broadcast twice, however decryptions interleave, fail or overtake |
| LiveSafety.CommittedNeverDecreases | workers/live/src/live-hub.ts:331-359 | a state's committed number never decreases and covers all it broadcast |
| LiveSafety.HandlersKeepTheirState | workers/live/src/live-hub.ts:395-411 | the state object of a handler in flight is the one in the map throughout |
| LiveSafety.NextKeeps | workers/live/src/live-hub.ts:299-411 | every handler step keeps: pending numbers are those of the handlers in flight, attachments never run ahead |
| LiveSafety.HibernationIsHarmlessIff | workers/live/src/live-hub.ts:315-349 | losing an idle hub's memory changes no decision on a session if and only if an attachment holds its last committed number |
| LiveSafety.CommitIsRemembered | workers/live/src/live-hub.ts:358-374 | after a commit an attachment captured with the frame and still connected holds the committed number, which is what hibernation needs |
| LiveSafety.DisconnectForgets | workers/live/src/live-hub.ts:395-411 | after the last socket closed, a new one may start at any number |
| LiveProgress.TakenUpIff | workers/live/src/live-hub.ts:303-349 | a frame is taken up exactly when its number is from 1 to 1,000,000 and, if any number of the session is committed, pending or attached, above the highest of them by 1 to 1024; a refused one closes its socket and starts nothing |
| LiveProgress.GapsAreBridged | workers/live/src/live-hub.ts:299-394 | of any stream of frames with at most 1023 lost in a row every frame that arrives is broadcast, in order, and the socket stays |
| LiveProgress.CommitWrites | workers/live/src/live-hub.ts:356-374 | a commit raises the committed number and exactly the captured attachments that are lower, and broadcasts once |
| LiveProgress.AbandonWithdraws | workers/live/src/live-hub.ts:350-356 | a frame that does not decrypt is withdrawn and closes its socket only |
| LiveProgress.CloseTakes | workers/live/src/live-hub.ts:395-411 | a close takes its socket, and the session's state exactly when no other socket is open and nothing is pending |
| LiveProgress.ConnectedIff | workers/live/src/live-hub.ts:226-262 | a socket is accepted exactly when fewer than two unexpired ones of the session exist, and starts without a number |
| LiveSessions.SessionRepeatsNothing | workers/live/src/live-hub.ts:299-411 | a session repeats no number in any run, across closes and hibernations, as long as each of them finds the last committed number recoverable |
| LiveSessions.RemembersIff | workers/live/src/live-hub.ts:315-349 | a hibernation does so if and only if an attachment holds the last committed number |
| LiveSessions.CloseRemembersIff | workers/live/src/live-hub.ts:395-411 | a close does so if and only if the session's state stays or another attachment of the session holds the last committed number |
| LiveSessions.RecoverableIff | workers/live/src/live-hub.ts:299-411 | both conditions are told before the step and are exact for every step |
| LiveHubs.LiveHub.HighestStored | workers/live/src/live-hub.ts:315-329 | the loop over the session's sockets finds the highest number any of them remembers |
| LiveHubs.LiveHub.HighestPending | workers/live/src/live-hub.ts:338-343 | the loop over the pending numbers finds the highest of them and the committed one |
| LiveHubs.LiveHub.Receive | workers/live/src/live-hub.ts:299-349 | for any highest known number h of the session, a frame is taken up exactly when its number is from 1 to 1,000,000 and above h by 1 to 1024; otherwise its socket is closed and nothing else happens |
| LiveHubs.LiveHub.Resume | workers/live/src/live-hub.ts:350-394 | commits, remembers and broadcasts a decrypted frame, withdraws a failed one |
| LiveHubs.LiveHub.Closed | workers/live/src/live-hub.ts:395-411 | the state goes only with the last open socket and with nothing pending |
| DiscoverySafety.PassedEventsAreDelivered | workers/notifications/src/discovery.ts:349-383 | every event the cursor passed after the boundary has exactly one row for each channel that matched it throughout, and rows only for channels that matched at some time |
| DiscoverySafety.CursorNeverGoesBack | workers/notifications/src/discovery.ts:109-117 | over overlapping runs the cursor never decreases and no row disappears |
| DiscoverySafety.OnlyPassedEventsAreCleaned | workers/notifications/src/discovery.ts:119-129 | the queue loses an event only at or below the cursor, or with the event itself |
| DiscoverySafety.CleansOldest | workers/notifications/src/discovery.ts:119-129 | a cleaning takes the oldest consumed events, a hundred at most |
| DiscoverySafety.LoadedBatch | workers/notifications/src/discovery.ts:131-147 | a loaded batch skips no event between the cursor and its last one |
| DiscoverySafety.NextKeeps | workers/notifications/src/discovery.ts:349-383 | every statement of every run, a death between any two, and every change around them keep the invariant |
| DiscoveryWorker.Worker.NewestSequence | workers/notifications/src/discovery.ts:101-107 | the newest queued event, or 0 |
| DiscoveryWorker.Worker.LoadRules | workers/notifications/src/discovery.ts:211-260 | queries of 24 keys with a shrinking LIMIT fail exactly when more than 2000 rows match, and otherwise the limits cut off nothing |
| DiscoveryWorker.Worker.PrepareDeliveries | workers/notifications/src/discovery.ts:262-306 | exactly one delivery for each event with a resource and each of its rules |
| DiscoveryWorker.Worker.PersistDeliveries | workers/notifications/src/discovery.ts:308-341 | batches of fifty add exactly the missing rows, each claimable from this moment on for a first attempt, and change no other row |
| DiscoveryWorker.Discover | workers/notifications/src/discovery.ts:349-383 | an undisturbed run fails, changing nothing, exactly when the next hundred events match more than 2000 rules; otherwise it counts and adds exactly the rows due for them, moves the cursor to the last and cleans the queue; fewer than a hundred means caught up; the first run announces nothing |
| DiscoveryDrain.DrainQueue | workers/notifications/src/discovery.ts:349-383 | repeated undisturbed runs end: with an empty queue and exactly the due rows of all open events, if and only if no hundred of them, in order, match more than 2000 rules, and otherwise before the first hundred that does |
| DiscoveryDrain.RunSucceedsIff | workers/notifications/src/discovery.ts:211-260 | a run before such a hundred fails and changes nothing, so every further one does too |
| DiscoveryDrain.LoadsFront | workers/notifications/src/discovery.ts:131-147 | what a run loads is the front of the order of the open events |
| NotificationOutbox.AtMostSixSends | workers/notifications/src/outbox.ts:33-55 | however workers race, crash or return late, a delivery is sent six times at most |
| NotificationOutbox.FinalRowsStay | workers/notifications/src/outbox.ts:91-119 | sent and dead rows never change, and a sent row was really sent |
| NotificationOutbox.StaleWorkersChangeNothing | workers/notifications/src/outbox.ts:91-119 | only the worker of the last claim can finish a row |
| NotificationOutbox.LeaseIsExclusive | workers/notifications/src/outbox.ts:33-119 | as long as no finish of its token and no claim thirty seconds or more later has happened since, the row is as the claim left it and a claim within the thirty seconds changes nothing |
| NotificationOutbox.FailuresWait | workers/notifications/src/outbox.ts:91-119 | after a retryable failure before the sixth attempt the row is pending, and claimable exactly from the attempt's delay on |
| NotificationOutbox.RetryDelayDoubles | workers/notifications/src/outbox.ts:29-31 | the delay doubles from one minute until it stays at one hour |
| NotificationOutbox.InsertedIsClaimable | workers/notifications/src/discovery.ts:317-336 | a new row can be claimed from its insertion on, and not before, for attempt 1 |
| NotificationOutbox.DeadWorkerIsReplaced | workers/notifications/src/outbox.ts:39-55 | a row whose worker died can be claimed again exactly from thirty seconds later on; after a sixth attempt that claim buries it |
| NotificationOutbox.FinishDecides | workers/notifications/src/outbox.ts:91-119 | a finish makes the row sent, dead after a final or sixth failure, and otherwise claimable exactly after 1, 2, 4, 8 or 16 minutes |
| NotificationOutbox.GetsSent | workers/notifications/src/outbox.ts:33-119 | insert, claim, send and finish leave the row sent, with one send |
| NotificationOutbox.OutboxTable.ClaimDelivery | workers/notifications/src/outbox.ts:33-89 | a claim succeeds exactly on a due or expired row with attempts left; an exhausted row dies |
| NotificationOutbox.OutboxTable.FinishDelivery | workers/notifications/src/outbox.ts:91-119 | changes the row only under its own token |
| SoftDelete.NothingLeftAtEnd | workers/retention/src/soft-delete.ts:274-322 | rows at or below the cursor gone and the last page empty mean that nothing of the resource is left |
| SoftDelete.AdvanceKeeps | workers/retention/src/soft-delete.ts:132-150 | the cursor moves only over purged agents or checks, and that leaves less to do |
| SoftDelete.FinalizesOn | workers/retention/src/soft-delete.ts:274-322 | what one run guarantees, successive runs guarantee together |
| SoftDelete.OthersKeepSecrets | workers/retention/src/soft-delete.ts:324-370 | when no two checks share a secret, a check of a resource that is not eligible keeps its row and its secrets |
| SoftDelete.EligibleIff | workers/retention/src/soft-delete.ts:119-130 | a resource may be finalized exactly when it was deleted, itself or else with its workspace, at or before the cutoff |
| SoftDelete.GraceIsKept | workers/retention/src/soft-delete.ts:119-130 | a resource within its grace period keeps its row, all its telemetry and all its agents or checks |
| SoftDeleteWorker.Finalizer.PurgeTelemetry | workers/retention/src/soft-delete-telemetry.ts:163-282 | deletes only rows of the resource and its page, is complete exactly when none is left, and otherwise made progress |
| SoftDeleteWorker.Finalizer.LoadPage | workers/retention/src/soft-delete.ts:152-197 | a page has everything after the cursor up to its last entry, and says truly whether more follows |
| SoftDeleteWorker.Finalizer.FinalizeResource | workers/retention/src/soft-delete.ts:274-322 | the stored cursor is always valid; the row goes only when nothing of the resource is left; less remains to do after every call |
| SoftDeleteWorker.RunOnce | workers/retention/src/soft-delete.ts:399-452 | a run over ten resources makes progress and deletes none with anything left; every resource not deleted, itself or with its workspace, at or before the cutoff keeps its row, its rows and its secrets |
| SoftDeleteWorker.RunUntilDone | workers/retention/src/soft-delete.ts:274-322 | repeated runs end; then every resource deleted, itself or else with its workspace, at or before the cutoff is gone with its rows and secrets, and every other one is as it was, with all its rows and secrets |
| TelemetryRetention.Retention.DeleteResourceRows | workers/retention/src/telemetry-retention.ts:131-151 | deletes only older rows of the resource, and all of them unless the batch was filled |
| TelemetryRetention.Retention.CleanTelemetryTarget | workers/retention/src/telemetry-retention.ts:153-215 | no row at or after the cutoff goes; a call that deletes nothing gets closer, cyclically, to the old rows there are |
| TelemetryRetention.NothingFound | workers/retention/src/telemetry-retention.ts:180-205 | a sweep without finds decreases the cyclic distance, wrapping included |
| TelemetryRetention.Retention.CleanAll | workers/retention/src/telemetry-retention.ts:153-215 | finitely many calls remove exactly the older rows of all listed resources |
| Calendar.NextDayIsOneMore | crates/runtime-adapters/src/time.rs:59-82 | consecutive dates have consecutive numbers, for every year |
| Calendar.WalkIsCounted | crates/runtime-adapters/src/time.rs:59-82 | the formula is the signed number of days walked from 1970-01-01 |
| Calendar.CountIsWalked | crates/runtime-adapters/src/time.rs:59-82 | every valid date is reached by walking its number: dates and numbers correspond one to one |
| Calendar.DatesAreTold | crates/runtime-adapters/src/time.rs:59-82 | two valid dates with the same number are the same date |
| Calendar.RefusedIff | crates/runtime-adapters/src/time.rs:67-77 | refused exactly for a month out of range or a day past the month's end; a day before the first counts back |
| Rfc3339.ReadFraction | crates/runtime-adapters/src/time.rs:24-39 | the first three digits of a fraction of any length count, all are skipped |
| Rfc3339.ParseRfc3339Ms | crates/runtime-adapters/src/time.rs:1-57 | the offsets of the loop and the fields agree with the reference reading |
| Rfc3339.ReadsWhatIsWritten | crates/runtime-adapters/src/time.rs:1-57 | every timestamp of section 5.6 of RFC 3339 with upper-case T and Z is read as the instant it names, for any fraction and zone |
| Rfc3339.ReadTextIsTimestampIff | crates/runtime-adapters/src/time.rs:1-57 | for all texts: a text that is read is such a timestamp if and only if its separators, digits, fraction and zone are in place, and every timestamp is read |
| Rfc3339.LowerCaseIsRefused | crates/runtime-adapters/src/time.rs:1-57 | a lower-case t or z, which section 5.6 also allows, is refused |
| Rfc3339.SignedHourIsAccepted | crates/runtime-adapters/src/time.rs:7-22 | one text that is read and not in place: a signed hour passes the range checks |
| Protobuf.ReadVarint | packages/contracts/src/protobuf.ts:8-26 | the loop reads groups of seven bits, at most ten bytes, the tenth at most 1 |
| Protobuf.GroupsFit | packages/contracts/src/protobuf.ts:8-26 | a value read is below 2^64 and at most ten bytes long |
| Protobuf.VarintInverts | packages/contracts/src/protobuf.ts:8-26 | reading inverts the Base 128 encoding for every value below 2^64, whatever stands before and after |
| Protobuf.ShortestFormIff | packages/contracts/src/protobuf.ts:8-26 | for whatever is read, the bytes are the encoding of the value if and only if they are one byte or do not end in a zero byte |
| Protobuf.LongFormsAreRead | packages/contracts/src/protobuf.ts:8-26 | one longer form that is read |
| Protobuf.SkipField | packages/contracts/src/protobuf.ts:28-45 | skipping ends where reading a field of that kind ends, and fails where it fails |
| Protobuf.FieldsInvert | packages/contracts/src/protobuf.ts:8-45 | reading a message gives back the fields it was written from |
| MetricDecoding.DecodeValues | packages/contracts/src/live-frame.ts:64-90 | the loop over the array computes the fold of the message's fields |
| MetricDecoding.LastValueWins | packages/contracts/src/machine-report.ts:54-72 | a message is taken exactly when every known field is a safe number, and each value is the last written one |
| MetricDecoding.UnknownFieldsDoNotMatter | packages/contracts/src/machine-report.ts:54-72 | a well-formed unknown field put in anywhere changes nothing |
| MetricDecoding.SampleInverts | packages/contracts/src/machine-report.ts:54-101 | a written sample in the safe range is read back |
| MetricDecoding.StoredSampleIff | packages/contracts/src/machine-report.ts:75-87 | a written sample in the safe range is read as stored exactly when its time is positive, its CPU share at most 1000, and no more memory or storage is used than there is, where the total is known |
| MetricDecoding.LiveSampleIff | packages/contracts/src/live-frame.ts:64-105 | it is read as live exactly when its time is positive and its CPU share at most 1000 |
| MetricDecoding.DecodeLiveMetricSample | packages/contracts/src/live-frame.ts:64-105 | size limits and value checks of live samples |
| MetricDecoding.DecodeMetricSample | packages/contracts/src/machine-report.ts:54-101 | value checks of stored samples |
| MetricDecoding.DecodeMachineSamples | packages/contracts/src/machine-report.ts:103-128 | the nested loop computes the fold over the report's fields |
| MetricDecoding.ReportInverts | packages/contracts/src/machine-report.ts:103-128 | a report is read exactly when it was written with 1 to 60 plausible samples, and then as these, whatever fields stand between |
| LiveFrames.SealLiveSnapshot | crates/agent/src/live/frame.rs:31-77 | the bytes appended are the frame of the sealed header, within the limits and only for numbers in range |
| LiveFrames.ParsesWhatIsWritten | packages/contracts/src/live-frame.ts:41-62 | session, machine, number, time, header and ciphertext come back |
| LiveFrames.WritesWhatWasParsed | packages/contracts/src/live-frame.ts:41-62 | writing a parsed frame gives the same bytes |
| LiveFrames.AcceptedIffWritten | packages/contracts/src/live-frame.ts:41-62 | the reader takes exactly the bytes of the frames it can hold, with any number and time in the safe range |
| LiveFrames.ReadIsWritersIff | packages/contracts/src/live-frame.ts:41-62 | whatever is read is a frame the agent's writer makes if and only if its number is from 1 to a million and its time is positive, neither of which the reader checks |
| LiveFrames.WritersFrameIsReadIff | crates/agent/src/live/frame.rs:31-77 | a frame of the writer is read, and as itself, if and only if its machine and time are safe integers |
| LiveFrames.ZeroFrameIsRead | packages/contracts/src/live-frame.ts:41-62 | a frame of number and time 0 is read, although no writer makes it |
| Rollup.MachineRollup.AddSample | workers/ingest/src/lib.rs:321-335 | one sample added with saturating sums |
| Rollup.AddAllIsExact | workers/ingest/src/lib.rs:320-350 | unless the exact sums overflow, the counters are exact |
| Rollup.MachineRollup.AddBlock | workers/ingest/src/worker_entry.rs:1069-1085 | a closing block sums the reports that are stored and the current one |
| Rollup.RowIsCompleteIff | workers/ingest/src/worker_entry.rs:1049-1093 | in every order of arrivals, the five-minute row exists exactly when the report of the fifth minute came, and covers what the block ends up with if and only if no slot was filled after that; otherwise it counts too few |
| Rollup.SummedByAddBlock | workers/ingest/src/worker_entry.rs:1056-1085 | the samples of a block are those of its stored slots, in order, and of the report that closes it |
| Rollup.MachineRollup.AddHour | workers/ingest/src/worker_entry.rs:1117-1146 | the hour sums the stored rows and the block just closed |
| Rollup.HourIsNearlyExact | workers/ingest/src/worker_entry.rs:1117-1146 | counts, maxima and network totals are exact, both averages are the exact ones or one less |
| Confirmation.FoldHasMeaning | workers/checks/src/persistence.ts:207-247 | counters are trailing run lengths; down, degraded, healthy and unknown are told from the whole history |
| Confirmation.ChangesAreConfirmed | workers/checks/src/persistence.ts:207-247 | healthy is left only after enough failures in a row and regained only after enough successes |

## Left out

- Transport (HTTP, WebSocket, TLS), the SQL engine, file permissions and key storage: outside the stores and steps modelled.
- Real cryptography and compression: ideal functions, as said above.
- Container inventory and catalog, probe configuration, the agent's command and update executors, and the live sequence counter of the spool: they do not touch what the report protocol rests on.
- Rate limits, clock skew, key validity and the other writes of `handle_report`: they appear only as "the request goes no further". Concurrent requests inside one handler are not interleaved.
- The bytes of identifiers: agents, reports, sockets and rows are numbers.
- LiveHubs.LiveHub.Receive: accepting a socket and hibernation are steps of the state machine only; JavaScript references to state objects are names into a map, and ticket expiry, viewer checks, frame size and freshness come before this point.
- Protocol.Init: the agent has sealed nothing yet; spool, configuration file and the server's tables are otherwise arbitrary.
- Discovery: machines and services are resolved at one moment and rules read at one other, where the source has two queries and one for every 24 keys; removal of channels, workspaces or old deliveries with their rows.
- Ingest.CarriedIff: the checks of sample values, inventories, probe and command results in `validate_report`.
- NotificationOutbox.OutboxTable.ClaimDelivery: the second query for channel and rule is an outcome of the send.
- SoftDelete: workspace finalization and tables without telemetry, which would add easy members. A crash has no step of its own: the stored cursor is valid after every statement, so the next run can start anywhere.
- TelemetryRetention: one workspace and one table at a time, so the cursor row is not keyed by `workspace_pk` and `table_kind`. In SoftDelete, too, rows are found by resource alone: all rows of a resource are taken to be of its workspace.
- SoftDeleteWorker.RunOnce: the workspace's purge is claimed before, as the caller does, and the count returned has telemetry rows only.
- TelemetryRetention.Retention.CleanAll: no new rows or resources arrive meanwhile.
- Rfc3339.ParseRfc3339Ms: text is ASCII, and years of four characters cannot reach the saturating arithmetic.
- Rollup.HourIsNearlyExact: stored numbers are read back exactly, and the rows are those written when the blocks were closed; what late reports add to a block is the subject of Rollup.RowIsCompleteIff only.
- Confirmation.FoldHasMeaning: failure codes and texts are not followed.
- MetricDecoding.DecodeMachineSamples: works on the inflated bytes; inflating and its size limits are not modelled.
- The check rollups, status buckets and service states of the checks worker: simple folds beside the confirmation window.
- Web and documentation apps, dashboards, access grants, validators and the updater: interface code or easy claims.
