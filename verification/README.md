# Verified model of GoPulse's asynchronous and operational cores

This project models, in Dafny, the parts of GoPulse whose correctness is a matter of whole runs, and proves what
they promise. A database transaction is one atomic step on finite maps; a transaction that fails leaves the state it
started from. Times are integers, sample values and thresholds are real numbers. Where the source changes state step
by step, a class or a loop does the same and is proved equal to a transition function on values; the theorems about
runs are proved of that function.

- **Business events** (`BusinessState`, `BusinessRepository`, `LedgerInvariant`, `LedgerLimits`, `LedgerEffects`,
  `LedgerConfluence`, `LedgerRows`, `CommandReceipts`, `MapSums`, `Numbers`, `Identifiers`): requirements move from open
  to closed, released and deleted while per-epoch counters are maintained by six transactions. The counters equal the
  sums over the tables in every reachable state, over any number of epochs; the limits hold; each transaction does what
  it promises; redelivery is confluent and loses no evidence; clean-up is never early; a command key creates once.
- **Environment** (`EnvironmentGate`, `Admission`): the epoch, its restores, and which envelopes are admitted.
- **Alerts** (`AlertModel`, `AlertStore`, `AlertCoupling`, `AlertEffects`, `AlertProtocol`, `AlertTheorems`,
  `AlertHistory`): workers claim rules by a lease, evaluate outside the transaction and apply under a fence, while
  administrators change the rules. A history per rule says exactly when it fires, and what its tables have to say.
- **Load-test audit** (`RegisterAudit`, `EditAudit`, `DeleteAudit`, `WriteIntake`, `WriteAccounts`, `AuditVerdicts`):
  from a request log to intervals, from intervals to candidate values, compared with the runs those intervals allow.
- **JSON walks** (`JsonTrees`, `JsonWalk`, `JsonExact`, `JsonPayloads`): rejecting repeated member names.
- **Metric batches** (`MetricModel`, `LabelText`, `MetricKeys`, `MetricFamilies`, `MetricSummaries`, `MetricBuckets`,
  `MetricHistograms`, `MetricContract`): the validator against a declarative reading of summaries and histograms.
- **Lists** (`Keyset`, `Base64Url`, `CommentCursor`): keyset pagination and the comment cursor.
- **Counters** (`CounterReduce`): the reducer behind alert values, against a counter that is sampled and reset.
- **Processes** (`ReadinessProbe`, `MigrationRuns`, `MigrationSafety`, `MigrationInventory`): the readiness probe's
  single check, and the migration runner under crashes.

Where the code and what is said of it differ, the code is modelled and the difference is a theorem:

- A restore must name another epoch than the current one, not a new one; `StaleEpochReadmitted` readmits the
  envelopes of a superseded epoch by a restore there and back, and `SupersededReturnsIff` says when that happens.
- The audit demands a moved revision, but the server does not move it for an edit that repeats the text, so a correct
  run can be flagged; `NeverFlaggedIff` gives the exact condition.
- The audit wants a row with an edited text wherever there was an edit, so a post that is edited and then deleted is
  flagged, and it wants an uncertain deletion to be the author's; `NoRunFlaggedIff` gives the exact condition over
  edits and deletions together.
- In the audit, zero stands both for "no certain write" and for a certain write that started at time zero;
  `PresenceExact` says when that matters and `ZeroStartLetsThrough` gives an input.
- A parked message is said to be stored before it is acknowledged, but the insert ignores a row that breaks a check
  constraint of its table; `ParkedIffStorable`.
- The four checks for repeated names read numbers in two ways: a decoder that converts them refuses a number beyond a
  64-bit float, so `{"a":1e400}` passes two of them and fails two; `AgreeIff` and `HugeSeparates`.
- The comment cursor is checked to be canonical Base64, but its JSON is not checked to be canonical;
  `ReencodesIff` and `SwappedIsAccepted`.

`dafny verify dfyconfig.toml` checks everything.

## Model

| member | source | states |
|---|---|---|
| BusinessRepository.Repository.ScanBudgets | backend/business/internal/businessstate/evidence.go:61-82 | The locked scan returns the epoch's open counter and the 64-bit sums of groups and bytes over all budget rows, in whichever order the rows come. |
| BusinessRepository.Repository.RegisterRequirement | backend/business/internal/businessstate/evidence.go:33-93 | Registering is the transition `Registered`: idempotent on the key, an empty payload charged as one byte, refused over a limit with everything rolled back, otherwise the row and its charge together. |
| BusinessRepository.Repository.ReservePostCreate | backend/business/internal/businessstate/commands.go:192-234 | Which error a reservation ends in, in the order of the checks and unique keys, and the two rows it inserts when it succeeds. |
| BusinessRepository.Repository.AccountPostCreate | backend/business/internal/businessstate/commands.go:241-292 | The charge of a reservation is refused exactly when it is not affordable, and otherwise adds one open requirement, one group and payload plus 1024 bytes. |
| BusinessRepository.Repository.CreatePost | backend/business/internal/businessstate/commands.go:187-292 | The two halves in one transaction are the transition `Created`; any error leaves every table as it was. |
| BusinessRepository.Repository.RecordApplication | backend/business/internal/businessstate/evidence.go:124-188 | Recording is the transition `Applied`: one row per generation, only the first closes the requirement, with the saturating decrement of the open counter. |
| BusinessRepository.Repository.Totals | backend/business/internal/businessstate/evidence.go:234-256 | The loop over the locked rows yields, for every epoch, the number and the bytes of its due requirements, in any row order. |
| BusinessRepository.Repository.Discharge | backend/business/internal/businessstate/evidence.go:264-274 | The per-epoch updates subtract each epoch's totals from its own row with GREATEST and leave the other rows alone. |
| BusinessRepository.Repository.ReleaseRetention | backend/business/internal/businessstate/evidence.go:216-276 | Releasing is the transition `Released`: due rows of the named events in all epochs are marked, and every budget row is lowered by its own share. |
| BusinessRepository.Repository.CleanupExpired | backend/business/internal/businessstate/cleanup.go:11-66 | The clean-up deletes by event from four tables and then the expired receipts without an event: the transition `Cleaned`. With the rows the query returns, a row that is left and could go was locked elsewhere, or the batch was full with rows that are no later; a receipt without an event that could go was left for a full batch of receipts that are no later. |
| BusinessRepository.Repository.ParkMessage | backend/business/internal/businessstate/admission.go:72-162 | Parking is the transition `Parking`: capacity is checked before the duplicate, the message is charged to the current epoch and keeps the epoch it comes from, a duplicate or an ignored row is not charged, and a full ledger changes nothing. |
| BusinessState.SafeReason | backend/business/internal/businessstate/admission.go:204-215 | A reason is recorded as it is exactly if it is a label of 1 to 64 lower-case letters, digits, underscores and hyphens, and as "unknown" otherwise; what is recorded always passes the text check. |
| LedgerInvariant.LedgerConserved | backend/business/internal/businessstate/evidence.go:33-276 | In every run of all transactions over any number of epochs, each epoch's counters equal the sums over the requirement and parking rows, rows obey their life cycle, and no budget row breaks its check constraints. |
| LedgerLimits.CountersAreCounts | backend/business/internal/businessstate/types.go:93-101 | In every state reachable from empty tables, a budget row is exactly: its epoch's open requirements, its reserved and unreleased ones, the sum of their payload plus 1024 bytes, and the number and bytes of the parked messages. |
| LedgerInvariant.StepBalances | backend/business/internal/businessstate/evidence.go:33-276 | Every single transaction keeps that equality, whatever consistent state it starts from. |
| LedgerInvariant.OpenCounted | backend/business/internal/businessstate/evidence.go:169-186 | Closing never meets a zero open counter: the CASE in the update never saturates. |
| LedgerInvariant.DueIsHeld | backend/business/internal/businessstate/evidence.go:264-274 | A release never subtracts more than the row holds, so GREATEST never saturates, and the lowered row is what a recount of the marked rows gives. |
| LedgerInvariant.OnlyExpiredGo | backend/business/internal/businessstate/cleanup.go:20-51 | Although the deletion goes by event, every requirement and receipt of a picked event is expired, and no picked event is in the outbox. |
| LedgerInvariant.CleanupBalances | backend/business/internal/businessstate/cleanup.go:11-66 | The clean-up keeps the ledger exact without touching a budget row. |
| LedgerInvariant.CleanupNeverEarly | backend/business/internal/businessstate/cleanup.go:9-66 | It removes no open, unreleased or unexpired requirement and no receipt without or before its retention end, keeps all other rows, and removes every picked one; of the recorded failures only those of picked events go. |
| LedgerInvariant.CleanupExhausts | backend/business/internal/businessstate/cleanup.go:21-51 | Nor is it lazy: after it, every row that could still go was locked, or came no sooner in the query's order than all of a full batch; and every receipt without an event that could still go was left for a full batch whose retention ended no later. |
| LedgerLimits.AdmissionExact | backend/business/internal/businessstate/evidence.go:84-88 | While the limits hold, a charge is accepted if and only if they still hold after it. |
| LedgerLimits.StepSound | backend/business/internal/businessstate/commands.go:280-291 | Every transaction keeps the limits, given that requirements are reserved when they are inserted. |
| LedgerLimits.LimitsHold | backend/business/internal/businessstate/types.go:27-33 | From empty tables, every run keeps the open count of each epoch, the retained groups and bytes of all epochs, and each epoch's parked messages and bytes within their limits; the 64-bit sums never wrap. |
| LedgerLimits.SameDecision | backend/business/internal/businessstate/commands.go:241-292 | Both charging paths decide alike on the same requirement, and leave the same budget. That their two scans and comparisons are the one decision `Charged` is what `RegisterRequirement` and `AccountPostCreate` are proved for; this lemma puts the two together. |
| LedgerLimits.ParkedIffStorable | backend/business/internal/businessstate/admission.go:69-162 | After a parking that reports success the message is in the table if and only if its schema version is at most 2 and its attempts at most 1000, or it was there before: any other is ignored by the insert and lost. |
| LedgerEffects.RegisterMeans | backend/business/internal/businessstate/evidence.go:33-93 | In every sound state a new requirement is inserted, open, reserved and with its own size, if and only if all limits and check constraints still hold with it; a repeated one and a refused one change nothing. |
| LedgerEffects.CreateMeans | backend/business/internal/businessstate/commands.go:187-292 | A post is created if and only if its command key, its idempotency key and its requirement are new and one more requirement of its size fits; then receipt and requirement are there with the reserved content, and otherwise nothing has changed. |
| LedgerEffects.RecordMeans | backend/business/internal/businessstate/evidence.go:124-188 | A recorded application is in the table afterwards: the old row if there was one, else its result, version and time. The first one closes an open requirement for seven days of retention; other rows stay, and a refusal changes nothing. |
| LedgerEffects.ReleaseMeans | backend/business/internal/businessstate/evidence.go:216-276 | A release marks exactly the closed requirements of the named events whose retention is over, in all epochs, and each epoch's groups and bytes together with the charges of the rows newly marked there are what they were. |
| LedgerEffects.ReleaseSplits | backend/business/internal/businessstate/evidence.go:216-276 | Releasing some events and then others is releasing all of them at once. |
| LedgerEffects.CleanMeans | backend/business/internal/businessstate/cleanup.go:44-66 | Of a picked event nothing is left in any of the four tables; of other events everything stays, except that the selected orphaned receipts go. |
| LedgerEffects.SpentIsCleaned | backend/business/internal/businessstate/cleanup.go:20-51 | In every reachable state, a row of an event whose requirements were closed a retention ago and released, whose receipts have run out and which has left the outbox survives a clean-up only if it was locked or the batch was full with rows no later. |
| LedgerEffects.ParkMeans | backend/business/internal/businessstate/admission.go:72-162 | A message is parked if and only if there is room among the messages and bytes parked in the current epoch; its row is new exactly if it is storable and not there yet, and is filed under its own source, or else under the epoch it carries if that is not the current one. |
| LedgerRows.RefusedFor | backend/business/internal/businessstate/types.go:234-275 | Every defect for which a requirement, an application, a reservation or a message is refused, and that there is no other. |
| LedgerRows.RowsAreClean | backend/business/internal/businessstate/types.go:234-275 | In every reachable state every row is well formed: identifiers, short printable texts, payloads of 1 byte to 16 KiB, receipts with a user, an event and an end of retention. |
| LedgerConfluence.ClosesOnce | backend/business/internal/businessstate/evidence.go:124-188 | Under any sequence of redelivered records over any generations, each requirement closes exactly once, at the time of its first record, and nothing after that changes it. |
| LedgerConfluence.Confluent | backend/business/internal/businessstate/evidence.go:159-187 | Two schedules leave the same open requirements if and only if they name the same ones, and then the same budget rows. |
| LedgerConfluence.EvidenceComplete | backend/business/internal/businessstate/evidence.go:124-199 | Over any schedule of deliveries, the evidence recorded afterwards is what was recorded before and every valid delivery for a requirement that exists, each generation with the result, version and time of its first delivery. |
| CommandReceipts.TakenIffFound | backend/business/internal/businessstate/commands.go:114-132 | The unique index refuses a key exactly when the lookup finds a receipt for it, expired or not. |
| CommandReceipts.ReceiptsUnique | backend/business/internal/businessstate/commands.go:192-224 | In every run, one idempotency key of one user and kind in one epoch has at most one receipt. |
| CommandReceipts.CreatedIsFound | backend/business/internal/businessstate/commands.go:114-132 | A created command is the one that its key finds. |
| CommandReceipts.RetryChangesNothing | backend/business/internal/businessstate/commands.go:187-234 | Until its retention is over, and whatever happens in between, the key finds the first command, and a second attempt is refused and changes no table. |
| EnvironmentGate.Gate.Run | backend/business/internal/businessstate/identity.go:17-218 | Each operation on the environment row is the transition of the same name, with the source's refusals; a refusal changes nothing, and the epoch of a row moves only by a restore, which leaves it restoring. |
| EnvironmentGate.StepMeans | backend/business/internal/businessstate/identity.go:17-218 | For each operation, exactly when it takes effect and why not otherwise, and every field it writes: the cut-over to v2 is refused while legacy messages are pending, and a restore takes effect only if the row is ready in the epoch that it expects. |
| EnvironmentGate.CheckEnvelope | backend/business/internal/businessstate/admission.go:16-43 | An envelope is accepted if and only if it is well formed, the row is ready, and either it is v2 and of the row's epoch, or v1 and the row is in legacy mode and open to v1. |
| EnvironmentGate.EnvelopeMeans | backend/business/internal/businessstate/admission.go:16-43 | Exactly which envelopes are parked, and which are refused as malformed or because the environment is not ready. |
| Admission.CheckForConsumer | backend/business/internal/businessstate/admission.go:48-67 | An envelope is accepted for a consumer if and only if the gate admits it and, for the search consumer and a v2 post event, its requirement is in the table. |
| Admission.MissingIsParked | backend/business/internal/businessstate/admission.go:48-67 | For the search consumer, a post event that the gate admits is parked exactly while its requirement is missing; other events need none. |
| Admission.AdmittedIsCounted | backend/business/internal/businessstate/admission.go:45-67 | In every reachable state, an admitted search event has a requirement in the environment's own epoch, and the budget row counts it: among the open ones while it is open, and with its charge until it is released. |
| EnvironmentGate.EpochIsLastRestore | backend/business/internal/businessstate/identity.go:158-195 | Over every run, the epoch is the one it started with or the one named by the last restore that took effect. |
| EnvironmentGate.SupersededReturnsIff | backend/business/internal/businessstate/identity.go:158-195 | A superseded epoch is current again if and only if the last restore since then named it. |
| EnvironmentGate.SupersededStaysOut | backend/business/internal/businessstate/identity.go:158-195 | If restores name epochs not used before, no v2 envelope of a superseded epoch is ever accepted again. |
| EnvironmentGate.StaleEpochReadmitted | backend/business/internal/businessstate/identity.go:158-195 | Without that, it fails: from every ready state in an epoch A, the restores into any other epoch B and back into A, which only have to name another epoch than the current one, make the envelopes of A accepted, then parked, then accepted again. |
| EnvironmentGate.OnlyOwnerEndsRestore | backend/business/internal/businessstate/identity.go:197-218 | A restore stays in progress, in its epoch, until MarkReady is called with its own operation and epoch. |
| EnvironmentGate.V1StaysClosed | backend/business/internal/businessstate/identity.go:113-154 | After ActivateV2 succeeds, v1 is accepted only if a SetMode in between reopened it. |
| AlertStore.Store.Claim | backend/business/internal/alert/scheduler.go:122-144 | The conditional update wins exactly when the rule is live, enabled, due and not leased, and then sets owner and lease end and nothing else. |
| AlertStore.Store.Apply | backend/business/internal/alert/scheduler.go:154-233 | Applying is the transition `Applied`: nothing outside the fence, and inside it the state, incident, audit and schedule of the rule as the branches say. |
| AlertStore.Store.CloseIncident | backend/business/internal/alert/repository.go:82-92 | Closing touches only the rule's active incident, only if it is still firing, and is audited. |
| AlertStore.Store.Mutate | backend/business/internal/alert/repository.go:110-211 | A mutation is the transition `Mutated`: validation, permission, revision and name conflicts and the rule cap in the source's order; a refusal changes nothing. |
| AlertEffects.MutationAnswers | backend/business/internal/alert/repository.go:110-211 | The first obstacle decides the answer: a bad input, no permission, the cap of 32 live rules, no such live rule, a stale revision or a name in use; and without an obstacle the mutation succeeds. |
| AlertEffects.MutationMeans | backend/business/internal/alert/repository.go:124-211 | A create leaves a live rule with the input's content and flag at revision 1; an update leaves the input's content and the old flag; enabling and disabling keep the content and set the flag; a deletion leaves the rule not live; each change adds one to the revision. The evaluation starts over unless a firing rule is enabled, and an edit closes the firing incident with its reason and audits it. |
| AlertEffects.InputMeans | backend/business/internal/alert/model.go:82-118 | Which inputs are accepted: the eight pairs of window and hold, the bound of the threshold, visible names of at most 80 bytes, and the flag and revision that belong to a create or an update. |
| AlertEffects.EvaluationMeans | backend/business/internal/alert/scheduler.go:173-233 | What an applied evaluation writes: a firing rule goes on firing while the value is unknown or meets the condition, each known value is entered in its incident, and the first that does not meet it recovers the incident; the state row shows the evaluation, gives up the lease and is due again in 30 seconds. |
| AlertCoupling.EvaluationCoupled | backend/business/internal/alert/scheduler.go:173-232 | Applying an evaluation to any coupled database leaves it coupled. |
| AlertCoupling.MutationCoupled | backend/business/internal/alert/repository.go:110-211 | So does every mutation. |
| AlertCoupling.JudgedOk | backend/business/internal/alert/scheduler.go:174-223 | The transition of an enabled rule's state keeps phase, wait and incident in step, acts only on the rule's own incident, and never dereferences a missing one. |
| AlertProtocol.FenceMeaning | backend/business/internal/alert/scheduler.go:160-172 | In every safe state the fence is passed if and only if the worker's own claim is the last event of the rule and its lease has not run out. |
| AlertProtocol.RunSafe | backend/business/internal/alert/scheduler.go:122-233 | The protocol invariant, with histories, leases, waits and the coupling, holds after any interleaving of workers, administrators and time. |
| AlertTheorems.SerialHistory | backend/business/internal/alert/scheduler.go:122-172 | Applied evaluations of a rule form a serial history: each directly follows its own claim within the lease, cutoffs do not go back, and without an edit in between they are at least 30 seconds apart. |
| AlertTheorems.StaleWorkerChangesNothing | backend/business/internal/alert/scheduler.go:166-172 | Over every run, an apply changes the database if and only if its claim is the last event of the rule and unexpired, and then it always does. |
| AlertTheorems.FiringHasEvidence | backend/business/internal/alert/scheduler.go:203-222 | When an incident is inserted at a cutoff, the history ends in an unbroken run of known and true evaluations under one revision, 30 to 65 seconds apart, that began at least the hold earlier: at least six of them for a five-minute rule. |
| AlertTheorems.FiresExactly | backend/business/internal/alert/scheduler.go:178-223 | And it is sufficient: over every run, applying an evaluation of a rule without a firing incident, under its own unexpired claim, inserts an incident if and only if the value is known and meets the condition and the history with this evaluation ends in a steady streak that has lasted for the hold; otherwise no incident comes, goes or changes. |
| AlertTheorems.ConditionMeans | backend/business/internal/alert/model.go:188-205 | What each operator compares with the threshold, and which two are complements. |
| AlertTheorems.WaitRestarts | backend/business/internal/alert/scheduler.go:178-200 | An unknown or a false evaluation ends the wait and breaks the streak. |
| AlertProtocol.MutationFrame | backend/business/internal/alert/repository.go:154-203 | A successful mutation clears the lease and the wait of its rule and leaves every other rule and state alone; a refused one changes nothing. |
| AlertHistory.RuleIsItsHistory | backend/business/internal/alert/repository.go:124-205 | In every reachable state a rule is what its history of edits makes it: its content that of the last create or update, its flag as it was last switched, its revision the number of edits, and deleted if and only if it was deleted. |
| AlertHistory.ClaimedIffOverdue | backend/business/internal/alert/scheduler.go:122-144 | In every reachable state a rule can be claimed if and only if it is neither deleted nor disabled by its history and is due after the last thing that happened to it: at once after an edit, 30 seconds after an evaluation, 10 seconds after a claim that came to nothing. |
| AlertHistory.IncidentIsItsStory | backend/business/internal/alert/scheduler.go:190-222 | In every reachable state an incident tells the story of its evaluations: it began at one that met the condition, under the rule as it was then written, counts the known ones since and shows the last; it recovered at the first that did not meet the condition, or was closed by the first edit other than enabling; else it still goes on. |
| AlertHistory.FiresAtOnce | backend/business/internal/alert/scheduler.go:122-223 | The theorems are not empty: an enabled rule without a hold can be claimed as soon as it is created, and its first evaluation that meets the condition fires it. |
| AlertTheorems.CoupledAlways | backend/business/internal/alert/repository.go:82-211 | In every reachable state a rule is firing exactly if it has a firing incident, which is then its only one; phase, wait, incident and enabled flag agree; and at most 32 rules are live. |
| AlertTheorems.AuditedAlways | backend/business/internal/alert/repository.go:70-92 | In every reachable state each incident has one trigger in the audit trail, and one recovery or closing exactly if it is resolved. |
| AlertTheorems.ResolvedIsFinal | backend/business/internal/alert/repository.go:82-92 | No step of a worker or an administrator touches a recovered or closed incident again. |
| RegisterAudit.NewestStartIsMax | tools/perflab/flow/audit.py:283-283 | The newest start is the maximum over the certain writes, and there is none exactly if no write is certain. |
| RegisterAudit.RunEndsInCandidates | tools/perflab/flow/audit.py:295-303 | With a certain write, every run of the writes ends in a candidate value. |
| RegisterAudit.CandidateHasRun | tools/perflab/flow/audit.py:295-303 | Every candidate is the final value of a run: all certain writes at their starts, the chosen one at its completion. |
| RegisterAudit.CandidatesExact | tools/perflab/flow/audit.py:295-307 | With a certain write, the candidate set is exactly the set of possible final values. |
| RegisterAudit.PresenceNeverFlagged | tools/perflab/flow/audit.py:301-307 | A like, bookmark or follow left behind by a run of its writes is never flagged, from whichever initial state. |
| RegisterAudit.PresenceExact | tools/perflab/flow/audit.py:295-307 | The check accepts exactly the possible values if and only if no write is certain, or some certain write started after time zero, or there is both a put and a delete: zero doubles as "no certain write". |
| RegisterAudit.ZeroStartLetsThrough | tools/perflab/flow/audit.py:301-306 | Otherwise it fails: one confirmed like that started at time zero, and the audit also accepts its absence, which no run explains. |
| EditAudit.EditsMeaning | backend/business/internal/post/edit.go:63-76 | A run of edits leaves the last text, and moves the revision unless every edit repeats the text that was there. |
| EditAudit.RevisionCounts | backend/business/internal/post/edit.go:63-76 | Every edit that changes the text it finds adds one to the revision, and the time of editing is that of the last such edit. |
| EditAudit.NeverFlaggedIff | tools/perflab/flow/audit.py:281-294 | No correct run of edits on a post is flagged if and only if: the post was captured before and no certain edit started after zero; or some edit is certain and the post had been edited before or a certain edit differs from it; or none is certain and an edited post is repeated by one of them. |
| EditAudit.RepeatedTextIsFlagged | tools/perflab/flow/audit.py:286-294 | So the promise that correct edits are never flagged fails: one confirmed edit that repeats the text of a post at revision 1 is flagged. |
| EditAudit.AcceptedTextExplained | tools/perflab/flow/audit.py:287-294 | An accepted post that was not simply left alone carries a text in which some run ends. |
| DeleteAudit.NoRunFlaggedIff | tools/perflab/flow/audit.py:270-294 | With deletions: no correct run of edits and deletions on a post is flagged if and only if, where no deletion is certain, all were asked for by the author and the edits alone raise no false alarm, and where there is an edit, no deletion can be the only one and come after every certain edit. |
| DeleteAudit.EditThenDeletionIsFlagged | tools/perflab/flow/audit.py:289-294 | A confirmed edit followed by a confirmed deletion by the author is a correct run that leaves no row, and is flagged. |
| WriteIntake.Reader.Take | tools/perflab/flow/audit.py:187-225 | One line of the log is the transition `Taken`: starts, outcomes, cancellations, repeated starts, ends without a start, malformed lines, and outcomes that fail after their start has been taken off. |
| WriteIntake.Reader.Resolve | tools/perflab/flow/audit.py:231-257 | The doubtful writes are looked up and indexed as uncertain up to the end of the window, or counted as errors. |
| WriteIntake.Reader.Build | tools/perflab/flow/audit.py:186-257 | Reading the whole log and then resolving the doubtful writes is the function `Built` of the log. |
| WriteAccounts.IndexExact | tools/perflab/flow/audit.py:186-257 | The index holds an entry if and only if some event of the log ends a write with that key, start, completion and certainty. |
| WriteAccounts.IndexTimed | tools/perflab/flow/audit.py:229-257 | If the log's times are in order, every indexed write completed no earlier than it started. |
| WriteAccounts.NothingLost | tools/perflab/flow/audit.py:200-227 | An audit without event errors accounts for every write that was started: it is indexed, or was refused by the server, or is a create that never landed. |
| WriteAccounts.ErrorsAreFaults | tools/perflab/flow/audit.py:187-257 | The counters are the faults of the log: malformed lines, repeated starts and unreadable ends; ends without a start; writes whose target is not known; and writes that were cancelled, never ended or cannot be told; and so is the number of completed requests. |
| WriteAccounts.WindowEnd | tools/perflab/flow/audit.py:204-230 | The window ends with the last completion that closes a start, or at the present if that is later and some write is in doubt. |
| AuditVerdicts.NewestOf | tools/perflab/flow/audit.py:295-295 | The grouped maximum over the index is the newest certain start of the resource, or zero. |
| AuditVerdicts.JudgeInteraction | tools/perflab/flow/audit.py:301-307 | The verdict loop over one like, bookmark or follow computes the acceptance test. |
| AuditVerdicts.JudgePost | tools/perflab/flow/audit.py:286-294 | The verdict loop over one edited post computes the acceptance test. |
| AuditVerdicts.Report.CheckInteractions | tools/perflab/flow/audit.py:295-307 | Every indexed resource is counted once, as verified or as a failure, and only failures become examples. |
| AuditVerdicts.Report.CheckPosts | tools/perflab/flow/audit.py:283-294 | The same for edited posts. |
| AuditVerdicts.Report.Mismatch | tools/perflab/flow/audit.py:260-264 | Every mismatch is counted, and the first fifty are kept. |
| AuditVerdicts.AuditExact | tools/perflab/flow/audit.py:186-307 | From the request log to the verdict: with times in order and after zero, a like, bookmark or follow is flagged if and only if no order of effects of its writes explains what the database holds. |
| AuditVerdicts.PostsFlaggedOnlyByFalseAlarm | tools/perflab/flow/audit.py:281-294 | A post left as a run of its edits leaves it is flagged only where a false alarm is possible. |
| AuditVerdicts.EveryEditIsJudged | tools/perflab/flow/audit.py:283-294 | Every edited post in the index is judged: it is flagged if it has no row, or a confirmed edit and a revision below two. |
| JsonWalk.Decoder.WalkValue | backend/business/internal/exporterplugin/schema.go:106-146 | The recursive walk with its loops consumes what the function `Value` says, and terminates. |
| JsonWalk.Decoder.WalkStrict | backend/business/internal/alert/handler.go:71-103 | The handler's single-loop walk consumes what the function `Strict` says, and terminates. |
| JsonExact.WalksTree | backend/business/internal/exporterplugin/schema.go:106-146 | On the tokens of any JSON tree, whatever follows, the walk succeeds if and only if no object at any depth repeats a name and, where the decoder converts numbers, none is beyond a 64-bit float; it then consumes exactly that tree. |
| JsonExact.WalkExact | backend/runtimekit/exportercontract/contract.go:266-304 | The walk succeeds with a given rest if and only if the stream is a tree without repeated names, and without numbers beyond a float where these are converted, followed by that rest; so it fails on every malformed stream. |
| JsonExact.OneTree | backend/business/internal/exporterplugin/schema.go:106-146 | A token stream begins with at most one JSON tree, whatever names it repeats, so "the value that the walk consumes" is well defined. |
| JsonExact.StrictAgrees | backend/business/internal/alert/handler.go:71-103 | On streams with balanced brackets, which is what the decoder hands out, the handler's walk equals the others although it does not look at the closing bracket. |
| JsonExact.StrictNeedsBalance | backend/business/internal/alert/handler.go:101-102 | On an unbalanced stream it would not. |
| JsonPayloads.SchemaUnique | backend/business/internal/exporterplugin/schema.go:101-152 | The answer for a configuration payload, with its limits and the scanner's opinion. |
| JsonExact.RangedMeans | backend/business/internal/alert/handler.go:69-70 | A number beyond a 64-bit float is somewhere in a tree if and only if it is among its tokens: whether a decoder that converts numbers would stop can be read off the text. |
| JsonPayloads.ContractUnique | backend/runtimekit/exportercontract/contract.go:266-304 | The answer of the exporter contract, whose decoder converts numbers: one value and nothing after it. |
| JsonPayloads.ClientUnique | backend/business/internal/exporterplugin/client.go:382-437 | The answer of the plugin client, whose decoder keeps numbers as they are written: one value and nothing after it. |
| JsonPayloads.HandlerStrict | backend/business/internal/alert/handler.go:65-112 | The answer for a management payload, which must be an object. |
| JsonPayloads.AnswersMean | backend/business/internal/exporterplugin/schema.go:101-152 | What the answers mean for any payload the decoder can hand out: for the client and the handler a single tree without repeated names, for the schema and the exporter contract one that in addition has no number beyond a 64-bit float; each within its limits on size, encoding, nesting and the leading brace. |
| JsonPayloads.AgreeIff | backend/business/internal/exporterplugin/schema.go:101-152 | Within the limits of all four, the client always agrees with the handler and the schema with the exporter contract, and all agree if and only if a payload without repeated names has no number beyond a 64-bit float. |
| JsonPayloads.HugeSeparates | backend/business/internal/alert/handler.go:69-70 | Such a number does separate them: on the object with the single member "a" and the number 1e400, client and handler accept, and schema and exporter contract refuse. |
| MetricContract.Validate | backend/runtimekit/metriccontract/contract.go:88-122 | A batch is accepted if and only if, as a multiset, it is acceptable: valid samples, no series twice, one kind per name, the family budgets, complete summaries with distinct quantiles, and histograms with distinct bounds, monotone counts and a +Inf bucket equal to the count. The order of the samples never decides. |
| MetricContract.RefusedSamples | backend/runtimekit/metriccontract/contract.go:35-81 | Every defect for which a sample is refused - its name, kind, labels, sign, quantile or bucket - and that there is no other. |
| MetricContract.PassesMean | backend/runtimekit/metriccontract/contract.go:88-122 | The three passes over the sequence together say exactly what is said of the multiset. |
| MetricKeys.KeyInjective | backend/runtimekit/metriccontract/contract.go:83-86 | The text key of a series is injective for valid names and labels: the name ends at the first brace, and the rest is the JSON object of the labels. |
| LabelText.QuotedOnce | backend/runtimekit/metriccontract/contract.go:83-86 | An escaped string ends at its first bare quote and determines the string, separators, control characters and HTML-safe escapes included. |
| LabelText.ObjectOnce | backend/runtimekit/metriccontract/contract.go:83-86 | The JSON text of a label map, as encoding/json escapes it, determines the map, in whichever order its members are written. |
| MetricKeys.Lookup | backend/runtimekit/metriccontract/contract.go:124-147 | Looking a key up in the index finds a series if and only if the batch has it. |
| MetricFamilies.Collect | backend/runtimekit/metriccontract/contract.go:92-117 | The first pass succeeds if and only if all samples are valid, no series repeats, kinds do not conflict and the budgets hold at the end; checking on the way makes no difference. |
| MetricSummaries.CheckSummaries | backend/runtimekit/metriccontract/contract.go:124-158 | The second pass succeeds if and only if every quantile sample is a gauge with a whole count and a sum, and no summary gives a quantile twice, however spelled. |
| MetricBuckets.ConsistentPermuted | backend/runtimekit/metriccontract/contract.go:200-205 | Sorting buckets does not change whether their bounds differ pairwise and their counts are monotone. |
| MetricBuckets.SortByBound | backend/runtimekit/metriccontract/contract.go:200-200 | The result is ordered by bound and has the same buckets. |
| MetricBuckets.CheckNeighbours | backend/runtimekit/metriccontract/contract.go:201-205 | Comparing neighbours of the sorted buckets decides about all pairs. |
| MetricHistograms.GroupBuckets | backend/runtimekit/metriccontract/contract.go:167-191 | The grouping loop gathers, for every name and label set, exactly the buckets of that histogram, in order. |
| MetricHistograms.CheckGroup | backend/runtimekit/metriccontract/contract.go:192-210 | A group passes if and only if its histogram is right: sum, whole count, distinct bounds, monotone counts, +Inf bucket equal to the count. |
| MetricHistograms.CheckBuckets | backend/runtimekit/metriccontract/contract.go:160-212 | The third pass succeeds if and only if every histogram in the batch is right. |
| Keyset.List | backend/business/internal/alert/handler.go:285-321 | The handler cuts the extra row off and advances the cursor to the last row shown: what it hands out, followed by what the next query still has, is what this one had, and only a last page is short. |
| Keyset.ListsShowAll | backend/business/internal/alert/list.go:23-109 | From the first query on, each list hands out exactly what it is about, each row once: firing incidents with the critical ones first and the oldest of them first, past incidents of the window, rules and comments with the newest first. |
| Keyset.OneRowMore | backend/business/internal/alert/list.go:38-39 | The database is asked for one row more than the page shows, and never for more than that. |
| Keyset.CursorIsOrder | backend/business/internal/alert/list.go:74-87 | In all three orders, and for comments, the cursor's condition holds of a row exactly if the list puts the last row shown before it. |
| Keyset.OneOrder | backend/business/internal/alert/list.go:38-39 | There is only one way to list a set of rows in order. |
| Keyset.AdvanceDropsPage | backend/business/internal/alert/list.go:55-109 | After a full page, the rows that remain are the earlier ones without that page. |
| Keyset.PagesComplete | backend/business/internal/alert/list.go:23-109 | Following the cursors yields pages whose concatenation is exactly the matching rows in order, each page but the last full, in rows divided by limit pages rounded up, and one page if there are none. |
| Keyset.FirstQueryListsAll | backend/business/internal/comment/repository.go:169-182 | From the first query on, every filtered row of the table is handed out, in order; the same holds for comments. |
| ReadinessProbe.Probes.Call | backend/runtimekit/probe.go:41-71 | A caller waits exactly if the probe has been started and not stopped or cancelled and the last answer is no longer believed; its check is launched exactly if none is in the air; it is told "ready" at once exactly if the last check succeeded and is still believed. |
| ReadinessProbe.Probes.Complete | backend/runtimekit/probe.go:62-67 | The finished check becomes the last one in the probe's past, the slot is free for the next, and its answer is believed until its time to live has passed, and "ready" exactly if it neither failed nor ran out of time nor was cancelled. |
| ReadinessProbe.Probes.Wake | backend/runtimekit/probe.go:75-78 | A caller that waited is told "ready" exactly if the last check to finish succeeded and there has been neither a stop nor a cancellation. |
| ReadinessProbe.CallerIsHeard | backend/runtimekit/probe.go:41-79 | A call that is not answered at once waits for the check in flight; a woken caller and one that gives up are answered and wait no longer. |
| ReadinessProbe.SingleFlight | backend/runtimekit/probe.go:52-69 | Under any interleaving at most one check runs, and as long as one does not return no other starts. |
| ReadinessProbe.ReadyIsJustified | backend/runtimekit/probe.go:43-78 | Every "ready" that is ever answered comes after Started and before any Stop or cancellation, and the last check to finish succeeded: within its time to live for a cached answer, and no earlier than the call for one that was waited for. |
| ReadinessProbe.WaitersAreServed | backend/runtimekit/probe.go:70-79 | A waiting caller's check is still running, or has finished since the call and can wake it. |
| MigrationRuns.Driver.Run | backend/business/cmd/migrate/main.go:84-138 | The "up" run, cut after any number of its actions, is the function `Up`: refusals, resuming version 12, then version by version. |
| MigrationSafety.UpSafe | backend/business/cmd/migrate/main.go:84-138 | Wherever a run is cut, the log stays legal; it is refused exactly when the database is ahead, or dirty at a version other than 12, and then changes nothing; otherwise it is cut if and only if its budget is below four actions for each version and three more to resume, and else ends clean at the target, reporting a change exactly if it did anything. |
| MigrationSafety.CleanMeansCompleted | backend/business/cmd/migrate/main.go:101-137 | Over any sequence of cut runs of any binaries, clean at v means that 1 to v have each been completed; dirty at v, that all below v have. |
| MigrationSafety.StartedInOrder | backend/business/cmd/migrate/main.go:105-137 | A version never starts before all lower ones are completed, the log is in ascending order, and no version but 12 is started twice. |
| MigrationInventory.ParseExact | backend/business/migrations/validate.go:19-29 | A file name is read as a version, title and direction if and only if it is six digits of that value, an underscore, the title on one line and the suffix of the direction. |
| MigrationInventory.Pigeonhole | backend/business/migrations/validate.go:48-54 | n keys that include 1 to n are exactly 1 to n. |
| MigrationInventory.Validate | backend/business/migrations/validate.go:14-55 | The inventory returns n if and only if the files are exactly the matched, readable pairs numbered 1 to n, and nothing if there is no such n. |
| CounterReduce.Reduce | backend/business/internal/alert/model.go:143-187 | A value is known if and only if there is data, the last sample is readable, at most 90 seconds old and not in the future, and an increase has two samples and never falls below zero; it is then the last, least, greatest or mean value, or the increase. |
| CounterReduce.IncreaseExact | backend/business/internal/alert/model.go:172-183 | For every counter, sampled anywhere, the increase is what was counted from the first sample to the last, less exactly what was counted before the last reset of each interval with a reset, and less the sample before it where the reset does not show as a fall. |
| CounterReduce.IncreaseUndercounts | backend/business/internal/alert/model.go:168-183 | For every counter that counts and resets, sampled anywhere, the increase lies between zero and what was really counted, equals it if there was no reset in between, and is never unknown. |
| CounterReduce.IncreaseAdditive | backend/business/internal/alert/model.go:172-183 | Splitting the samples at a shared one adds up. |
| Base64Url.DecodeEncode | backend/business/internal/comment/pagination.go:35-46 | Decoding an encoding gives the text back. |
| Base64Url.DecodeIsStrict | backend/business/internal/comment/pagination.go:35-46 | What is decoded is the encoding of the result: strict decoding is one to one. |
| Base64Url.LineEndsAreRefused | backend/business/internal/comment/pagination.go:42-49 | A token with a line end is decoded all the same, and is refused for it by the re-encoding check. |
| Base64Url.CanonicalExact | backend/business/internal/comment/pagination.go:46-49 | A token passes decoding and the re-encoding check if and only if it is the encoding of that text. |
| CommentCursor.CursorRoundTrip | backend/business/internal/comment/pagination.go:27-65 | Every positive 64-bit identifier survives encoding and decoding, and its token is within 256 characters; zero is not encoded. |
| CommentCursor.AcceptedTokens | backend/business/internal/comment/pagination.go:39-65 | Exactly which tokens are accepted, and for which identifier. |
| CommentCursor.ReencodesIff | backend/business/internal/comment/pagination.go:39-65 | A token is accepted and re-encodes to itself if and only if it is canonical Base64 of a text that has the version first, then the printed numeral of a positive 64-bit number, and nothing else. |
| CommentCursor.AcceptedReencodesIff | backend/business/internal/comment/pagination.go:39-65 | So an accepted token re-encodes to itself exactly if its text has that form. |
| CommentCursor.SwappedIsAccepted | backend/business/internal/comment/pagination.go:51-64 | So not every accepted token does: for every identifier, the payload with its members the other way round is accepted and re-encodes differently. |
| CommentCursor.NextPageUnderstood | backend/business/internal/comment/pagination.go:68-92 | The query that repeats a given limit and cursor parses to them. |

## Left out

- SQL text, drivers, isolation levels and lock waits: a transaction is one atomic step, and FOR UPDATE and FOR SHARE are that atomicity. Rows that a query may skip because they are locked are a parameter (`CleanupExpired`).
- BusinessRepository.Repository.CleanupExpired: the rows that its queries return, the outbox, the rows locked elsewhere and the clock are arguments.
- BusinessRepository.Repository.ParkMessage: the message columns that no decision reads are not modelled. That an insert with IGNORE skips a row that breaks a check constraint, and reports no error, is taken from MySQL.
- Keys are compared exactly. The columns `consumer`, `routing_contract_revision`, `projection_generation` and `command_type` are ASCII without a binary collation, so the tables take two spellings that differ in case for one key.
- Budget rows have the check constraints of `backend/business/migrations/000014_business_stage_evidence.up.sql`; breaking one is the outcome StoreError. Attempt counts and texts of recorded failures, `created_at` and `updated_at` columns, and HasRequirement as a query of its own are not modelled.
- LedgerLimits.LimitsHold: assumes fixed limits and requirements inserted by the modelled paths, which reserve at insert.
- EnvironmentGate.Gate.Run: the new epoch of Ensure and the number of undrained legacy messages are arguments.
- AlertStore.Store.Apply: the adapters that compute a value, their timeouts and the recovery from their panics are a parameter; the database and the workers share one clock, and times are whole microseconds.
- AlertStore.Store.Mutate: the metric, log and event catalogs are one flag of the input, and names are compared as texts without a collation.
- The database constraint that a rule has at most one active incident is not modelled: the coupling shows that it is never violated.
- The lease owner is random in the source; here a claim with an owner already used is no step.
- In the audit, the checks of created posts and comments, the index and the report of deletions (`DeleteAudit` takes their intervals as given), the counts of unmatched creates, orphans and asynchronous results, and the mapping from routes and paths to resources are left out.
- WriteIntake.Reader.Take: a start line without its time is an invalid line after its start. That the index then does not take the write of a start without its time or its route, which is one more invalid line if the write is confirmed and ends the whole audit with an exception if it is doubtful, is not modelled.
- WriteIntake.Reader.Resolve: the lookup of an unconfirmed create in the database is part of the request (absent, ambiguous or found), and the totals of resolved writes are not kept.
- WriteIntake.Reader.Build: the begin of the time window is not kept; it only bounds the counts that are left out.
- WriteAccounts.NothingLost: an outcome that the log itself does not call a write counts as refused.
- JsonPayloads.HandlerStrict: the typed decoding that follows the walk is left out, as it is after the other walks.
- The walk of the schema, of the exporter contract and of the plugin client is one method over a decoder that converts numbers or keeps them. Tokens stand for text, and names are compared as the decoder hands them out. That the decoder balances brackets, that converting a number beyond a 64-bit float is an error, and that the scanner accepts such a number and stops at a nesting of 10,000 are taken from Go's encoding/json.
- MetricContract.Validate: NaN and infinite sample values are refused before and so are not real numbers here; a nil label map is not told from an empty one. Reading a float and recognising UTF-8 are parameters. Of encoding/json it is assumed that it writes a label map with matching names and UTF-8 values as the object of `LabelText`, in some order; `SoundLibrary` shows that this can be met. Nothing is assumed of other maps.
- Keyset.List: the table does not change while the cursors are followed; signing the cursor, parsing the query and the filters' permitted values are left out.
- CommentCursor.CursorRoundTrip: reading JSON is a parameter, assumed to read the two members of the payload in either order.
- CounterReduce.Reduce: rounding, NaN and infinities of floating point.
- ReadinessProbe.Probes.Call: the caller's own timeout, its context and the root's cancellation while it waits are one step, giving up. How the HTTP routes use the probe is left out.
- MigrationRuns.Driver.Run: reading a migration's file cannot fail once the inventory is valid; "validate", "status" and "down" are left out. A failed driver call is a cut before or after its action.
- MigrationInventory.Validate: an unreadable or blank file is a flag of its directory entry; the version digits are read as a number of any size.
- HTTP handlers, routers, authentication, configuration, message brokers, search, the outbox dispatcher, stage queries, frontends and scripts.
