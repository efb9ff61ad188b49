# Verification of the EJECT control plane

This project models two parts of the EJECT repository in Dafny and proves what
they guarantee over every run.

**The eject command protocol.** One PostgreSQL database is shared by five
transactional stores: issuance, agent polling and results, recipient consent,
relationships and invitations, and device enrollment. `Schema.dfy` has the
tables. Each transaction is a function of the database (`Issuance`, `Transport`,
`Consent`, `Relationships`, `Devices`), and a class whose methods perform it
statement by statement on a mutable `Database` object (`IssuanceStore`,
`TransportStore`, `ConsentStore`, `RelationshipStore`, `DeviceStore`) is proved
equal to that function. `Protocol.dfy` makes the functions the steps of a state
machine, together with steps for what agents, operators and people change
elsewhere. `ControlPlane.dfy` proves that every transaction on the store objects
is such a step, and `Retry.dfy` that a call through the retry loop, whatever
fails, is one such step or none. Every step has its own clock readings, and
clocks are related only where a theorem says so. A violated constraint throws
and leaves the database as it was.

What each step answers and writes is also stated without those functions, by the
stored columns alone: `Verdicts` and `Eligibility` for issuing, `AgentAnswers` for
agents, `ConsentHistory`, `ConnectionHistory`, `InvitationHistory` and
`DeviceHistory` for the rest. The histories then show over whole runs that pauses,
relationships, grants, codes, secrets and devices are what the last step that
concerned them made of them.

The hard facts belong to no single store. `Reachability` has the joint invariant.
`LedgerMoves` reduces every step to six moves on the command ledger;
`LedgerTheorems`, `LifecycleEdges`, `Idempotency` and `ReplyChains` follow
lifecycles, results, idempotency and replies. `ConsentSafety` and
`ConsentTheorems` show that consent stays true of everything on its way and that
what is withdrawn is never delivered, `Grants` when a grant is needed.
`RateLimits`, `Windows`, `RateTheorems` and `WorstHour` bound how often a person
can be ejected, `SenderBound` and `SenderSchedules` how often one can eject;
`CounterAgreement` and `SenderAgreement` relate the counters to the log.
`ReplaySafety`, `QueueDiscipline`, `Overtaking`, `PollProgress`, `FleetInvariants`
and `DeviceTheorems` cover agents and devices. `Retention` is a bisimulation
between the store that deletes old invitations and one that does not. `Canonical`
shows that the texts which are hashed and signed determine their fields, which is
why digests elsewhere hold structured content.

**Session recovery in the browser.** `SessionModel` is the state machine of
`PersonSessionRecovery`, in which any number of `fetch` calls, refreshes and
sign-outs interleave in any order; `SessionRecovery` is the class itself, its
methods cut at every `await`; `SessionTheorems`, `SessionCalls`,
`SessionCauses` and `SessionGaps` hold for every interleaving.

`dafny verify dfyconfig.toml` checks everything.

## What turned out differently from what one might expect

- A recipient's hourly counter can disagree with the log. A counter row takes its
  window start from the clock of the step that creates it, usually the database's,
  which is read after the application's `now`. The counter agrees throughout
  exactly when that reading is not ahead of any command admitted to the recipient
  (`AgreesExactlyWhenDatedInTime`); if it is, the counter overcounts for exactly as
  long as that window lasts (`DisagreementLastsItsWindow`). Senders' counters
  need only that issues are in order (`SendersAgree`). No bound depends on
  a counter agreeing.
- The hourly limit is not a limit on every hour, because a window restarts instead
  of sliding: an hour can hold twice the limit, or as much as the cooldown lets
  through. It holds of every hour exactly when it is zero or the cooldown alone
  enforces it (`WorstHourExactly`, `LimitHoldsExactly`).
- With a cooldown of zero, which the schema allows, two commands can be dispatched
  to one device; with any positive cooldown never (`OrderedExactlyWithCooldown`).
- A nonce is accepted again exactly when, since its last accept, a transaction of
  its device has read a clock ten minutes later (`AcceptedAgainExactly`). One signed
  request, a minute wide, is therefore safe exactly as long as a device's
  transactions are known to lag each other by less than 540 seconds
  (`LagBoundExactly`).
- A sender has no cooldown, so late clocks can fill an hour that is over. Twice the
  sender's limit bounds every hour exactly when the clocks of the sender's commands
  are known to lag by at most one millisecond (`SenderLagExactly`); with no bound on
  the lag there is none on the hour (`SenderUnbounded`).
- A session that starts while a refresh is in flight can make its calls wait for it,
  although it belongs to another session, and give up on their 401 without a refresh
  of their own (`OtherSessionExactly`, `OthersRefreshStarves`). This a browser can
  show; a caller avoids it by starting sessions with no refresh in flight
  (`ClearStartsKeepApart`).
- A `fetch` can also repeat its request without any refresh of its session since it
  started, if its 401 arrives between a refresh's success and its cleanup. These are
  two callbacks of one promise. The application passes the browser's own `fetch`
  (`control-plane/src/app/web-console.tsx:110`), whose responses arrive as tasks that
  never run there, so in the application this gap never opens
  (`TaskOrderClosesGap`). Only an injected fetcher that answers with promises already
  settled opens it (`UnrefreshedExactly`, `OthersSuccessRepeats`).
- `docs/SECURITY.md:11` promises that nobody is ejected without an active grant.
  The code asks for a grant exactly for a plain eject under the NAMED audience
  (`GrantNeededExactly`): CONNECTED and ALL_AUTHENTICATED recipients and every
  EJECT_BACK do without. The model follows the code.
- The lifecycle graph and `docs/ARCHITECTURE.md:231` allow DISPATCHED to follow
  DISPATCHED, and the graph allows AUTHORIZED to be cancelled. No log ever does
  either; every other transition of the graph is taken by some run, and none that is
  not in it (`TableExactly`).

## Model

| member | source | states |
|---|---|---|
| `Domain.EffectiveExposureLimit` | control-plane/src/modules/eject/domain/exposure.ts:7-24 | The limit is one of the three ceilings and no greater than any of them; there is none exactly when some ceiling is not a non-negative safe integer. |
| `Domain.DeniedForFirstReason` | control-plane/src/modules/eject/domain/authorization.ts:45-111 | Each reason has a condition of its own; a request is denied for the first reason in the documented order whose condition holds, allowed exactly when none holds, and errs on out-of-range ceilings only if nothing earlier denies it. |
| `Verdicts.VerdictExactly` | control-plane/src/modules/eject/domain/authorization.ts:45-87 | By the stored columns alone: a request under a new key is rejected for the first obstacle in the documented order, queued if and only if there is none, and not answered if and only if a joined row is missing or a constraint is broken. |
| `Verdicts.AdmittedExactly` | control-plane/src/modules/eject/infrastructure/postgres-issuance-store.ts:143-181 | Over all databases with one live device for each owner: a request puts a command in the queue if and only if its key is new, the rows and constraints allow it, and account, block, audience or reply source, eligibility, pause, cooldown, all four limits and device let it through. |
| `Eligibility.SenderReachesExactly` | control-plane/src/modules/eject/domain/authorization.ts:102-111 | Over all databases and steps, sound ones or any: a sender of some participation and availability can reach a recipient of some eligibility setting if and only if the setting admits every account or the sender is a ready participant who is available. |
| `Canonical.ReadBackExactly` | control-plane/src/modules/eject/application/idempotency.ts:11-17 | Fields joined by newlines are read back unchanged if and only if none of them contains a newline. |
| `Canonical.RequestTextIsMeaning` | control-plane/src/modules/eject/application/idempotency.ts:10-20 | Two requests have one canonical text if and only if they agree on actor, recipient, action and reply source. |
| `Canonical.ResultTextIsReport` | control-plane/src/modules/eject/application/ingest-agent-result.ts:102-114 | Two agent results have one canonical text if and only if they are the same report, through all eight refusal and eight attempt codes. |
| `Canonical.SignedTextIsRequest` | control-plane/src/modules/devices/application/authenticate-agent-request.ts:102-113 | A signed text fixes every signed header field, for headers of the shapes the parser admits. |
| `Canonical.NonceTextIsNonce` | control-plane/src/modules/devices/application/authenticate-agent-request.ts:94-96 | The nonce digest names its device and its nonce and nothing else. |
| `IssuanceStore.IssueEject.Issue` | control-plane/src/modules/eject/application/issue-eject.ts:79-124 | One attempt of the use case: the database afterwards and the answer are those of the transaction function, and a throw leaves no trace. |
| `IssuanceStore.IssuanceTransaction.FindIdempotentResult` | control-plane/src/modules/eject/infrastructure/postgres-issuance-store.ts:98-127 | Finds the request the actor bound to the key, if any, with its stored fingerprint and answer. |
| `IssuanceStore.IssuanceTransaction.LoadAuthorizationFacts` | control-plane/src/modules/eject/infrastructure/postgres-issuance-store.ts:129-217 | Writes at most the sender's counter row, and leaves in the two fields the device and cooldown that recording will use. |
| `IssuanceStore.IssuanceTransaction.RecordRejection` | control-plane/src/modules/eject/infrastructure/postgres-issuance-store.ts:219-253 | Stores the rejected request with the events REQUESTED and REJECTED, or throws on a violated constraint. |
| `IssuanceStore.IssuanceTransaction.RecordQueued` | control-plane/src/modules/eject/infrastructure/postgres-issuance-store.ts:255-325 | Stores request, command and three events and counts the command for both people, or throws when there is no device or a constraint is violated. |
| `TransportStore.AgentTransportStore.ConsumeNonce` | control-plane/src/modules/eject/infrastructure/postgres-agent-transport-store.ts:268-307 | Purges the device's expired nonces; accepts exactly an unused nonce of a live key, and tells a replay from a failed authentication. |
| `TransportStore.AgentTransportStore.SelectHead` | control-plane/src/modules/eject/infrastructure/postgres-agent-transport-store.ts:65-80 | Finds the earliest outstanding command of the device by issue time and then identifier, or that there is none. |
| `TransportStore.AgentTransportStore.Poll` | control-plane/src/modules/eject/infrastructure/postgres-agent-transport-store.ts:58-144 | The whole poll: nonce gate, then the head expires, is cancelled, is withheld, or is delivered and dispatched. |
| `TransportStore.AgentTransportStore.Ingest` | control-plane/src/modules/eject/infrastructure/postgres-agent-transport-store.ts:146-248 | The whole report: nonce gate, mismatch, duplicate, conflict, wrong status, or a stored result with its events and status. |
| `TransportStore.AgentTransportStore.IngestAgentResult` | control-plane/src/modules/eject/application/ingest-agent-result.ts:72-99 | A report for another device or recorded more than thirty seconds ahead never reaches the store. |
| `ConsentStore.RecipientConsentStore.SetPaused` | control-plane/src/modules/permissions/infrastructure/postgres-recipient-consent-store.ts:62-84 | Upserts the pause and, when pausing, cancels everything outstanding to the recipient. |
| `ConsentStore.RecipientConsentStore.SetGrant` | control-plane/src/modules/permissions/infrastructure/postgres-recipient-consent-store.ts:86-133 | Grants only across an active relationship to an active account; withdrawing deletes the grant and cancels that actor's outstanding commands. |
| `Stores.CancelEach` | control-plane/src/modules/permissions/infrastructure/postgres-recipient-consent-store.ts:149-163 | The cancelling loop, one command and one event at a time in identifier order, equals cancelling the set at once. |
| `RelationshipStore.RelationshipStore.CreateInvitation` | control-plane/src/modules/permissions/infrastructure/postgres-relationship-store.ts:16-53 | Cleans up, then invalidates the inviter's pending invitations and adds the new one, or throws without a trace. |
| `RelationshipStore.RelationshipStore.AcceptInvitation` | control-plane/src/modules/permissions/infrastructure/postgres-relationship-store.ts:55-152 | Uses a live invitation of another active person and connects the pair; reconnecting deletes their grants. |
| `RelationshipStore.RelationshipStore.DisconnectRelationship` | control-plane/src/modules/permissions/infrastructure/postgres-relationship-store.ts:154-235 | Ends the relationship, deletes both grants and cancels outstanding commands in both directions. |
| `RelationshipStore.RelationshipStore.CleanupInTransaction` | control-plane/src/modules/permissions/infrastructure/postgres-relationship-store.ts:252-272 | Deletes at most `limit` stale rows, the stalest first, and leaves a stale row only if it is held or the limit is reached. |
| `RelationshipStore.RelationshipStore.CleanupInvitations` | control-plane/src/modules/permissions/infrastructure/postgres-relationship-store.ts:237-250 | Accepts limits from 1 to 500 and throws on every other. |
| `DeviceStore.DeviceEnrollmentStore.CreateEnrollment` | control-plane/src/modules/devices/infrastructure/postgres-device-enrollment-store.ts:43-80 | Closes the owner's open sessions and opens one, for active owners without a device. |
| `DeviceStore.DeviceEnrollmentStore.ConsumeEnrollment` | control-plane/src/modules/devices/infrastructure/postgres-device-enrollment-store.ts:82-153 | Uses an unexpired session once, adding one device in setup with one key. |
| `DeviceStore.DeviceEnrollmentStore.RevokeDevice` | control-plane/src/modules/devices/infrastructure/postgres-device-enrollment-store.ts:155-216 | Revokes the owner's device and its keys, closes sessions and cancels the device's outstanding commands. |
| `ControlPlane.Execute` | control-plane/src/modules/eject/infrastructure/postgres-issuance-store.ts:63-78 | One transaction: every call on the stores, in any reachable database and with any rows held elsewhere, is a step of the protocol with that step's reply, and keeps the joint invariant. |
| `Retry.WithRetry` | control-plane/src/modules/eject/infrastructure/postgres-agent-transport-store.ts:250-265 | For every schedule of failures a call on the stores ends as its first decisive attempt prescribes, after at most `maximumAttempts` tries, all earlier ones retryable, and keeps the joint invariant. |
| `Retry.AllOrNothing` | control-plane/src/modules/eject/infrastructure/postgres-issuance-store.ts:61-86 | A call through the loop is exactly one step of the protocol with its reply, or an error and the database unchanged; the trailing throw is reached if and only if no attempt was allowed. |
| `Verdicts.VerdictIsRecorded` | control-plane/src/modules/eject/infrastructure/postgres-issuance-store.ts:219-303 | The request row, the command row and the log after any answer to a new key, column by column, and that nothing else changes but counters. |
| `Verdicts.CountersExactly` | control-plane/src/modules/eject/infrastructure/postgres-issuance-store.ts:304-319 | Both counter rows after any answer: opened by a rejection, and counted, restarted, cooled down and revised by a queued command. |
| `AgentAnswers.GateExactly` | control-plane/src/modules/eject/infrastructure/postgres-agent-transport-store.ts:268-307 | A used nonce is a replay whatever the key; an unused one passes if and only if the device is ready, the key is its own and unrevoked, and the owner is active and not revoked. |
| `AgentAnswers.HandedExactly` | control-plane/src/modules/eject/infrastructure/postgres-agent-transport-store.ts:65-142 | A poll hands out a command if and only if it passes the gate and the earliest waiting command is in time, delivery is on, and the device row is available with an approved drive; the answer is that command's own columns. |
| `AgentAnswers.PollWritesExactly` | control-plane/src/modules/eject/infrastructure/postgres-agent-transport-store.ts:83-130 | Which command takes on which status with which event, under each condition, and which nonces remain; a withheld command leaves the ledger as it was. |
| `AgentAnswers.ReportAnsweredExactly` | control-plane/src/modules/eject/infrastructure/postgres-agent-transport-store.ts:146-187 | A report is stored if and only if it is the device's, at most thirty seconds ahead, passes the gate, and is the first on a dispatched command of the device; each other answer has its own condition. |
| `AgentAnswers.ReportWritesExactly` | control-plane/src/modules/eject/infrastructure/postgres-agent-transport-store.ts:189-246 | Exactly that observation is stored, and the status and the log gain what its disposition and code prescribe; any other report leaves the ledger as it was. |
| `AgentAnswers.EveryResultWasReported` | control-plane/src/modules/eject/infrastructure/postgres-agent-transport-store.ts:173-200 | Every result in every reachable database is the observation, and carries the clock, of a report of the run that was stored as the first on its command. |
| `AgentAnswers.StoredOnce` | control-plane/src/modules/eject/infrastructure/postgres-agent-transport-store.ts:176-187 | No other report of the run is ever stored for that command. |
| `ConsentHistory.PauseWritesExactly` | control-plane/src/modules/permissions/infrastructure/postgres-recipient-consent-store.ts:62-84 | A pause is set for everyone who has controls, and only the pause, or else the schema's defaults; pausing calls off everything on its way with its reason in the log. |
| `ConsentHistory.GrantWritesExactly` | control-plane/src/modules/permissions/infrastructure/postgres-recipient-consent-store.ts:86-133 | A grant is given if and only if the two are related and the actor is active, withdrawn always, and no other grant or policy changes. |
| `ConnectionHistory.AcceptWritesExactly` | control-plane/src/modules/permissions/infrastructure/postgres-relationship-store.ts:55-152 | An invitation is used if and only if it is unused, not superseded, unexpired and between two different active people; what the use writes to invitations, relationships and grants. |
| `ConnectionHistory.DisconnectWritesExactly` | control-plane/src/modules/permissions/infrastructure/postgres-relationship-store.ts:154-235 | Two related people with controls are disconnected, with both grants and everything on its way between them; otherwise only counter rows may open. |
| `InvitationHistory.InviteWritesExactly` | control-plane/src/modules/permissions/infrastructure/postgres-relationship-store.ts:16-53 | The new row with its ten minutes, the rows it supersedes, and when a check fails and nothing at all changes. |
| `InvitationHistory.CleanupWritesExactly` | control-plane/src/modules/permissions/infrastructure/postgres-relationship-store.ts:237-272 | A cleanup deletes only rows that were used, superseded or expired before its time, within a limit from 1 to 500. |
| `InvitationHistory.SweepIsStale` | control-plane/src/modules/permissions/infrastructure/postgres-relationship-store.ts:20-24 | Inviting and accepting delete at most a hundred rows, each stale for a day. |
| `DeviceHistory.OpenWritesExactly` | control-plane/src/modules/devices/infrastructure/postgres-device-enrollment-store.ts:43-80 | A session of ten minutes for an active owner without a device, and the owner's sessions it closes; each refusal has its own condition. |
| `DeviceHistory.EnrollWritesExactly` | control-plane/src/modules/devices/infrastructure/postgres-device-enrollment-store.ts:82-153 | A secret enrolls one device in setup with one key if and only if its session is open to it, the owner has none and both identifiers are free; each refusal has its own condition. |
| `DeviceHistory.RevokeWritesExactly` | control-plane/src/modules/devices/infrastructure/postgres-device-enrollment-store.ts:155-216 | The owner, and nobody else, revokes a device, its keys, the owner's sessions and everything on its way to the device. |
| `LedgerMoves.StepMoves` | control-plane/src/modules/eject/infrastructure/postgres-issuance-store.ts:219-339 | Every step of every store acts on requests, commands, events and results as one of six legal moves, or not at all. |
| `Reachability.RunInv` | control-plane/migrations/0001_initial_control_plane.sql:79-156 | The joint invariant of ledger, devices, consent and counters holds in every database of every run. |
| `LedgerTheorems.EveryLogIsAPath` | control-plane/src/modules/eject/domain/lifecycle.ts:15-42 | In every reachable database every request's events form a path of the lifecycle graph from REQUESTED without a repeated state, ending in the command's status or in REJECTED. |
| `LifecycleEdges.TableExactly` | control-plane/src/modules/eject/domain/lifecycle.ts:15-42 | A transition is in the lifecycle table if and only if some run's log takes it, or it is one of two that no run takes. |
| `LedgerTheorems.RunExtends` | control-plane/src/modules/eject/infrastructure/postgres-agent-transport-store.ts:83-130 | Along a run nothing recorded is lost or rewritten, logs only grow, and a command in a terminal status is frozen together with its log. |
| `LedgerTheorems.ResultExactlyWhenSettled` | control-plane/src/modules/eject/infrastructure/postgres-agent-transport-store.ts:173-246 | In every reachable database a command has a result if and only if its status is REJECTED_BY_AGENT, FAILED or OUTCOME_UNKNOWN; the result is its own device's and determines which. |
| `LedgerTheorems.ReportedForever` | control-plane/src/modules/eject/infrastructure/postgres-agent-transport-store.ts:173-187 | Once a result is stored, every later report on the command in any continuation changes nothing but nonces, and is told whether it repeats that result or conflicts with it. |
| `LedgerTheorems.KeyBoundForever` | control-plane/src/modules/eject/application/issue-eject.ts:82-97 | An idempotency key stays bound to its first answer in every continuation; another meaning under it is a conflict, and neither does more than create an empty counter row. |
| `LedgerTheorems.OneCommandPerKey` | control-plane/src/modules/eject/application/issue-eject.ts:82-97 | In any run one actor and one idempotency key never have two commands. |
| `Idempotency.SameAnswerForever` | control-plane/src/modules/eject/application/issue-eject.ts:82-97 | After its first answer a key is answered alike at every later point of any run, with the very same answer if the request is the same and as a conflict otherwise, and leaves the ledger as it was. |
| `ConsentSafety.StepKeepsConsent` | control-plane/src/modules/permissions/infrastructure/postgres-recipient-consent-store.ts:75-164 | Every step keeps both halves of the consent invariant: outstanding commands are permitted, and every grant rests on an active relationship. |
| `ConsentSafety.NoGrantsWhileApart` | control-plane/src/modules/permissions/infrastructure/postgres-relationship-store.ts:129-142 | Reconnecting, which deletes grants without cancelling, finds none to delete. |
| `ConsentTheorems.OutstandingIsPermitted` | control-plane/src/modules/eject/domain/authorization.ts:87-100 | In every reachable database an outstanding command has an unpaused recipient and, unless it is a reply, a related and where required granted actor. |
| `ConsentTheorems.DeliveredIsPermitted` | control-plane/src/modules/eject/infrastructure/postgres-agent-transport-store.ts:65-142 | What a poll delivers is unexpired, is for the polling device and its owner, which is ready and available with an approved drive, is permitted at that moment, and is described by the command's own actor and times. |
| `ConsentTheorems.WithdrawalIsExact` | control-plane/src/modules/permissions/infrastructure/postgres-recipient-consent-store.ts:135-164 | Pausing, revoking a grant, disconnecting and revoking a device cancel exactly the outstanding commands they concern and touch no other. |
| `ConsentTheorems.WithdrawnIsNeverDelivered` | control-plane/src/modules/permissions/infrastructure/postgres-relationship-store.ts:191-232 | A command issued before a withdrawal that concerns it is never delivered after it, whatever is permitted again later. |
| `ConsentHistory.PausedExactly` | control-plane/src/modules/permissions/infrastructure/postgres-recipient-consent-store.ts:66-73 | In every database of any run a recipient is paused if and only if the last pause that was set says so. |
| `ConsentHistory.PauseStopsExactly` | control-plane/src/modules/eject/domain/authorization.ts:57-59 | From a pause to the recipient's next no command to the recipient is admitted, and every new, otherwise permitted request is refused for the pause; from an unpause on none is. |
| `ConnectionHistory.RelatedExactly` | control-plane/src/modules/permissions/infrastructure/postgres-relationship-store.ts:109-189 | In every database of any run two people are connected if and only if the last step that joined or parted them joined them. |
| `ConnectionHistory.GrantedExactly` | control-plane/src/modules/permissions/infrastructure/postgres-recipient-consent-store.ts:98-129 | In every database of any run a grant stands if and only if the last step that gave or took it gave it; a disconnection takes it, a reconnection takes nothing. |
| `Grants.GrantNeededExactly` | control-plane/src/modules/eject/domain/authorization.ts:87-100 | Over all databases and steps, sound ones or any, a grant stands behind every admitted command if and only if it is a plain eject to a recipient with the NAMED audience. |
| `Grants.Ungranted` | control-plane/src/modules/eject/domain/authorization.ts:88-98 | For every other audience and action, a sound database without any grant that admits such a command. |
| `ReplyChains.AdmissionChecked` | control-plane/src/modules/eject/infrastructure/postgres-issuance-store.ts:148-175 | An admitted command had an unpaused recipient and, unless a reply, an actor in the recipient's audience at that moment. |
| `ReplyChains.Provenance` | control-plane/src/modules/eject/infrastructure/postgres-issuance-store.ts:255-279 | Every command of a run was admitted by a step of it. |
| `ReplyChains.ChainStartsConsented` | control-plane/src/modules/eject/infrastructure/postgres-issuance-store.ts:167-174 | Following reply sources from any command ends at a standard command between the same two people that passed the audience check when issued. |
| `ReplyChains.RepliedAtMostOnce` | control-plane/src/modules/eject/infrastructure/postgres-issuance-store.ts:167-174 | In any run a command has at most one reply, and a reply swaps actor and recipient. |
| `RateTheorems.HourlyBound` | control-plane/src/modules/eject/infrastructure/postgres-issuance-store.ts:304-312 | No hour-long interval of any run holds more than twice the largest limit ever in force for the recipient, whatever the clocks do. |
| `WorstHour.WorstHourExactly` | control-plane/src/modules/eject/infrastructure/postgres-issuance-store.ts:304-312 | From an idle deployment with limit L and cooldown c, a bound holds of every hour of every run if and only if it is at least 2L, or at least ceil(3600 / c) where that is less. |
| `WorstHour.LimitHoldsExactly` | control-plane/src/modules/eject/domain/authorization.ts:72-78 | No run puts more than L commands into an hour if and only if L is zero or L * c is at least 3600. |
| `WorstHour.TwiceTheLimitIsReached` | control-plane/src/modules/eject/infrastructure/postgres-issuance-store.ts:306-307 | Without a cooldown some run puts twice the limit into an hour. |
| `RateTheorems.CooldownBound` | control-plane/src/modules/eject/infrastructure/postgres-issuance-store.ts:308 | With a cooldown of c seconds no hour holds more than ceil(3600 / c) of a recipient's commands. |
| `RateTheorems.AcceptCounts` | control-plane/src/modules/eject/infrastructure/postgres-issuance-store.ts:304-312 | An accept finds a counter below the limit in force, is not earlier than any of the recipient's commands, and moves the counter as the window arithmetic says. |
| `RateTheorems.CountWithinLimit` | control-plane/src/modules/eject/infrastructure/postgres-issuance-store.ts:304-312 | The counter after an accept never exceeds the limit in force at it. |
| `SenderBound.SenderHourlyBound` | control-plane/src/modules/eject/domain/authorization.ts:73-78 | No hour of any run holds more than twice the sender's limit of one sender's commands, if none reads a clock more than a millisecond before an earlier one's. |
| `SenderSchedules.SenderLagExactly` | control-plane/src/modules/eject/infrastructure/postgres-issuance-store.ts:313-319 | Over all runs whose lags between one sender's commands stay below a bound, that holds if and only if the bound is at most two milliseconds. |
| `SenderSchedules.ScheduleRun` | control-plane/src/modules/eject/infrastructure/postgres-issuance-store.ts:313-319 | Whatever times the window arithmetic permits, some run sends commands at exactly those times. |
| `SenderSchedules.SenderUnbounded` | control-plane/src/modules/eject/infrastructure/postgres-issuance-store.ts:314-316 | With no bound on the lag some run dates any number of one sender's commands into one hour. |
| `RateTheorems.RevisionCountsAll` | control-plane/src/modules/eject/infrastructure/postgres-issuance-store.ts:309 | The revision is the number of commands ever issued to the recipient. |
| `CounterAgreement.AcceptAgreesExactly` | control-plane/src/modules/eject/infrastructure/postgres-issuance-store.ts:158 | An accept keeps a recipient's counter equal to its commands since the window began if and only if that window has begun by the accept's clock; otherwise the counter overcounts. |
| `CounterAgreement.RecipientAgreesExactly` | control-plane/src/modules/eject/infrastructure/postgres-issuance-store.ts:304-312 | In any run, whatever its clocks, a recipient's counter agrees with the log in every database if and only if every command admitted to it is counted in a window that has begun. |
| `CounterAgreement.AgreesExactlyWhenDatedInTime` | control-plane/src/modules/eject/infrastructure/postgres-issuance-store.ts:67-71 | Equivalently, the clock reading that dated the recipient's row is not ahead of any command admitted to the recipient. |
| `CounterAgreement.DisagreementLastsItsWindow` | control-plane/src/modules/eject/infrastructure/postgres-issuance-store.ts:306-307 | A counter that disagrees does so for exactly as long as its window lasts, and never again after the restart. |
| `CounterAgreement.AheadClockDisagrees` | control-plane/src/modules/eject/infrastructure/postgres-issuance-store.ts:67-71 | A concrete deployment in which a database clock one millisecond ahead makes a counter miss its own first command. |
| `SenderAgreement.SenderAgreesExactly` | control-plane/src/modules/eject/infrastructure/postgres-issuance-store.ts:313-319 | A sender's counter agrees throughout a run if and only if every command from the sender is counted in a window that has begun. |
| `SenderAgreement.SendersAgree` | control-plane/src/modules/eject/infrastructure/postgres-issuance-store.ts:132-136 | With issues in order every sender's counter agrees throughout, whatever every other clock reads. |
| `SenderAgreement.CountersAgree` | control-plane/src/modules/eject/infrastructure/postgres-issuance-store.ts:304-319 | With issues in order and no recipient's row dated ahead of a command admitted to it, all counters agree throughout. |
| `ReplaySafety.NonceHeld` | control-plane/src/modules/eject/infrastructure/postgres-agent-transport-store.ts:273-292 | An accepted nonce survives every purge until a transaction of its device reads a clock ten minutes past it. |
| `ReplaySafety.AcceptedAgainExactly` | control-plane/src/modules/eject/infrastructure/postgres-agent-transport-store.ts:273-302 | A nonce presented again with a live key is accepted if and only if, since its last accept, a transaction of the device, possibly this one, has read a clock ten minutes past that accept's. |
| `ReplaySafety.AcceptedAtMostOnce` | control-plane/src/modules/devices/application/authenticate-agent-request.ts:84-98 | Two transactions of a run that accept one signed request are the same transaction, if no transaction of that device lags an earlier one's clock by 540 seconds. |
| `ReplaySafety.LagBoundExactly` | control-plane/src/modules/devices/application/authenticate-agent-request.ts:84-98 | Over all runs whose device lags stay below a bound, one signed request is accepted at most once if and only if the bound is at most 540 seconds. |
| `ReplaySafety.LagOf540Replays` | control-plane/src/modules/eject/infrastructure/postgres-agent-transport-store.ts:273-282 | At a lag of exactly 540 seconds one signed request is accepted twice. |
| `QueueDiscipline.RunKeepsQueue` | control-plane/src/modules/eject/infrastructure/postgres-agent-transport-store.ts:74-77 | With a positive cooldown a dispatched command precedes every other outstanding command of its device, in every run. |
| `QueueDiscipline.OneDispatchedPerDevice` | control-plane/src/modules/eject/infrastructure/postgres-agent-transport-store.ts:117-130 | In every such run a dispatched command is the head of its device's queue and the rest of the queue is only queued. |
| `Overtaking.OrderedExactlyWithCooldown` | control-plane/src/modules/eject/infrastructure/postgres-issuance-store.ts:308 | From an idle deployment, no run ever has two commands dispatched to one device if and only if the cooldown is positive. |
| `PollProgress.HeadExists` | control-plane/src/modules/eject/infrastructure/postgres-agent-transport-store.ts:74-81 | A device with outstanding commands has a head. |
| `PollProgress.LiveHeadLiveQueue` | control-plane/src/modules/eject/infrastructure/postgres-issuance-store.ts:259 | A live head means that everything outstanding on the device is live. |
| `PollProgress.PollRemovesExactly` | control-plane/src/modules/eject/infrastructure/postgres-agent-transport-store.ts:83-113 | An accepted poll settles exactly the head if it cannot be delivered, as expired if it is out of date and else as cancelled, and removes nothing otherwise. |
| `PollProgress.DeliverableHeadIsDelivered` | control-plane/src/modules/eject/infrastructure/postgres-agent-transport-store.ts:115-142 | A deliverable head is handed out by every accepted poll and stays the head, dispatched. |
| `PollProgress.PollsDrain` | control-plane/src/modules/eject/infrastructure/postgres-agent-transport-store.ts:83-113 | Accepted polls empty a queue that cannot be delivered if and only if there are at least as many of them as commands. |
| `PollProgress.InterleavedPollsDrain` | control-plane/src/modules/eject/infrastructure/postgres-agent-transport-store.ts:83-113 | Whatever else happens between such polls, as long as nothing new is admitted to the device, each takes one command off its queue. |
| `FleetInvariants.StepKeepsFleet` | control-plane/src/modules/devices/infrastructure/postgres-device-enrollment-store.ts:56-151 | Every step keeps one live device and one open session for each owner, keys on live devices only, and commands on their recipients' devices. |
| `DeviceTheorems.TargetIsDetermined` | control-plane/migrations/0003_device_enrollment_and_revocation.sql:4-6 | The join that finds a recipient's device has at most one row. |
| `DeviceTheorems.RevokedIsSilent` | control-plane/src/modules/devices/infrastructure/postgres-device-enrollment-store.ts:179-214 | A revoked device never again has a live key or an outstanding command, and every later poll of it is refused. |
| `DeviceTheorems.EnrollsAtMostOnce` | control-plane/src/modules/devices/infrastructure/postgres-device-enrollment-store.ts:100-131 | An enrollment secret enrolls at most one device in any run. |
| `DeviceHistory.SecretWorksExactly` | control-plane/src/modules/devices/infrastructure/postgres-device-enrollment-store.ts:88-131 | In any run an enrollment secret enrolls if and only if it comes within ten minutes of being issued, before another is issued to its owner, it is used or the owner's device is revoked, for an active owner without a device. |
| `DeviceHistory.DeviceStateExactly` | control-plane/src/modules/devices/infrastructure/postgres-device-enrollment-store.ts:132-191 | In every database of any run a device exists, and is in setup, ready or revoked, exactly as enrolling, setting up and revoking have made it. |
| `DeviceHistory.RevocationSilences` | control-plane/src/modules/devices/infrastructure/postgres-device-enrollment-store.ts:179-214 | From its owner's revocation on a device has no live key and nothing on its way, and every poll of it is refused. |
| `Retention.StepAlike` | control-plane/src/modules/permissions/infrastructure/postgres-relationship-store.ts:252-272 | One step keeps the relation between a store that deletes stale rows and one that never does, with equal answers. |
| `Retention.RetentionIsInvisible` | control-plane/src/modules/permissions/infrastructure/postgres-relationship-store.ts:59-86 | Over whole runs with a nondecreasing clock and fresh digests both stores answer every caller alike and, after every step and at the end, differ in nothing but invitations. |
| `Retention.ConnectsAtMostOnce` | control-plane/src/modules/permissions/infrastructure/postgres-relationship-store.ts:77-86 | An invitation code connects at most one accepter, whatever the clocks and deletions. |
| `InvitationHistory.CodeWorksExactly` | control-plane/src/modules/permissions/infrastructure/postgres-relationship-store.ts:64-107 | In any run an invitation code works if and only if one active person gives it to another's invitation within ten minutes of its issue, before it is superseded, used or deleted. |
| `SessionRecovery.PersonSessionRecovery.StartSession` | control-plane/src/app/person-session-recovery.ts:20-23 | The new state of the object and of its environment. |
| `SessionRecovery.PersonSessionRecovery.EndSession` | control-plane/src/app/person-session-recovery.ts:25-29 | The new state, and the promise to wait for: the refresh in flight, if any. |
| `SessionRecovery.PersonSessionRecovery.FetchAnswered` | control-plane/src/app/person-session-recovery.ts:46-51 | The first continuation of a call: return, or wait for a refresh. |
| `SessionRecovery.PersonSessionRecovery.FetchRefreshed` | control-plane/src/app/person-session-recovery.ts:51-60 | The second continuation: return, or send the request again. |
| `SessionRecovery.PersonSessionRecovery.FetchRetried` | control-plane/src/app/person-session-recovery.ts:60-68 | The last continuation: reject the session only on an own, current, unaborted 401. |
| `SessionRecovery.PersonSessionRecovery.Refresh` | control-plane/src/app/person-session-recovery.ts:71-104 | What a caller waits for, and when a request is sent for it. |
| `SessionRecovery.PersonSessionRecovery.RefreshAnswered` | control-plane/src/app/person-session-recovery.ts:88-99 | What a refresh response does to the session it was sent for, and that it does nothing to another. |
| `SessionRecovery.PersonSessionRecovery.Turn` | control-plane/src/app/person-session-recovery.ts:43-104 | Every turn of the event loop is a transition of the state machine. |
| `SessionCauses.RotatesExactly` | control-plane/src/app/person-session-recovery.ts:88-99 | A refresh succeeds and the generation advances by one if and only if the response is a 204 and the session that sent it is live. |
| `SessionCauses.FirstTurnsExactly` | control-plane/src/app/person-session-recovery.ts:46-86 | What a call does after its first response, and that a refresh is sent if and only if an unaborted 401 finds its live session unrotated with none in flight. |
| `SessionCauses.ResumeTurnsExactly` | control-plane/src/app/person-session-recovery.ts:51-60 | The request is sent again if and only if the refresh went well, the session is live and the caller has not aborted. |
| `SessionCauses.SecondTurnsExactly` | control-plane/src/app/person-session-recovery.ts:60-68 | What the second response leaves: the call returns, and only an unaborted 401 to the live session ends the session. |
| `SessionCauses.AnswerTurnsExactly` | control-plane/src/app/person-session-recovery.ts:88-99 | What a refresh response leaves, in every field, for every response. |
| `SessionCauses.OtherTurnsExactly` | control-plane/src/app/person-session-recovery.ts:20-29 | What starting, ending, calling and cleaning up leave, in every field. |
| `SessionCauses.SuccessWasRotation` | control-plane/src/app/person-session-recovery.ts:92-95 | In any run a refresh that has succeeded was answered with a 204 while its session was live. |
| `SessionTheorems.StepKeepsFlight` | control-plane/src/app/person-session-recovery.ts:78-103 | Under any interleaving only the last refresh can be unfinished, and nothing is sent for a generation already rotated. |
| `SessionTheorems.RotatesAtMostOnce` | control-plane/src/app/person-session-recovery.ts:71-104 | Two refresh requests are never outstanding together, and one generation is rotated at most once however the calls are staggered. |
| `SessionTheorems.EveryRefreshHasItsCaller` | control-plane/src/app/person-session-recovery.ts:75-81 | Every refresh of a run was sent for a current call in that call's session and generation, the two numbers that its rotation uses up. |
| `SessionCalls.SendsAtMostTwice` | control-plane/src/app/person-session-recovery.ts:43-69 | A call sends its own request once or twice. |
| `SessionCauses.SecondRequestIsJustified` | control-plane/src/app/person-session-recovery.ts:51-60 | The second time only in its own live session and after a 204 event for a live session's refresh: one of its own session, answered after the call started, or the one the call waited for, answered before. |
| `SessionGaps.JoinsSuccessExactly` | control-plane/src/app/person-session-recovery.ts:75-79 | A call joins a refresh that had succeeded before the call started if and only if its 401 arrives, in its own live and unrotated session, between that refresh's success and its cleanup. |
| `SessionGaps.UnrefreshedExactly` | control-plane/src/app/person-session-recovery.ts:78-79 | A call can repeat its request without a refresh of its session since it started if and only if it starts in a live session at that moment and responses may arrive in any order; with responses that arrive as tasks it never can. |
| `SessionGaps.TaskOrderClosesGap` | control-plane/src/app/person-session-recovery.ts:88-102 | In every run whose responses arrive as tasks a request is repeated only after a refresh of its own session since the call started, whatever callers do. |
| `SessionGaps.OtherSessionExactly` | control-plane/src/app/person-session-recovery.ts:75-79 | The calls of a session can wait for another session's refresh if and only if one is in flight as the session starts and, if responses arrive as tasks, has not already succeeded. |
| `SessionGaps.OthersRefreshStarves` | control-plane/src/app/person-session-recovery.ts:88-91 | An interleaving, with responses as tasks, in which another session's refresh makes a call give up although its own session never refreshed. |
| `SessionGaps.OthersSuccessRepeats` | control-plane/src/app/person-session-recovery.ts:78-81 | An interleaving, with responses settled in advance, in which a call repeats its request on the strength of another session's refresh. |
| `SessionGaps.ClearStartsKeepApart` | control-plane/src/app/person-session-recovery.ts:20-23 | If no session starts with a refresh in flight, no call of any session ever waits for another session's. |
| `SessionGaps.DisciplineClosesGaps` | control-plane/src/app/person-session-recovery.ts:20-23 | With such starts, and responses as tasks or calls that start clear of that moment, both gaps are closed. |
| `SessionCalls.StaleSessionIsInert` | control-plane/src/app/person-session-recovery.ts:88-91 | Whatever still arrives for a session that is over changes no session and sends nothing. |
| `SessionCalls.EndsExactlyOnOwn401` | control-plane/src/app/person-session-recovery.ts:61-67 | A response ends a session and notifies if and only if it is a 401 to that session's own refresh or repeated request. |
| `SessionCalls.NotifiedAtMostOnce` | control-plane/src/app/person-session-recovery.ts:106-110 | `onUnauthorized` is called at most once between starts, and only with the session signed out. |
| `SessionCalls.SignOutIsOrdered` | control-plane/src/app/person-session-recovery.ts:25-29 | When the promise of `endSession` settles nothing sent before it is outstanding, and nothing at all until a session starts again. |

## Left out

- WithRetry: a connection lost during commit, after which the client cannot know whether the transaction took effect, is not a fate of an attempt. The loop is written once for every store, around a call instead of a callback.
- RetentionIsInvisible: the count a cleanup returns to its operator differs between the two stores and is not compared.
- CleanupInTransaction: the rows that `SKIP LOCKED` skips are a parameter, and in the state machine a cleanup may delete any stale rows within its limit.
- LoadAuthorizationFacts: quiet hours are fixed to false as in the code; blocks and account restriction are read but no step changes them.
- AcceptedAtMostOnce: the public key is read in a transaction of its own before the nonce is consumed, so each presentation may have seen a different key.
- SignOutIsOrdered: what a browser's task queue rules out is used only where a theorem says that responses arrive as tasks; the others hold for orders of callbacks that no browser produces as well.
- EndSession: a caller that re-enters the object from `onUnauthorized` is a later turn of the event loop here.
- Isolation levels, row locks and deadlock detection: serializable transactions are taken to be atomic steps in some order.
- SHA-256, ECDSA and the clock: digests are injective, signature checking is an arbitrary predicate, every clock reading is a parameter.
- Sub-millisecond precision of database timestamps: times are whole milliseconds.
- Event identifiers and the order of events of different requests: events are kept per request, in insertion order.
- Bounds of integer columns that only count: counters and revisions are unbounded.
- HTTP handlers, cookies, request parsing, the web console and translations.
- Supabase sign-in, JWT verification and PKCE.
- Row-level security, roles, migrations, provisioning and other operations.
- The Windows agent: its local replay store, drive adapter and key store.
- Deletion of people and the cascades it causes.
- Display names, platform and version strings, audit times, `isActive`, `identity`, and the list and read projections, on which no property depends.
