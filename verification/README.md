# A verified model of the control-room platform's protocol core

The platform runs active/active: several nodes take calls, campaign for leadership,
ingest the same provider events and retry the same external actions. Its guarantees sit in
a few small protocol files. This project models those files in Dafny, one module or group
of modules per component, and proves what they promise over every input, every run or
every reachable state.

How the models are built:

- A protocol is a state machine over values: `Apply` is one atomic step, `Run` a sequence
  of steps. Whatever is outside the code (the ARI gateway, etcd, the database, the network,
  clocks, crashes, iteration order of sets) is part of the step, so theorems hold for every
  behaviour of it.
- Where the source updates an object in place there is a `class` with those fields, and
  each method is proved against the step function the theorems are about.
- Loops stay loops: `Wrap`, `BuildStream`, `WriteDocument`, `ScrubText`, `BreadthFirst`,
  `GroupGrants`, `ParseTree` and others are methods with invariants, proved equal to a
  specification whose meaning is then proved by lemmas.

Components:

- SIP call controller: `SipEvents`, `SipModel`, `SipSafety`, `SipRecords`, `SipConnect`, `SipProvider`.
- Leader election and singleton loop: `LeaderModel`, `LeaderSafety`, `LeaderElection`.
- Exactly-once plumbing: `Idempotency`, `Housekeeping`, `Outbox`, `DedupeKeys`, `Ingest`, `SipIngest`.
- Rule language and authorization: `RuleDsl`, `RuleContext`, `RuleSafety`, `RuleMeaning`, `Authorization`.
- Event feed and reconnecting client: `EventFeed`, `EventDelivery`.
- Redaction: `Text`, `Redaction`. PDF export: `Decimal`, `Templates`, `PdfText`, `PdfFile`,
  `PdfDocument`, `PdfReader`.
- Rate limiter: `RateLimit`. Diagram auto-layout: `Layout`.

Results that differ from what one would expect of the code, each with a proof:

- Redaction: a secret that is itself part of the mask `[redacted]` is never removed. Door
  codes are drawn from `0-9A-Da-d*#`, and exactly one code of three or more keys, `dac`,
  is affected (`Redaction.DoorCodesAreMasked`).
- The event feed reads rows and head in two statements; an event committed between them is
  passed over by that connection. It is lost for good exactly when the connection then
  delivers another known event; a reconnect before that recovers it. `EventDelivery.HandedExactly`
  says for every run which events are missing, also those that become visible late or fall
  to a reconnect without a cursor.
- Retries of an outbox row are spaced by the backoff exactly as long as no dispatcher retries
  it before it is due, which `_process_one` does not check (`Outbox.SpacingExact`).
- The rule checker accepts expressions that always raise: empty connectives, bare objects,
  literal-only orderings, anything nested under a comparison, a number field ordered
  against a date field (`RuleContext.AcceptedButErrs`, `HiddenUnderComparison`, `NumberAgainstDateErrs`).
  `RuleSafety.NeverErrsExactly` tells from syntax and schema which expressions never err.
- `layoutRows` is documented as longest-path layering; it does not pass a raised depth on
  (`Layout.NotLongestPath`). What it computes is the longest walk that takes its nodes in
  breadth-first order (`Layout.DepthIsLongestOrdered`), and that is the longest path exactly
  on graphs without loops in which every walk is matched by such a one
  (`Layout.LongestPathExact`). The model follows the code.
- A purge of a command's row is harmless exactly while the command has no effect yet and no
  request relies on the row; a body that raises after its effect always opens the way to a
  second one (`Idempotency.EffectAtMostOnce`, `UncleanBreaks`).
- Dedupe keys of two providers can coincide exactly when one name continues the other with
  `:evt` or `:call` (`DedupeKeys.KeysExact`). The key of a call event has the type but no
  counter, so only the first CALL_HELD or CALL_RESUMED of a call reaches the aggregate.
- A rate-limit count restarts when a node's clock runs ahead (`RateLimit.SkewRestartsCount`);
  `RateLimit.CountExact` says exactly when a count is right.
- In the PDF export an empty line yields two empty rows (`PdfText.WrapLine`).

## Model

| member | source | states |
|---|---|---|
| `SipSafety.ReachableStatesConsistent` | integrations/telephony_sip/adapter.py:134-245 | in every reachable state: calls with a bridge are exactly those with an operator leg; a pending leg is a registered operator channel whose bridge belongs to the one call owning it; all per-call records mention tracked calls only; calls held by music are bridged; no two calls share a bridge or a leg |
| `SipSafety.StepKeeps` | integrations/telephony_sip/adapter.py:134-632 | every pump event and every command keeps that invariant, whatever fresh ids or failures the gateway answers with |
| `SipSafety.DisconnectLeavesNothing` | integrations/telephony_sip/adapter.py:153-166 | after a processed disconnect the call id is in none of the maps and sets, its operator leg is neither registered nor pending, and the event is surfaced |
| `SipSafety.BridgeCount` | integrations/telephony_sip/adapter.py:207-245 | bridges created are the recorded, the destroyed and the stranded ones; without gateway failures, created minus destroyed is the number of recorded call bridges |
| `SipSafety.TeardownKeeps` | integrations/telephony_sip/adapter.py:235-245 | tearing down one call's bridge keeps the legs, pending joins and bridge accounting of all other calls |
| `SipSafety.BridgeKeeps` | integrations/telephony_sip/adapter.py:207-233 | bridging an operator keeps the invariant on all paths: not tracked, already bridged, failure after each request, success |
| `SipSafety.ReplayIsSilent` | integrations/telephony_sip/adapter.py:385-397 | a command id that was acknowledged before changes nothing when it is sent again |
| `SipSafety.ReplaysRepeatTheAnswer` | integrations/telephony_sip/adapter.py:385-397 | whatever happens after a command was acknowledged, in any run, its id sent again with any verb gets the very same acknowledgement and changes nothing |
| `SipSafety.DoorOpensOnce` | integrations/telephony_sip/adapter.py:612-632 | over a whole run no command id sends DTMF twice, and acknowledgements, once recorded, are the ones replayed |
| `SipSafety.StepKeepsSound` | integrations/telephony_sip/adapter.py:134-632 | every step keeps the invariant of the call records and never sends a command as DTMF twice; this is `Valid()` of the adapter object, kept by each of its public methods |
| `SipSafety.QueueMusicHidesPickup` | integrations/telephony_sip/adapter.py:168-192 | from the start of ring music until the first new answer command or the disconnect, no CALL_ANSWERED of that call is surfaced, in any run |
| `SipConnect.DialConnectsOperator` | integrations/telephony_sip/adapter.py:481-493 | after an accepted dial for an operator, whatever happens until the far end picks up: the first CALL_ANSWERED outside ring music is surfaced and, with three successful requests, makes the created bridge the call's, puts the trunk into it, and has the originated leg ring that operator and wait for that bridge |
| `SipConnect.PickUpConnects` | integrations/telephony_sip/adapter.py:185-192 | the same of any waiting dial; an existing bridge stays, and the dial no longer waits |
| `SipConnect.AnswerConnectsOperator` | integrations/telephony_sip/adapter.py:495-520 | an accepted answer for an operator makes the same connection and is acknowledged |
| `SipConnect.OperatorJoinsCall` | integrations/telephony_sip/adapter.py:194-205 | from there, in every run short of the call's end and the leg's own events, the leg's arrival puts the operator into the bridge that has the trunk, and nothing is surfaced for it |
| `SipConnect.OperatorChannelsExactly` | integrations/telephony_sip/adapter.py:134-245 | in every run the channels taken for an operator's own are exactly the legs originated and not ended since, by themselves or with their call |
| `SipRecords.RecordsExactly` | integrations/telephony_sip/adapter.py:134-568 | in every run: queue music, hold by music, a waiting dial and an operator bridge exist for a call if and only if an event or command of the run began them and none has finished them since |
| `SipRecords.ViewExactly` | integrations/telephony_sip/adapter.py:151-167 | in every run channel, line and direction of a call are the latest channel, first line and direction heard or dialled since it last ended |
| `SipRecords.SurfacedExactly` | integrations/telephony_sip/adapter.py:134-632 | in every run the events handed out or waiting are exactly those its steps surface, in order, and the tones sent those of new commands on tracked calls |
| `SipRecords.AcceptedExactly` | integrations/telephony_sip/adapter.py:385-632 | a new command is accepted if and only if the call is tracked and the gateway carried it out; a dial, if and only if it was originated |
| `SipRecords.ToldExactly` | integrations/telephony_sip/adapter.py:434-632 | the detail of every acknowledgement: not tracked, the gateway's words, the failed request of an operator's leg, or done |
| `SipRecords.TonesStaySecret` | integrations/telephony_sip/adapter.py:612-632 | acknowledgement and state, but for what the gateway is sent, do not depend on the digits, nor on the gateway's words |
| `SipRecords.PlacedCallIsHeard` | integrations/telephony_sip/adapter.py:481-493 | a dialled call is heard under the id it was placed with, whatever channel the event comes from |
| `SipRecords.NamesNoCall` | integrations/telephony_sip/events.py:35-40 | an event is about no call exactly if it has neither a SIP call id nor a channel id |
| `SipRecords.MapExactly` | integrations/telephony_sip/events.py:64-126 | an event is mapped to the one type it reports, with call, line, channel and direction, and not at all if it reports none |
| `SipSafety.MapShape` | integrations/telephony_sip/events.py:64-126 | a mapped event carries the call and channel id of the raw event, and is a disconnect only for the end kinds |
| `SipProvider.SipTelephonyProvider.HandleOperatorLeg` | integrations/telephony_sip/adapter.py:194-205 | the operator's own leg joins (no longer pending) or ends (no longer registered); nothing else changes |
| `SipProvider.SipTelephonyProvider.BridgeOperatorLeg` | integrations/telephony_sip/adapter.py:207-233 | the call records and error text of every outcome of the three gateway requests |
| `SipProvider.SipTelephonyProvider.Teardown` | integrations/telephony_sip/adapter.py:235-245 | forgets the pending dial, leg and bridge; the bridge counts as destroyed or left behind |
| `SipProvider.SipTelephonyProvider.TrackEvent` | integrations/telephony_sip/adapter.py:151-167 | forgets an ended call, else keeps its channel, line and direction current |
| `SipProvider.SipTelephonyProvider.MaybeRing` | integrations/telephony_sip/adapter.py:172-183 | ring music starts once per waiting inbound call on a line that has it |
| `SipProvider.SipTelephonyProvider.ProcessEvent` | integrations/telephony_sip/adapter.py:151-192 | the records and the queue after one mapped event, with the pickup during queue music withheld |
| `SipProvider.SipTelephonyProvider.PumpOne` | integrations/telephony_sip/adapter.py:134-192 | one turn of the pump is the step the safety theorems are about |
| `SipProvider.SipTelephonyProvider.DrainEvents` | integrations/telephony_sip/adapter.py:247-257 | hands out the oldest events up to the limit and keeps the others in order |
| `SipProvider.SipTelephonyProvider.ChannelVerb` | integrations/telephony_sip/adapter.py:434-448 | replay, not configured, not tracked, gateway error, success |
| `SipProvider.SipTelephonyProvider.HangUp` | integrations/telephony_sip/adapter.py:522-523 | the channel verb as a public command, keeping `Valid()` |
| `SipProvider.SipTelephonyProvider.DialOut` | integrations/telephony_sip/adapter.py:450-493 | tracks the new call under its SIP call id or channel id, and the operator waiting for it |
| `SipProvider.SipTelephonyProvider.PickUpCall` | integrations/telephony_sip/adapter.py:500-510 | answering ends queue music and then surfaces the withheld CALL_ANSWERED if the gateway accepted |
| `SipProvider.SipTelephonyProvider.AnswerCall` | integrations/telephony_sip/adapter.py:495-520 | answer as a whole, a failed operator bridge told in a new acknowledgement |
| `SipProvider.SipTelephonyProvider.HoldCall` | integrations/telephony_sip/adapter.py:525-549 | hold by music only for a bridged call on a line with hold music; CALL_HELD surfaced only on success |
| `SipProvider.SipTelephonyProvider.ResumeCall` | integrations/telephony_sip/adapter.py:551-568 | resume ends the hold by music and surfaces CALL_RESUMED only on success |
| `SipProvider.SipTelephonyProvider.SendTones` | integrations/telephony_sip/adapter.py:612-632 | DTMF goes out only for a new command on a tracked call |
| `LeaderSafety.RunKeeps` | server/bbz_core/infra/leader.py:107-166 | what nodes believe stays in line with the store over grants, compare-and-put, keepalive, revoke, expiry, lost replies, crashes and restarts |
| `LeaderSafety.OneLiveLeader` | server/bbz_core/infra/leader.py:107-166 | in every run at most one node has a recorded lease that is alive, and it is the lease on the key under that node's name |
| `LeaderSafety.TicksNeverOverlap` | server/bbz_core/workers/singleton.py:45-68 | ticks that stay within a ttl of their last grant or renewal never overlap |
| `LeaderSafety.ShortTicksNeverOverlap` | server/bbz_core/workers/singleton.py:45-68 | with instant calls, ticks of at most ttl - 1 and ttl - ttl/3 never overlap |
| `LeaderSafety.LateTickCanOverlap` | server/bbz_core/workers/singleton.py:45-68 | from any state in which a tick has outlived its lease time, two ticks can overlap at that instant |
| `LeaderSafety.LongTicksOverlap` | server/bbz_core/workers/singleton.py:45-68 | that bound is tight: for every longer tick there is a run from the start, with instant calls and ticks of at most that length, in which two nodes tick at once |
| `LeaderSafety.TakeoverWithinTwoTtl` | server/bbz_core/infra/leader.py:3-6 | with one healthy candidate, in every run either a node has acquired leadership since the crash or at most 2 * ttl has passed |
| `LeaderSafety.CrashedLeaderIsReplaced` | server/bbz_core/infra/leader.py:3-6 | the same for the crash of the leader in any run from the start: in every healthy continuation a node has acquired leadership since, or at most 2 * ttl has passed |
| `LeaderSafety.OrphanedLockIsReplaced` | server/bbz_core/infra/leader.py:107-144 | a lock that was won and orphaned by a lost reply or a crash starts that wait anew, and costs no more |
| `LeaderSafety.HealthyRunsAcquire` | server/bbz_core/workers/singleton.py:48-64 | the wait ends: from every consistent state with a campaigning candidate some finite healthy run leads to an acquisition of leadership |
| `LeaderElection.EtcdLeaderElection.Acquire` | server/bbz_core/infra/leader.py:107-144 | verdict, lease id and store after a campaign with any requests or replies lost |
| `LeaderElection.EtcdLeaderElection.Renew` | server/bbz_core/infra/leader.py:146-159 | verdict, lease id and store after a keepalive; anything but a confirmed renewal resigns |
| `LeaderElection.EtcdLeaderElection.Resign` | server/bbz_core/infra/leader.py:161-166 | the lease id is forgotten even if the revoke is lost |
| `LeaderElection.AcquireIsProtocol` | server/bbz_core/infra/leader.py:107-144 | an acquire call is exactly a run of the protocol's steps: same store, same lease, leader iff true, and a wait of one ttl otherwise |
| `LeaderElection.RenewIsProtocol` | server/bbz_core/infra/leader.py:146-166 | a renew call is exactly a run of the protocol's steps; a node that is not confirmed campaigns again |
| `LeaderElection.LoopIsOrderly` | server/bbz_core/workers/singleton.py:37-68 | however the store changes between the calls and whatever the network loses: the loop ticks only in leadership, and its trace has each change once and ends without leadership, stopped or cancelled anywhere, if and only if the cancellation does not fall on an audit record that is then not written |
| `LeaderElection.TicksExactly` | server/bbz_core/workers/singleton.py:45-64 | the loop ticks exactly once in every turn it leads and in no other |
| `LeaderElection.StopEnds` | server/bbz_core/workers/singleton.py:65-68 | a stopped node is down without a lease after its last revoke, whether that arrived or not |
| `LeaderElection.RunAsSingleton` | server/bbz_core/workers/singleton.py:37-68 | the loop, cut at work or within either audit record, and its `finally` produce the trace `LoopIsOrderly` is about, and no lease id is held on exit |
| `Idempotency.EffectAtMostOnce` | server/bbz_core/infra/idempotency.py:78-189 | per command, over all interleavings in which a purge removes its row only before the effect and while no request relies on it (as after a crash), and no body of it fails after its effect; other commands are unrestricted: one effect, one request between claim and completion, never with another hash than the row's, and every replay is the stored result |
| `Idempotency.UncleanBreaks` | server/bbz_core/infra/idempotency.py:122-189 | that condition is exact: after any step that violates it, in any state of such a run, two more requests can bring a second effect, a second holder or a replay of another result |
| `Idempotency.SecondEffect` | server/bbz_core/infra/idempotency.py:78-109 | in every state with the effect done and the row gone, any new request repeats the effect |
| `Idempotency.LaterRequestsReplay` | server/bbz_core/infra/idempotency.py:78-109 | after completion every later request of the same hash replays exactly that result and another hash is refused, in every such run that keeps the row |
| `Idempotency.PurgeWindow` | server/bbz_core/infra/idempotency.py:178-189 | a crash and a purge of the stale row, with no failing body, let the effect happen twice |
| `Idempotency.RaiseWindow` | server/bbz_core/infra/idempotency.py:131-169 | a body that raises after its effect, with no purge, lets the effect happen twice |
| `Housekeeping.PurgesSpareRunning` | server/bbz_core/infra/idempotency.py:171-181 | in every run, with any crashes, failures and purges of completed rows, in which the stale purge lags by at least the time a request takes: a running request never loses its row and no command has two |
| `Housekeeping.StaleCommandRetries` | server/bbz_core/infra/idempotency.py:178-181 | after a stale purge a command can be claimed anew if and only if its row was pending and older than the cutoff; other rows stay |
| `Housekeeping.RetainedReplays` | server/bbz_core/infra/idempotency.py:184-189 | as long as no purge reaches back to its completion, a completed command replays to same-hash requests and refuses others, in every run |
| `Housekeeping.CompletedReplays` | server/bbz_core/infra/idempotency.py:111-120 | the same from the moment a request completes its command |
| `Housekeeping.ForgottenRunsAgain` | server/bbz_core/infra/idempotency.py:184-189 | a completed command runs again after a purge if and only if it was completed before the cutoff |
| `Housekeeping.VerdictExactly` | server/bbz_core/infra/idempotency.py:92-109 | row gone, conflict, in progress or replay, each if and only if the row is so |
| `Housekeeping.CompletionExactly` | server/bbz_core/infra/idempotency.py:111-120 | a request counts as completed if and only if its row is there to take the result |
| `Housekeeping.FailedBodyRetries` | server/bbz_core/infra/idempotency.py:122-169 | a body that fails before its effect gives the command back |
| `Housekeeping.LateAbandonSpares` | server/bbz_core/infra/idempotency.py:122-127 | a late failure leaves what another request has completed |
| `Housekeeping.CrashEnds` | server/bbz_core/infra/idempotency.py:131-169 | a crashed request leaves table and effects alone and never acts again |
| `Idempotency.IdempotencyStore.Claim` | server/bbz_core/infra/idempotency.py:78-109 | insert-if-absent, else conflict, in progress or replay |
| `Idempotency.IdempotencyStore.CompleteRow` | server/bbz_core/infra/idempotency.py:111-120 | only the result and completion time of the claimed row change; a row that is gone is an error and nothing changes |
| `Idempotency.IdempotencyStore.AbandonRow` | server/bbz_core/infra/idempotency.py:122-127 | removes the row unless it is completed |
| `Idempotency.IdempotencyStore.Guard` | server/bbz_core/infra/idempotency.py:131-169 | the guarded block as a whole: claim, body, then completion or abandonment |
| `Outbox.OutboxConsistent` | server/bbz_core/workers/outbox_dispatcher.py:126-178 | any number of dispatchers over overlapping batches: at most 7 attempts while pending and 8 ever, exactly one audit record per terminal row and none for a pending one, hence at most one recorded dispatch |
| `Outbox.FateExactly` | server/bbz_core/workers/outbox_dispatcher.py:140-164 | in every run of any number of dispatchers: a row is dispatched if and only if its handler returned at last, failed if and only if there was no handler or it raised for the eighth time, else pending and due when it was put in or 5 * 2^n seconds after its n-th try; all earlier outcomes are raises |
| `Outbox.TerminalIsFinal` | server/bbz_core/workers/outbox_dispatcher.py:140-164 | no run changes a dispatched or failed row |
| `Outbox.CapNeverBinds` | server/bbz_core/infra/outbox.py:23-42 | the half-hour cap is never reached by a row that is still retried |
| `Outbox.CapBinds` | server/bbz_core/infra/outbox.py:23-42 | the backoff is half an hour from the ninth attempt on, and only then |
| `Outbox.FailsAtEighthAttempt` | server/bbz_core/workers/outbox_dispatcher.py:140-164 | under one dispatcher an always-failing row is pending below and failed exactly at 8 attempts, no earlier than 1270 s after the first |
| `Outbox.SpacingExact` | server/bbz_core/workers/outbox_dispatcher.py:126-164 | with any number of dispatchers: all retries are spaced by the backoff if and only if no row was retried before it was due, the check `_process_one` does not make |
| `Outbox.OverlapLosesSpacing` | server/bbz_core/infra/outbox.py:75-93 | a run in which two dispatchers hold the row and both attempts fall into one second |
| `Outbox.TickProgress` | server/bbz_core/workers/outbox_dispatcher.py:126-138 | one call that does not handle a due row, whatever arrives and whatever raises: the rows ahead of it lose exactly a batch, but for the places a raised call leaves unused, and gain the new rows due no later |
| `Outbox.WaitingAccount` | server/bbz_core/workers/outbox_dispatcher.py:126-138 | the account of a waiting row over any number of calls: rows ahead plus early arrivals plus unused places equals twenty per call plus the rows still ahead |
| `Outbox.DueRowIsHandled` | server/bbz_core/workers/outbox_dispatcher.py:126-138 | so a due row is handled once twenty per call exceed the rows ahead of it, the early arrivals and the unused places |
| `Outbox.HandledUndisturbed` | server/bbz_core/workers/outbox_dispatcher.py:126-138 | without early arrivals and raised calls, a due row with m rows ahead is handled by one of the first m/20 + 1 calls |
| `Outbox.TiesStarve` | server/bbz_core/infra/outbox.py:75-93 | rows that keep arriving with the same due time can be claimed first, tick after tick |
| `Outbox.RollbacksStarve` | server/bbz_core/workers/outbox_dispatcher.py:126-138 | a batch whose first row is rolled back is wasted as a whole, leaves the table as it was and can pass over the row again |
| `Outbox.ClaimsAgain` | server/bbz_core/workers/outbox_dispatcher.py:126-138 | a dispatcher that was rolled back or crashed has left the table alone and claims anew; one with rows left does not |
| `Outbox.OutboxDispatcher.ProcessOne` | server/bbz_core/workers/outbox_dispatcher.py:140-164 | one row in its own transaction: no handler, success, retry with backoff, final failure; a rollback changes nothing and raises |
| `Outbox.OutboxDispatcher.RunOnce` | server/bbz_core/workers/outbox_dispatcher.py:126-138 | the rows are processed in claim order, one transaction each, up to the first that is rolled back, whose exception drops the rest; the count is of the rows handled |
| `DedupeKeys.KeysIdentifyEvents` | server/bbz_core/infra/telephony_ingest.py:74-80 | with colon-free provider names two keys are equal exactly for the same (provider, call, type) or (provider, event id) of the same kind |
| `DedupeKeys.KeysExact` | server/bbz_core/infra/telephony_ingest.py:74-80 | for any two provider names: keys identify events, all or only those the schema accepts, if and only if the names are equal or neither continues the other with `:evt` or `:call` |
| `DedupeKeys.ColonInProviderCollides` | server/bbz_core/infra/telephony_ingest.py:74-80 | two different events with one key |
| `DedupeKeys.UnnamedCalls` | server/bbz_core/infra/telephony_ingest.py:74-80 | without a call id exactly the event id tells events apart |
| `DedupeKeys.CallTypesTellApart` | server/bbz_core/infra/telephony_ingest.py:46-60 | of one call the eleven call types have eleven keys, whatever the event ids |
| `DedupeKeys.SignalKeysDisjoint` | server/bbz_core/infra/telephony_ingest.py:139-144 | signal keys never equal event keys |
| `Ingest.DispatchedAreFirstOccurrences` | server/bbz_core/infra/telephony_ingest.py:93-115 | over interleaved transactions with rollbacks on any number of nodes, the dispatched events are exactly the first occurrences per key among the committed ingestions, in order |
| `Ingest.FirstOccurrencesDistinct` | server/bbz_core/infra/inbox.py:56-89 | no key is among the first occurrences twice, and every ingested key is |
| `Ingest.OncePerCallAndType` | server/bbz_core/infra/telephony_ingest.py:74-115 | at most one event per provider, call and type reaches the call aggregate |
| `Ingest.RolledBackIsRetried` | server/bbz_core/infra/telephony_ingest.py:93-115 | an event whose transaction was rolled back is still new and reaches the aggregate when seen again |
| `Ingest.ProviderInbox.Record` | server/bbz_core/infra/inbox.py:56-89 | insert-if-absent and whether the row is new |
| `Ingest.ProviderInbox.IngestEvent` | server/bbz_core/infra/telephony_ingest.py:93-115 | only a new row is handed on and marked processed |
| `SipIngest.OneAnswerPerCall` | server/bbz_core/infra/telephony_ingest.py:74-115 | even when the SIP adapter surfaced both a real and a synthetic pickup, at most one CALL_ANSWERED per call is dispatched, and only if the adapter surfaced one |
| `SipIngest.NamesTellTypes` | packages/integration-sdk/bbz_integration_sdk/normalized_events.py:14-31 | different event types have different names, and the call types are those about calls |
| `SipIngest.RingingCallIsNotAnswered` | integrations/telephony_sip/adapter.py:168-192 | end to end: from the start of ring music until the first new answer command or the disconnect, no CALL_ANSWERED of that call reaches the aggregate |
| `RuleDsl.ParseTree` | packages/rule-dsl/bbz_rule_dsl/model.py:49-75 | the parsing loop gives the expression or error of the recursive specification that `ParseInvertsToTree` and `ParsedIsWellFormed` characterize |
| `RuleDsl.ParseInvertsToTree` | packages/rule-dsl/bbz_rule_dsl/model.py:49-75 | parsing the tree of a well-formed expression gives the expression back |
| `RuleDsl.ParsedIsWellFormed` | packages/rule-dsl/bbz_rule_dsl/model.py:49-75 | whatever parses is well-formed |
| `RuleDsl.ParsesExactly` | packages/rule-dsl/bbz_rule_dsl/model.py:49-75 | a tree parses if and only if all its nodes have an allowed operator and a list of arguments or none; an operator that is a list or object raises TypeError |
| `RuleContext.ValidatedNeverErrors` | packages/rule-dsl/bbz_rule_dsl/context.py:80-129 | type soundness: accepted, disciplined, nested at most 64 and typed fields imply that evaluation returns a boolean |
| `RuleContext.ComparisonSound` | packages/rule-dsl/bbz_rule_dsl/model.py:116-133 | an accepted, disciplined comparison of typed operands has a verdict; `RuleMeaning.VerdictMeans` says which |
| `RuleSafety.NeverErrsExactly` | packages/rule-dsl/bbz_rule_dsl/model.py:88-191 | for every expression, accepted or not: all its parts have a verdict in every context that fits the schema, if and only if arity, operand shapes, literal kinds and field types fit (read off syntax and schema) and nesting is within the limit |
| `RuleSafety.DisciplinedIsSafe` | packages/rule-dsl/bbz_rule_dsl/context.py:80-129 | what the checker accepts and the discipline admits is safe in that sense |
| `RuleSafety.SkippedPartsDoNotErr` | packages/rule-dsl/bbz_rule_dsl/model.py:141-146 | short-circuiting hides unsafe parts: an `or` after a true literal has a verdict whatever follows |
| `RuleMeaning.VerdictMeans` | packages/rule-dsl/bbz_rule_dsl/model.py:88-191 | for every expression and context: wherever evaluation has a verdict, it is what the expression means by quantifiers and relations on values: `and` all, `or` some, `exists` a value, `in` some same element or a part of the text, `eq` the same value, orderings the order of numbers, of texts and lists at their first difference |
| `RuleMeaning.EqIsSame` | packages/rule-dsl/bbz_rule_dsl/model.py:116-120 | `==` is equality of values up to booleans as numbers and the order of fields |
| `RuleMeaning.OrderedMeans` | packages/rule-dsl/bbz_rule_dsl/model.py:121-128 | where an ordering has a verdict, it is the order of the values |
| `RuleMeaning.ComparisonLaws` | packages/rule-dsl/bbz_rule_dsl/model.py:116-133 | `eq` of a value with itself, `ne` its complement, trichotomy on numbers and texts, `lte` and `gte` |
| `RuleContext.ShippedContextsSound` | packages/rule-dsl/bbz_rule_dsl/context.py:132-176 | soundness for the three shipped schemas, which have no date fields |
| `RuleContext.ShippedFields` | packages/rule-dsl/bbz_rule_dsl/context.py:132-176 | the numbers and booleans of the shipped contexts, all other fields texts |
| `RuleContext.FieldLiteralChecked` | packages/rule-dsl/bbz_rule_dsl/context.py:91-129 | a field against a literal is accepted if and only if the field is known, the literal has its type, and for an ordering the type has one; in either order |
| `RuleContext.FieldsChecked` | packages/rule-dsl/bbz_rule_dsl/context.py:91-129 | two fields: both known, and for an ordering both of a type that has one |
| `RuleContext.MembershipChecked` | packages/rule-dsl/bbz_rule_dsl/context.py:110-129 | membership: in a list of the field's type, or in a list field |
| `RuleContext.ConnectivesChecked` | packages/rule-dsl/bbz_rule_dsl/context.py:80-90 | connectives: each argument on its own; `exists`: a known field |
| `RuleContext.RbacConditionsNeverError` | server/bbz_core/authorization/resolver.py:65-86 | the RBAC context always meets the typing condition, so such a condition never errors |
| `RuleSafety.NestingLimitExact` | packages/rule-dsl/bbz_rule_dsl/model.py:136-149 | for every safe expression, in every context: all parts have a verdict if and only if nesting is within the limit |
| `RuleContext.AcceptedButErrs` | packages/rule-dsl/bbz_rule_dsl/context.py:80-129 | expressions every schema accepts and every context errs on |
| `RuleContext.NotWithTwoErrs` | packages/rule-dsl/bbz_rule_dsl/context.py:83-89 | `not` with two arguments is always accepted and always errs |
| `RuleContext.HiddenUnderComparison` | packages/rule-dsl/bbz_rule_dsl/context.py:80-129 | any erring expression is accepted when hidden under a comparison |
| `RuleContext.NumberAgainstDateErrs` | packages/rule-dsl/bbz_rule_dsl/context.py:97-109 | ordering a number field against a date field is accepted and always errs |
| `RuleContext.MissingFieldErrs` | packages/rule-dsl/bbz_rule_dsl/model.py:88-96 | the typing condition is needed: a field without a value errs |
| `Authorization.GroupGrants` | server/bbz_core/authorization/model.py:31-45 | the grouped index answers every key as the list does, in list order |
| `Authorization.ScanSelected` | server/bbz_core/authorization/service.py:36-41 | an allow over the index is an allow over the plain list |
| `Authorization.ScanSelectedIn` | server/bbz_core/authorization/service.py:43-50 | the same for scoped checks |
| `Authorization.PermissionService.Effective` | server/bbz_core/authorization/service.py:29-34 | the cached index is that of the grants first loaded for the user; other users' entries stay |
| `Authorization.PermissionService.Authorize` | server/bbz_core/authorization/service.py:36-41 | equals a scan of the grant list |
| `Authorization.PermissionService.AuthorizeScoped` | server/bbz_core/authorization/service.py:43-50 | equals a scoped scan of the grant list, whose decision `ScopedExactly` spells out |
| `Authorization.ScopedExactly` | server/bbz_core/authorization/resolver.py:43-62 | the decision, scope by scope: global always; region, bbz and workplace where user and target are both placed, in the same one; own events on what the user owns, assigned events on what is assigned to the user; nothing else |
| `Authorization.DisabledConditionsDeny` | server/bbz_core/authorization/resolver.py:65-72 | while conditions are disabled exactly the unconditional grants allow |
| `Authorization.PublishedConditionMeans` | server/bbz_core/authorization/resolver.py:65-86 | a published condition allows if and only if what it means is true of this instant |
| `Authorization.ClockConditions` | server/bbz_core/authorization/resolver.py:75-83 | hour, weekday, instant and scope in a condition are the clock's and the grant's |
| `Authorization.ScopedImpliesUnscoped` | server/bbz_core/authorization/service.py:36-50 | a scoped allow implies an unscoped one at the same instant |
| `Authorization.MoreGrantsNeverDeny` | server/bbz_core/authorization/resolver.py:47-90 | a grant added anywhere never turns allow into deny |
| `Authorization.ConditionsOnlyNarrow` | server/bbz_core/authorization/resolver.py:65-90 | attaching a condition never turns deny into allow, whatever the evaluator does |
| `Authorization.PublishedConditionDecides` | server/bbz_core/authorization/resolver.py:65-86 | a published, disciplined condition decides by its value alone, never by an error |
| `EventFeed.FramesIncrease` | server/bbz_core/infra/event_stream.py:97-116 | per connection, in any run and for any batch size, event frames strictly increase, and the caught-up marker appears at most once, with the number where the feed stood: events before it are no later, those after it are |
| `EventDelivery.HandedExactly` | server/bbz_core/infra/event_stream.py:97-116 | in every run, with no assumption on commit visibility, head statement, drops or cursor: the client is handed, in order and once, exactly the known events after its first cursor and up to its present one that the run has not lost |
| `EventDelivery.NothingMissingExactly` | server/bbz_core/infra/event_stream.py:97-116 | nothing is missing if and only if no known event after the first cursor is lost |
| `EventDelivery.LostForGood` | apps/web/src/composables/useEventStream.ts:29-86 | what is lost is lost in every continuation |
| `EventDelivery.PassedOverIsFinal` | apps/web/src/composables/useEventStream.ts:76-86 | an event of its types that the client's cursor has passed without handing it on is never handed on |
| `EventDelivery.JumpedOverIsLost` | server/bbz_core/infra/event_stream.py:108-109 | what a connection passed over, by a head statement or a late commit, is never handed on once that connection delivers a known event beyond it |
| `EventDelivery.LateCommitIsLost` | server/bbz_core/infra/event_log.py:136-150 | an event that becomes visible at or below the client's cursor is never handed on |
| `EventDelivery.ZeroCursorLoses` | apps/web/src/composables/useEventStream.ts:36-42 | a client that reconnects without a cursor and is told the head is never handed what the log holds by then |
| `EventDelivery.ExactlyOnceInOrder` | apps/web/src/composables/useEventStream.ts:29-86 | with in-order visibility, one snapshot for rows and head, and no head told to a client without a cursor, nothing is lost across any number of drops |
| `EventFeed.KnownIncreases` | server/bbz_core/infra/event_log.py:136-150 | what is handed on is strictly increasing |
| `EventFeed.BatchIsFull` | server/bbz_core/infra/event_log.py:136-150 | a batch is the events after the position, up to the limit |
| `EventFeed.CursorOnlyGrows` | apps/web/src/composables/useEventStream.ts:76-86 | whatever frames arrive in whatever order, the cursor never moves back and is no lower than any known event |
| `EventDelivery.DrainedMeansComplete` | server/bbz_core/infra/event_stream.py:97-116 | a caught-up client has been handed everything up to the head but what is lost or passed over by its connection |
| `EventDelivery.DrainsEventually` | server/bbz_core/infra/event_stream.py:97-116 | reading and delivering alone brings any connected client there |
| `EventDelivery.ReconnectRecovers` | apps/web/src/composables/useEventStream.ts:29-50 | a reconnect at the cursor makes up for what the last connection passed over but had not lost |
| `EventDelivery.HeadRaceLosesEvent` | server/bbz_core/infra/event_stream.py:97-116 | a run in which the event committed between the two statements is passed over although the client is caught up |
| `EventDelivery.HeadRaceIsFinal` | server/bbz_core/infra/event_stream.py:97-116 | no continuation of that run hands the event on |
| `EventFeed.Feed.Round` | server/bbz_core/infra/event_stream.py:97-116 | one turn of the generator emits and records what the protocol's read steps do, with the log as each of its two statements sees it |
| `EventFeed.EventStream.HandleFrame` | apps/web/src/composables/useEventStream.ts:76-86 | the cursor after a frame and what is handed on |
| `Redaction.ReplacedAt` | server/bbz_core/redaction.py:65-69 | leftmost replacement creates no occurrence of a text outside the mask and leaves none of the replaced one |
| `Redaction.ScrubText` | server/bbz_core/redaction.py:65-69 | testing for an occurrence before replacing makes no difference: the loop equals successive replacement |
| `Redaction.MaskedIsFree` | server/bbz_core/redaction.py:65-69 | for every iteration order no registered secret is left in a text |
| `Redaction.MaskingExact` | server/bbz_core/redaction.py:21-69 | for secrets that do not reach over an end of the mask (those without brackets among them), or are part of it: every text is freed of all of them if and only if none of them is part of the mask |
| `Redaction.OneSecretExact` | server/bbz_core/redaction.py:21-69 | for one secret of any characters: every text is freed of it if and only if it is not part of the mask, no end of the mask starts it, and no start of the mask can complete it |
| `Redaction.SecretInsideMaskSurvives` | server/bbz_core/redaction.py:65-69 | a secret that is part of the mask survives, whatever else is masked |
| `Redaction.DoorCodesAreMasked` | server/bbz_core/api/v1/door_action_profiles.py:33 | a door code of three or more keys is registered, and masked in every text if and only if it is not `dac` |
| `Redaction.DisjointIsOutside` | server/bbz_core/redaction.py:21-22 | secrets that share no character with the mask are covered |
| `Redaction.ScrubbedIsClean` | server/bbz_core/redaction.py:52-78 | no secret is left in a string leaf under at most ten containers |
| `Redaction.CleanIsFixed` | server/bbz_core/redaction.py:52-78 | scrubbing a clean value in any order changes nothing |
| `Redaction.ScrubIdempotent` | server/bbz_core/redaction.py:52-78 | scrubbing twice, in two orders, is scrubbing once |
| `Redaction.DepthLimitExact` | server/bbz_core/redaction.py:70-71 | in any value, a string leaf is masked if and only if at most ten containers enclose it; one that lies deeper comes out as it went in |
| `Redaction.RedactionContext.Enter` | server/bbz_core/redaction.py:32-44 | registers the values of three or more characters on top of the active ones |
| `Redaction.RedactionContext.Perform` | server/bbz_core/redaction.py:32-44 | whatever runs in a block, nested and raising as it may, the context is afterwards what it was before, and each sink sees the blocks around it |
| `Redaction.OuterStaysActiveAll` | server/bbz_core/redaction.py:33-44 | at every sink all that the enclosing blocks registered is active |
| `Redaction.OnlyEnclosingAll` | server/bbz_core/redaction.py:33-44 | a sink sees what was active outside and what the blocks around it registered, and nothing else |
| `Redaction.BlocksLeaveNothing` | server/bbz_core/redaction.py:33-44 | what comes after a block sees nothing of it, and does not run after a raise |
| `Redaction.ScrubKeepsShape` | server/bbz_core/redaction.py:52-78 | containers, keys and other values stay at any depth; only texts change |
| `PdfReader.ExportReadsBack` | server/bbz_core/api/pdf.py:48-94 | a reader with the vocabulary of ISO 32000-1 spelled out on its own, starting from the last bytes of the file and following startxref, table, root, page tree, pages, text operators and line moves, sees, row by row and each at its position, the wrapped text in latin-1 |
| `PdfReader.ExportFitsPages` | server/bbz_core/api/pdf.py:11-16 | on every page the reader sees (US Letter, 8 on 10 points): every baseline lies between margins of 40 points, no row at Courier's width passes the right margin, rows do not overlap, and no page but the last has room for one more |
| `PdfReader.WriterSpeaksStandard` | server/bbz_core/api/pdf.py:63-93 | the writer's header, object, table and trailer text is the reader's |
| `PdfReader.StreamShowsRows` | server/bbz_core/api/pdf.py:38-45 | a page shows exactly its rows, from the upper margin down, one leading apart |
| `PdfDocument.RenderTextPdf` | server/bbz_core/api/pdf.py:48-94 | the writer produces, for every text, the file that `ExportReadsBack` reads back |
| `PdfDocument.DocumentReadsBack` | server/bbz_core/api/pdf.py:54-94 | Root, Pages, Kids, Count, Parent, Font and Contents name the right objects and every stream length is exact |
| `PdfDocument.BuildObjects` | server/bbz_core/api/pdf.py:54-78 | numbering as objects are added, with the reserved Pages object filled in later |
| `PdfFile.WriteDocument` | server/bbz_core/api/pdf.py:80-94 | the offsets noted while writing end up in the table, so the file is the one `AllObjectsFound` and `RootReadsBack` read |
| `PdfFile.StartXrefIsTable` | server/bbz_core/api/pdf.py:85-93 | startxref is the byte position of the table |
| `PdfFile.EntrySize` | server/bbz_core/api/pdf.py:88-89 | a table entry is 20 bytes if and only if its offset is below 10^10 |
| `PdfFile.EntryReadsBack` | server/bbz_core/api/pdf.py:88-89 | entry i decodes to the byte position of object i, or to nothing if that has more than ten digits |
| `PdfFile.AllObjectsFound` | server/bbz_core/api/pdf.py:80-94 | every object is found at its header through the table if and only if the last one starts before byte 10^10 |
| `PdfFile.RootReadsBack` | server/bbz_core/api/pdf.py:90-93 | size and root in the trailer are right |
| `PdfText.PassesAreOnePass` | server/bbz_core/api/pdf.py:19-21 | the three replacement passes escape each character on its own |
| `PdfText.EscapedLineReadsBack` | server/bbz_core/api/pdf.py:19-21 | an escaped line reads back as its latin-1 form under section 7.3.4.2 of ISO 32000-1, and reading stops at its closing parenthesis |
| `PdfText.Wrap` | server/bbz_core/api/pdf.py:24-35 | the loop yields, line by line, the rows whose text and width `WrapKeepsText` and `RowsExact` pin down, two empty rows for an empty line |
| `PdfText.RowsExact` | server/bbz_core/api/pdf.py:29-34 | rows lose nothing, are never wider than 110 columns and are as few as possible |
| `PdfText.WrapKeepsText` | server/bbz_core/api/pdf.py:24-35 | wrapping keeps the tab-expanded text |
| `PdfText.ExpandedExactly` | server/bbz_core/api/pdf.py:27 | a tab becomes four spaces, every other character stays |
| `PdfText.RowsCounted` | server/bbz_core/api/pdf.py:24-35 | an empty line takes two rows, any other one for each 110 columns |
| `PdfText.PagesKeepRows` | server/bbz_core/api/pdf.py:49-52 | pages keep all rows in order and are full except the last; `ExportFitsPages` says that full is what the page has room for |
| `PdfText.BuildStream` | server/bbz_core/api/pdf.py:38-45 | the operator list joins to the content stream that `StreamShowsRows` reads back |
| `Templates.ScanInvertsFill` | server/bbz_core/api/pdf.py:63-70 | numbers printed into fixed text are read back, whatever follows |
| `Templates.ReferencesReadBack` | server/bbz_core/api/pdf.py:74 | the list of page references reads back |
| `Decimal.PaddedDecodes` | server/bbz_core/api/pdf.py:88-89 | a zero-padded offset decodes to its number and has ten digits exactly below 10^10 |
| `RateLimit.CountIsExact` | server/bbz_core/infra/rate_limit.py:44-72 | with monotone timestamps each count is one plus all earlier hits of that bucket and aligned window, despite dropped rows |
| `RateLimit.WindowAdmitsLimit` | server/bbz_core/infra/rate_limit.py:44-72 | a window admits exactly its first `limit` hits |
| `RateLimit.AtMostTwiceTheLimit` | server/bbz_core/infra/rate_limit.py:44-72 | any interval of one window length admits at most twice the limit |
| `RateLimit.TwiceTheLimit` | server/bbz_core/infra/rate_limit.py:44-72 | the factor is needed: at every edge between two windows some run admits twice the limit within two microseconds |
| `RateLimit.RetryAfterIsExact` | server/bbz_core/infra/rate_limit.py:44-72 | waiting `retry_after` always ends in a later window, and a second less does not |
| `RateLimit.CountExact` | server/bbz_core/infra/rate_limit.py:44-81 | in any run, with clocks that may run ahead or behind: a hit is told the right count if and only if no prune and no first hit of another window, stamped after the end of its window, deleted the row since a hit |
| `RateLimit.SkewRestartsCount` | server/bbz_core/infra/rate_limit.py:65-70 | a first hit stamped after the end of an earlier window makes that window's count restart at one, however many hits it had |
| `RateLimit.RateLimiter.CountHit` | server/bbz_core/infra/rate_limit.py:44-72 | one upsert, the dropping of stale rows on a first hit, and a verdict that allows exactly counts up to the limit |
| `RateLimit.RateLimiter.PruneExpired` | server/bbz_core/infra/rate_limit.py:74-81 | only rows of windows that are over are deleted |
| `Layout.LayoutRows` | apps/web/src/lib/workflows.ts:149-199 | on every graph, cyclic or not: each key gets one position, at 110 points a row and none left of or above the padding of 24, in a row no deeper than the number of edges, and no two boxes of 150 by 48 overlap; with unique keys the leftmost box stands at the padding and every row, in node order and 190 apart, is centred on one axis |
| `Layout.BreadthFirst` | apps/web/src/lib/workflows.ts:155-169 | the queue loop ends on every graph and dequeues no key twice |
| `Layout.DepthAtMostEdges` | apps/web/src/lib/workflows.ts:155-169 | no depth exceeds the number of edges |
| `Layout.Adjacency` | apps/web/src/lib/workflows.ts:150-153 | the out-lists hold the proper edges in order |
| `Layout.DepthIsWalkLength` | apps/web/src/lib/workflows.ts:155-169 | every depth is the length of a walk from the start |
| `Layout.DepthIsLongestOrdered` | apps/web/src/lib/workflows.ts:155-169 | on every graph without loops a depth is exactly the length of the longest walk that takes its nodes in breadth-first order |
| `Layout.LongestPathExact` | apps/web/src/lib/workflows.ts:144-169 | rows are the longest-path depths the comment promises if and only if no walk meets a loop and every walk is matched by one in breadth-first order that is no shorter: a condition on the graph alone |
| `Layout.NotLongestPath` | apps/web/src/lib/workflows.ts:144-169 | on the graphs of four nodes with a short cut, which have no cycle, they are not |

## Left out

- SIP: conference bridges and provider shutdown are not tracked by the adapter and not modelled; neither are line events, caller numbers, names and timestamps, the target text of a blind transfer (it is a channel verb here), and what may happen between the await points of one step. Detail texts of acknowledgements are an enumeration; requests for music are not recorded, only that it plays.
- `LocalLeaderElection`, TLS and HTTP of the etcd client, and the audit record of a leader change beyond its place in the loop's trace.
- Idempotency: the hash itself and its canonical form; command rows are keyed by command id.
- Outbox: payloads, the follow-up notes on camera actions and the content of audit records; a row id stands for the dedupe key of `enqueue`.
- Ingest: schema validation, the default key derivation by payload hash, doorbell resolution and the contents of signal rows.
- Rule language: NaN, sets and tuples as values, and the interpreter's own recursion limit.
- Event feed: Server-Sent-Events text, broker wake-ups, poll timers, the retry backoff and status of the web client.
- PDF: `text.splitlines()` is the parameter `lines`; the reader knows the syntax this writer emits, not every spelling the standard admits.
- Layout: `nodePos`, `snap`, `applyNodeDrag` and `anchorFor` would only add easy members.
- Rate limiter: truncation of long bucket names.
- LeaderSafety.ShortTicksNeverOverlap: assumes that store calls take no time, because the bound is on the tick length alone; `TicksNeverOverlap` has no such assumption.
- LeaderSafety.TakeoverWithinTwoTtl: assumes instant calls of the candidate and that no won lock is orphaned meanwhile, because each orphaned lock adds to the wait; `OrphanedLockIsReplaced` says how much.
- Idempotency.EffectAtMostOnce: holds for runs whose steps are clean for the command, because the other steps break it; `UncleanBreaks` shows that for each of them.
- EventDelivery.ExactlyOnceInOrder: assumes commits visible in sequence order, rows and head from one snapshot and no head told to a client without a cursor, because the code does not ensure them; `HandedExactly` says what each run loses without them.
- RateLimit.CountIsExact: needs timestamps that never run backwards in commit order; `CountExact` is the exact condition without it.
- Redaction.MaskedIsFree: for several secrets at once, needs secrets that neither are part of the mask nor can reach over one of its ends; `OneSecretExact` covers one secret of any characters. Dictionary keys are never scrubbed by the code.
- Redaction.MaskingExact: for several secrets of which one reaches over an end of the mask there is no exact condition, because another secret may remove the text it would survive in.
- RuleContext.ValidatedNeverErrors: the discipline is sufficient; `RuleSafety.NeverErrsExactly` is exact, for all parts of an expression including those that short-circuiting skips.
- PdfReader.ExportReadsBack: needs the last object to start before byte 10^10, because later offsets do not fit the table; `AllObjectsFound` shows that this is exact for finding the objects.
