# Verified models of the Telegram gateway

The gateway drives TDLib from C++ coroutines; three TypeScript services (control plane, archiver, MCP)
stand around it. This project models the parts of both whose correctness depends on order, interleaving
or failure, and proves what they promise over whole runs.

Each protocol is a step system over plain values: one step is a mutex section, what a thread does between two
of them, or the JavaScript between two awaits, and a run is any sequence of steps, so any interleaving of
threads and any failure of the outside. Where the program updates objects in place there is a class with the
same fields beside it. Those
methods of `TdBridge`, `MessageSendTracker`, `Sink`, `Service`, `SyncGate`, `Reconciler`, `S3SessionSync` and
`WsSubscriberRegistry` that are steps of a system are proved to leave the fields as its step, or its run of
steps, says; the loops they call and the methods of the other classes are proved equal to the function the
theorems are about, or state their whole effect. The outside (TDLib, librdkafka, Kubernetes,
S3, clocks, event loops) is a parameter that may answer in any way.

| files | part of the system |
|---|---|
| `Archive`, `ArchiveReplay`, `ArchiveFrames` | the archiver's fold over at-least-once events |
| `RequestIds`, `ClaimRace`, `Bridge`, `BridgeObjects` | the TDLib bridge: ids, correlation map, responses, sweep, drain |
| `SendTracker`, `SendTrackerObjects` | waiting for the outcome of a sent message |
| `Invites`, `Onboarding`, `OnboardingAccounts`, `OnboardingEffects`, `OnboardingObjects` | invitations, onboarding sessions and accounts |
| `Deletion`, `Reconcile` | the deletion pipeline and the reconciliation of the cluster |
| `BatchWorker`, `KafkaSink`, `Webhooks` | worker queues and the dispatcher's shutdown |
| `CoalescingGate`, `S3Sync` | coalesced background steps and the session sync |
| `Idempotency`, `MediaQueue`, `WsRegistry` | bounded caches, queues and back-pressure |
| `Base64`, `Decimal`, `ByteRange` | codecs against their standards |
| `ReplyChain` | webhook triggers and reply chains |
| `Options`, `Sequences` | the optional value, and taking an element out of a list |

## Where a promise holds only under a condition

* Redelivering archive events is harmless exactly when the log holds no latent mark: an edited or deleted
  mark that misses its row although a later upsert creates it for good and no later mark of the same field
  follows (`FramesConvergeExactly`, `EditBeforeInsertDiverges`).
* A send wait is safe from the timers of other waits exactly if none is pending for its id, or still to be
  set by the thread of an earlier wait, when it is registered; so over a run, whatever follows it, exactly if
  no wait is registered on such an id (`ExposedExactly`, `NoEarlyReuseExactly`; `StaleTimerEndsLaterWait` and
  `LateTimerEndsLaterWait` are one of each kind that is ended).
* Every onboarding account has its invite exactly while no token reveal takes it: by claiming the run-out
  session of a "new" code, or by being so slow to release a "new" code that an open() has claimed it
  meanwhile (`StepOrphansExactly`, `AttachedExactly`; `RevealCanOrphan` and `SlowRevealOrphans` reach both).
  Reveals called on token codes take none (`TokenRevealsTakeNone`).
* Reconciliation leaves exactly the desired objects exactly when no managed object of a known account
  stands at an undesired key (`ConvergesExactly`; with such an object, `StrayStays`).
* The session sync is up to date at rest exactly if the put of the last step landed, acknowledged or not;
  or the step skipped its put and no unacknowledged put had come after the last acknowledged one; or its put
  was refused, or it found no binlog, and S3 held that already (`QuiescentExactly`). After a put that landed
  but reported failure every later round over the data acknowledged before leaves the wrong object
  (`UncertainSticks`, `UnacknowledgedPutCanStick`).
* With no releases, an idempotency key, even one whose request is in flight, survives claims and stores
  exactly if the fresh claims among them and the keys behind it are fewer than the cache has entries
  (`SurvivesExactly`); an operation takes it out exactly if it releases it, or is a fresh claim while it is
  the oldest of a full cache (`GoesExactly`).
* A reply to message id 0 becomes an unverified reply event (`ReplyIsVerified`, `ReplyToZeroIsUnverified`).
* Everything Kafka's queue accepted was handed on when the worker has left, exactly if nobody produced after
  it left (`LostIsLate`).

## Model

| member | source | states |
|---|---|---|
| Archive.Store.UpsertMessageRow | archiver/src/store.ts:91-96 | inserts the row with default marks, or replaces its columns and keeps media link, edit date and deleted mark |
| Archive.Store.DeleteMessageRow | archiver/src/store.ts:97-99 | removes the row and nothing else |
| Archive.Store.UpdateMessageText | archiver/src/store.ts:100-102 | rewrites text, type and file of an existing row only |
| Archive.Store.MarkMessageEdited | archiver/src/store.ts:103-105 | sets the edit date of an existing row only |
| Archive.Store.MarkMessageDeleted | archiver/src/store.ts:106-108 | marks an existing row only |
| Archive.Store.UpsertChatRow | archiver/src/store.ts:109-112 | the chat has the last title and type |
| Archive.Store.SetSeq | archiver/src/store.ts:131-133 | replaces the session's sequence number |
| Archive.TombstoneAll | archiver/src/index.ts:207-209 | marks the messages in order and stops at the call that throws with the earlier marks kept |
| Archive.SendSucceededRow | archiver/src/index.ts:188-194 | drops the provisional row before storing the final one, cut off at any call |
| Archive.HandleEvent | archiver/src/index.ts:177-226 | a frame handled to its end changes exactly what its kind of update says, field by field, and raises its session's number; one cut off at any store call did exactly what its calls so far do, and no number |
| Archive.FrameHasEffect | archiver/src/index.ts:182-223 | for every frame and tables: an edit sets the date of an existing row only; changed content its text (else caption, else nothing), kind and file only; a message with ids its columns, an older row keeping its marks; a sent one also drops the provisional row; a deletion marks exactly the listed rows; a chat is one row; the number becomes the larger one |
| Archive.FrameCut | archiver/src/index.ts:182-223 | cut off after any number of calls the number is as it was, a deletion has marked exactly the first messages, a sent message has at most lost its provisional row, and any other update has done nothing or all |
| ArchiveReplay.RedeliveryConverges | archiver/src/index.ts:177-226 | without latent marks every schedule of steps back and forth that gets through the log ends with the tables of one clean pass |
| ArchiveReplay.ConvergesExactly | archiver/src/store.ts:91-133 | all schedules converge if and only if the log holds no latent mark |
| ArchiveReplay.MarksHitSuffices | archiver/src/store.ts:103-108 | it is enough that every edited or deleted mark finds its row on the clean pass |
| ArchiveReplay.SuffixTwice | archiver/src/index.ts:177-226 | applying a suffix again after the whole log changes nothing |
| ArchiveReplay.RedeliveryMarks | archiver/src/store.ts:103-108 | redelivering a latent mark changes the row the clean pass left unmarked |
| ArchiveReplay.EditBeforeInsertDiverges | archiver/src/store.ts:91-105 | an edit before its insert is such a log, for every message |
| ArchiveReplay.LastSeqIsMaximum | archiver/src/index.ts:220-224 | the sequence number is the largest ever seen for its session, and one that was seen |
| ArchiveFrames.AttemptFrame | archiver/src/index.ts:177-226 | handling a frame in place is one attempt of the reader, and only a finished frame is left |
| ArchiveFrames.ReadRefines | archiver/src/index.ts:177-226 | any schedule of frame attempts, stops in mid-frame and restarts is a schedule of single operations |
| ArchiveFrames.FramesConvergeExactly | archiver/src/index.ts:177-226 | with frames retried from the middle and restarts at earlier frames the archive ends as after one clean pass, for every schedule, if and only if there is no latent mark |
| RequestIds.RequestIdGenerator.Next | src/bridge/request_id.hpp:12-18 | the n-th call yields the n-th id although the 64-bit counter wraps and 0 is skipped |
| RequestIds.IdsRepeatExactly | src/bridge/request_id.hpp:12-18 | no id is 0, and two calls share an id exactly when 2^64 - 1 divides their distance |
| RequestIds.IdsDistinct | src/bridge/request_id.hpp:12-18 | the first 2^64 - 1 ids are pairwise distinct |
| ClaimRace.RunKeepsInv | src/bridge/td_bridge.cpp:69-171 | in every interleaving of inserts, claims, decisions and resumptions: no waiter is taken out twice, its phase leaves pending once, the decided waiters are exactly those resumed once or about to be, and the counts balance |
| ClaimRace.OnePlaceEach | src/bridge/td_bridge.cpp:79-112 | a waiter is in the table, in one hand, or decided with the verdict of its only claim, and then resumed once or about to be |
| ClaimRace.RunSettles | src/bridge/td_bridge.cpp:79-112 | a verdict is never changed and a waiter never returns to the table |
| ClaimRace.DrainLeavesOnlyHands | src/bridge/td_bridge.cpp:163-171 | after a drain a waiter accepted before it is pending only while somebody holds it, whatever else happens |
| ClaimRace.HolderEnds | src/bridge/td_bridge.cpp:79-112 | whoever holds a claim can end it: its waiter gets the claim's verdict and then its one resumption |
| Bridge.RunKeepsInv | src/bridge/td_bridge.cpp:17-171 | every bridge step keeps the race invariant, the key of each entry, the size limit and the times |
| Bridge.EveryRequestOncePlaced | src/bridge/td_bridge.cpp:69-171 | in every run the map stays within max_inflight and each accepted request is in exactly one place; it is decided at most once, and exactly the decided ones are resumed, once, or about to be |
| Bridge.NoRegistrationLost | src/bridge/td_bridge.cpp:17-36 | before the ids repeat, a coroutine that came to register was answered that the map is full or is suspended, and it is suspended exactly if it has its request |
| Bridge.DrainResolvesAll | src/bridge/td_bridge.cpp:163-185 | once the tickets of a drain are settled every request registered before it is resolved |
| Bridge.DrainAnswersEveryone | src/bridge/td_bridge.cpp:163-185 | in every run each coroutine suspended when a drain comes has a request that never waits in the map again and is decided exactly once nobody holds it |
| Bridge.TimeoutNeverEarly | src/bridge/td_bridge.cpp:127-131 | a request told it timed out was swept at or after its deadline |
| Bridge.HolderResolves | src/bridge/td_bridge.cpp:79-112 | in every run whoever took a request out can decide and wake it, with the verdict of the claim |
| Bridge.ResponseAnswers | src/bridge/td_bridge.cpp:114-125 | in every run the response to a request still registered becomes its answer |
| Bridge.SweepLeaves | src/bridge/correlation_map.cpp:27-40 | a sweep leaves exactly the entries whose deadline lies ahead |
| Bridge.SweepLatenessBound | src/bridge/td_bridge.cpp:127-156 | in every state of every run: after an iteration at `now` every entry left has its deadline or its insertion later than now - sweep_interval, with deadline computation and insertion interleaved freely |
| Bridge.SweepLatenessAtomic | src/bridge/td_bridge.cpp:26-36 | an entry whose deadline was read when it was inserted, with a positive ttl: that bounds the deadline itself |
| BridgeObjects.CorrelationMap.TryInsert | src/bridge/correlation_map.cpp:7-14 | refuses exactly at the limit and never replaces an entry |
| BridgeObjects.CorrelationMap.Claim | src/bridge/correlation_map.cpp:16-25 | hands the entry over and erases it, or answers nothing |
| BridgeObjects.CorrelationMap.ClaimExpired | src/bridge/correlation_map.cpp:27-40 | erasing while walking hands over exactly the entries with deadline <= now, once each, and keeps the rest |
| BridgeObjects.RequestState.ResolveWith | src/bridge/td_bridge.cpp:79-112 | only a pending state takes a phase (fulfilled, timed out, or rejected at shutdown), the result and a resumption, as the claim of the race is decided and its waiter woken |
| BridgeObjects.TdBridge.AwaitSuspend | src/bridge/td_bridge.cpp:17-36 | the fields after it are those of taking an id, reading the deadline and registering: a new id, its deadline, and the entry, unless the map is full |
| BridgeObjects.NextNumberIsNew | src/bridge/td_bridge.cpp:17-36 | in every reachable state the next call's number is new to the race, which AwaitSuspend asks for |
| BridgeObjects.TdBridge.ReceiveIteration | src/bridge/td_bridge.cpp:127-156 | the iteration in place is the receive step: a sweep at most once an interval, which takes out exactly the expired entries and hands each over to be timed out |
| BridgeObjects.TdBridge.Dispatch | src/bridge/td_bridge.cpp:114-125 | is the respond step: takes out the request of a response, and nothing for an update or an unknown id |
| BridgeObjects.TdBridge.DrainPending | src/bridge/td_bridge.cpp:163-171 | is the drain step: empties the map and hands over all of it to be rejected |
| SendTracker.RunKeepsInv | src/bridge/message_send_tracker.cpp:30-190 | in every interleaving each wait collided or is accounted for by the race, and each registered wait has its timer, pending or about to be set by its own thread |
| SendTracker.EveryWaitDecidedOnce | src/bridge/message_send_tracker.cpp:30-190 | a wait collides or resumes at most once, decided by its only claim |
| SendTracker.OutcomeReachesItsWait | src/bridge/message_send_tracker.cpp:103-137 | in every run the outcome of a send reaches the wait registered for it, which is decided and resumed with it |
| SendTracker.DrainEndsEveryWait | src/bridge/message_send_tracker.cpp:155-190 | in every run, after the drain no wait registered before it is ever in the table again, and it is decided exactly once nobody holds it |
| SendTracker.ResultNamesTheResolver | src/bridge/message_send_tracker.cpp:103-137 | the result is Some(outcome) exactly when the resolve call with that outcome took the wait out |
| SendTracker.LateIsNoOp | src/bridge/message_send_tracker.cpp:55-75 | a late resolve changes nothing and a late timer only ceases to be pending |
| SendTracker.EveryRegisteredWaitHasItsTimer | src/bridge/message_send_tracker.cpp:46-76 | nobody waits without a timer of its own that is pending or that its own thread is about to set |
| SendTracker.ExposedExactly | src/bridge/message_send_tracker.cpp:40-76 | in every reachable state a wait being registered can be ended by another wait's timer, in some continuation, if and only if a timer for its id is pending or still to be set by an earlier wait's thread |
| SendTracker.NoEarlyReuseExactly | src/bridge/message_send_tracker.cpp:40-76 | over runs: no wait registered is exposed to another wait's timer if and only if none is registered on an id with a timer pending or still to be set |
| SendTracker.NoneMeansOwnTimerOrDrain | src/bridge/message_send_tracker.cpp:55-75 | in such runs a result is empty exactly if the wait was ended by its own timer or the drain |
| SendTracker.StaleTimerEndsLaterWait | src/bridge/message_send_tracker.cpp:52-61 | for every id and outcome there is a run from the start in which a resolved wait's pending timer ends the next wait |
| SendTracker.LateTimerEndsLaterWait | src/bridge/message_send_tracker.cpp:40-61 | and one in which no timer is pending when the next wait is registered: the first wait's thread sets its timer only then, and that ends the next wait |
| SendTrackerObjects.MessageSendTracker.TryInsert | src/bridge/message_send_tracker.cpp:85-90 | an occupied id keeps its wait and the call answers false |
| SendTrackerObjects.MessageSendTracker.Claim | src/bridge/message_send_tracker.cpp:92-101 | the wait is handed over and erased |
| SendTrackerObjects.MessageSendTracker.StartWait | src/bridge/message_send_tracker.cpp:30-44 | a new state object in the table, or none for a colliding id: the register step; setting the timer afterwards touches neither |
| SendTrackerObjects.MessageSendTracker.Decide | src/bridge/message_send_tracker.cpp:63-71 | only a wait nobody decided takes the outcome and is woken |
| SendTrackerObjects.MessageSendTracker.ResolveWait | src/bridge/message_send_tracker.cpp:103-137 | the table and every wait after it are those of the resolve step, its decision and its waking; it wakes exactly if somebody waited |
| SendTrackerObjects.MessageSendTracker.TimerCallback | src/bridge/message_send_tracker.cpp:55-75 | the same for a timer, which ends whoever waits for its id |
| SendTrackerObjects.MessageSendTracker.SwapAndDecide | src/bridge/message_send_tracker.cpp:155-190 | the table is empty, every wait that was in it has no result, and each of them is woken once |
| SendTrackerObjects.MessageSendTracker.DrainAllWaits | src/bridge/message_send_tracker.cpp:155-190 | the same is the claim of the whole table and the decision and waking of every claim |
| Invites.StoresAgreeOnClaims | control-plane/src/store_pg.ts:114-152 | in every state the SQL claim and the in-memory claim give the same answer and the same tables |
| Invites.ClaimExactly | control-plane/src/store_mem.ts:25-44 | in every state the refusals, each with the first reason that applies, and the row of a claim: as it was while its session runs, else claimed anew with what a run-out claim left cleared |
| Invites.MemStore.CountLive | control-plane/src/store_mem.ts:25-44 | the walk counts exactly the live claims |
| Invites.MemStore.Reset | control-plane/src/store_mem.ts:57-66 | field by field, the invite is unclaimed again and a "new" one loses its account |
| Invites.MemStore.ClaimInvite | control-plane/src/store_mem.ts:25-44 | the claim rules, with refusals in their order and the abandoned account reported |
| Invites.MemStore.ClaimTokenShow | control-plane/src/store_mem.ts:91-96 | true once per account |
| Invites.MemStore.ExpiredSessions | control-plane/src/store_mem.ts:98-102 | exactly the claimed, unused invites whose session ran out, once each |
| Invites.MemStore.Activate | control-plane/src/store_mem.ts:123-135 | the walk refuses exactly a second active account of a Telegram user, and otherwise the row is replaced |
| Invites.MemStore.ActiveByTelegramId | control-plane/src/store_mem.ts:156-161 | finds an active account of the user if there is one |
| Invites.PgStore.ClaimInvite | control-plane/src/store_pg.ts:114-152 | the transaction in place gives the in-memory answer and tables |
| Onboarding.StepInvites | control-plane/src/onboarding.ts:72-117 | no step changes an invite's kind, takes back a use, or hands a live claim to another session |
| Onboarding.LiveSessionKeepsItsInvite | control-plane/src/store_mem.ts:25-70 | over every run an invite changes its session only after the session ran out, was used up or was released |
| Onboarding.UsedForGood | control-plane/src/store_mem.ts:73-76 | over every run a used invite stays used |
| Onboarding.UsedNeverClaimed | control-plane/src/store_mem.ts:25-44 | a used invite is refused by both stores |
| Onboarding.LiveSessionsBounded | control-plane/src/onboarding.ts:72-117 | over every run, with unbounded token reveals, live sessions opened through open never exceed MAX_CONCURRENT |
| OnboardingEffects.OpenExactly | control-plane/src/onboarding.ts:72-102 | open() in every state: the page of each refusal and outcome, the invite row, the abandoned account given up only if nobody logged in, and a fresh account exactly for a "new" invite without one; no other row |
| OnboardingEffects.FinishExactly | control-plane/src/onboarding.ts:184-230 | finish() in every state, field by field: a first login is active as the user with the invite used, a duplicate goes into deletion as logged out, a relogin of the user is active again, another user is turned away with a new secret revision; nothing when the meta put fails or the store refuses a second active account; no other row |
| OnboardingEffects.SubmitExactly | control-plane/src/onboarding.ts:255-277 | submit() counts the attempt in its own counter; the sixth code or password or the fourth phone number ends the session as "too_many_attempts", the invite used and the account given up if nobody logged in |
| OnboardingEffects.RevealExactly | control-plane/src/admin_server.ts:43-62 | a whole reveal uses exactly a token code with an account up and answers it, and releases any other code it claimed |
| OnboardingEffects.ExpireExactly | control-plane/src/onboarding.ts:280-288 | expire() releases exactly the run-out sessions and gives up exactly their new accounts nobody logged into |
| OnboardingEffects.InvitedGetsIn | control-plane/src/onboarding.ts:72-243 | in every state: who opens an unclaimed "new" invite and logs in as a user nobody is active as has an active account of that user, the invite is used up, and the token is shown once however often the page is asked for |
| OnboardingEffects.IdleSessionExpires | control-plane/src/onboarding.ts:280-288 | in every state: a session nobody logs into gives its invite back and its account up once it has run out |
| OnboardingAccounts.StepOrphansExactly | control-plane/src/onboarding.ts:72-117 | with all accounts attached, a step of any handler leaves one without its invite if and only if it is a reveal's claim or release and takes a home |
| OnboardingAccounts.AttachedExactly | control-plane/src/onboarding.ts:72-117 | over every run the accounts in onboarding are attached throughout if and only if no reveal takes a home |
| OnboardingAccounts.EveryOnboardingAccountIsAttached | control-plane/src/onboarding.ts:72-117 | in such a run every account in onboarding has its own claimed, unused "new" invite, and only one |
| OnboardingAccounts.TokenRevealsTakeNone | control-plane/src/admin_server.ts:43-62 | reveals called on token codes, however slow, take no home |
| OnboardingAccounts.ExpiryBoundsOnboarding | control-plane/src/onboarding.ts:280-288 | right after an expiry pass at most MAX_CONCURRENT accounts are in onboarding |
| OnboardingAccounts.ClaimOrphansExactly | control-plane/src/admin_server.ts:46-46 | the claim of a reveal orphans an account if and only if it takes its run-out session over |
| OnboardingAccounts.SettleOrphansExactly | control-plane/src/admin_server.ts:51-55 | the release at the end of a reveal orphans an account if and only if the code is its home by then |
| OnboardingAccounts.RevealOrphansExactly | control-plane/src/admin_server.ts:46-55 | a reveal nothing comes between orphans an account if and only if it takes a run-out "new" session over |
| OnboardingAccounts.RevealCanOrphan | control-plane/src/admin_server.ts:46-55 | that is reachable from the start by opening an invite and letting its session run out |
| OnboardingAccounts.SlowRevealOrphans | control-plane/src/admin_server.ts:46-55 | so is the other way: a "new" code revealed, its minute run out, the code opened, and then released by the reveal |
| OnboardingAccounts.ActiveTelegramUnique | control-plane/src/onboarding.ts:184-230 | over every run no Telegram user has two active accounts |
| OnboardingAccounts.TokenShownOnce | control-plane/src/onboarding.ts:232-243 | over every run the finish page (readyView) shows no account's token twice; token reveals, which show the current token, are not counted |
| OnboardingObjects.OnboardingService.OpenInvite | control-plane/src/onboarding.ts:72-117 | the handler's store calls have exactly the effect of the open step, told row by row, and its page; a redirect means a live session |
| OnboardingObjects.OnboardingService.FinishLogin | control-plane/src/onboarding.ts:184-230 | relogin, wrong user, duplicate and first login each leave exactly the rows told by the finish theorem |
| OnboardingObjects.OnboardingService.SubmitAttempt | control-plane/src/onboarding.ts:255-277 | the attempt is counted in its own counter, and one too many ends the session before the worker is called |
| OnboardingObjects.OnboardingService.RevealToken | control-plane/src/admin_server.ts:43-62 | a token code is used up, any other code is released again, a refused claim changes nothing |
| OnboardingObjects.OnboardingService.ExpireSessions | control-plane/src/onboarding.ts:280-288 | the loop over run-out sessions releases exactly those and puts exactly their new accounts into deletion |
| Deletion.DeletionOrder | control-plane/src/lifecycle.ts:25-89 | over any number of passes with failures anywhere, and with the account entered into deletion again between them (by the operator, or logged out already by a duplicate login): since the latest entry storage only after the pod was seen gone, archive only after storage, Secret only after a purge or without an archiver, record last |
| Deletion.EveryPassProgresses | control-plane/src/lifecycle.ts:25-89 | every pass finishes, waits once more for logout (twice at most) at a lower rank, or is blocked by the pod, the purge or a failed call; it never goes back |
| Deletion.LogoutExactly | control-plane/src/lifecycle.ts:32-51 | told from the answers alone: a pass gets past logout if and only if there is no admin token, a healthy worker said it is logged out or had no session, or it is the third pass; otherwise it waits once more, or stands where it was if a call threw; it asks exactly a healthy worker whose token it has |
| Deletion.PassIsHonest | control-plane/src/lifecycle.ts:25-89 | whatever the outside does: what a pass says happened did (the pod was seen gone only if it was, the archive purged only if the archiver agreed), every step it leaves behind was done in it, and it ends in an error only at a call or write that threw |
| Deletion.ThreePassesFinish | control-plane/src/lifecycle.ts:22-50 | with nothing in the way three passes end the deletion from whatever step it stands at, fewer once it has waited |
| Deletion.DecodeEncode | control-plane/src/lifecycle.ts:28-34 | a stored step is read back as the step that was stored |
| Deletion.ReplicasFollowRank | control-plane/src/manifests.ts:98-98 | the desired replicas are 0 exactly from logged_out on, and 1 for any account not being deleted |
| Deletion.ReplicasStayZero | control-plane/src/manifests.ts:42-42 | and stay 0 over any later passes |
| Deletion.DeletionRun.Logout | control-plane/src/lifecycle.ts:32-51 | no admin token, an unhealthy worker, a failed logout and the last wait each take their branch |
| Deletion.DeletionRun.PurgeArchive | control-plane/src/lifecycle.ts:64-83 | a missing token or a failed purge keeps the step |
| Deletion.DeletionRun.AdvanceDeletion | control-plane/src/lifecycle.ts:25-89 | the pass in place is the composition of its stages; its outcome is explained, its logout decided by the worker's answers, and what it says is true |
| Reconcile.Cluster.ListManaged | control-plane/src/kube.ts:71-74 | exactly the managed objects of the kind, once each, in any order |
| Reconcile.Cluster.ApplyAccount | control-plane/src/reconcile.ts:14-25 | the objects up to the first apply that throws, and how many; the worker among them is asked for as the record says |
| Reconcile.Cluster.SweepAll | control-plane/src/reconcile.ts:25-38 | only doomed objects go, none of them is left when no call throws, and Secrets are not looked at |
| Reconcile.ReconcileOnce | control-plane/src/reconcile.ts:10-40 | if the accounts cannot be read nothing is touched; otherwise objects are applied and doomed ones deleted, with the exact counts; when nothing throws every account is served as it should be |
| Reconcile.EveryAccountIsServed | control-plane/src/manifests.ts:87-205 | after a clean pass every account with a valid id has a worker labelled with it, asked for no replica if and only if it is in deletion at one of the five logged-out steps and for one otherwise, with its secret revision, export and archive flags; its service and policy; and a route from outside if and only if it is active |
| Reconcile.StopsWithDeletion | control-plane/src/manifests.ts:98-98 | for a stored step, the worker is asked to stop exactly from logged_out on |
| Reconcile.OthersStayExactly | control-plane/src/reconcile.ts:25-38 | where nothing is desired a clean pass removes exactly the managed objects, Secrets aside, that bear no label, an unknown one, or are the route of an inactive account, and changes nothing |
| Reconcile.DesiredIsUnion | control-plane/src/manifests.ts:200-205 | the objects applied account by account are the union of the desired objects, since worker names differ |
| Reconcile.ConvergesExactly | control-plane/src/reconcile.ts:10-40 | a pass in which nothing throws leaves exactly the desired objects managed if and only if there was no stray |
| Reconcile.StrayStays | control-plane/src/reconcile.ts:25-38 | for every account and other name, a Service labelled with the account under that name is such a stray: the pass keeps it and does not converge |
| Reconcile.WellNamedConverges | control-plane/src/manifests.ts:44-55 | which is so when objects are named after their label and ids are valid |
| Reconcile.SecondPassIsIdle | control-plane/src/reconcile.ts:10-40 | an immediate second pass deletes nothing and changes nothing |
| Reconcile.SparedAlways | control-plane/src/reconcile.ts:25-38 | whatever throws, no Secret, unmanaged object or freshly applied object is doomed, and without a failed apply no desired key is |
| BatchWorker.WorkerDrains | src/events/kafka_sink.cpp:91-133 | left to itself the worker hands on everything accepted, and leaves exactly if it was told to stop |
| KafkaSink.KafkaHandsOverInOrder | src/events/kafka_sink.cpp:71-150 | in every interleaving the messages handed to librdkafka are a prefix of the accepted ones, in order and once; the queue stays within kMaxQueue; everything accepted before the worker left was handed on |
| KafkaSink.LostIsLate | src/events/kafka_sink.cpp:71-89 | over every run that ends with the worker gone, everything accepted was handed on if and only if nobody produced after it left |
| KafkaSink.Sink.Enqueued | src/events/kafka_sink.cpp:71-89 | appends or drops when full, whatever the stop flag |
| KafkaSink.Sink.TakeBatch | src/events/kafka_sink.cpp:94-112 | swaps the whole queue out, or leaves when it is empty and stop is set |
| KafkaSink.Sink.HandBatch | src/events/kafka_sink.cpp:113-130 | hands the batch on in order and touches nothing else |
| KafkaSink.Sink.Flush | src/events/kafka_sink.cpp:135-150 | after the join the queue is empty and everything accepted was handed on |
| Webhooks.RunKeepsSound | src/webhook/webhook_dispatcher.cpp:353-466 | in every interleaving of bridge, worker, loop and stopping thread the dispatcher's invariant holds |
| Webhooks.EveryAcceptedIsExpanded | src/webhook/webhook_dispatcher.cpp:353-405 | the queued functors are exactly one per accepted payload and active hook of a snapshot taken later, in order; all of them once the worker has left |
| Webhooks.DestroyedOnlyWhenDrained | src/webhook/webhook_dispatcher.cpp:407-466 | the loop is destroyed only when every functor has run and no callback is alive; nothing is queued or sent afterwards |
| Webhooks.PromptStopDestroys | src/webhook/webhook_dispatcher.cpp:427-453 | a drained loop passes the barrier and is destroyed, not leaked |
| Webhooks.InFlightExactly | src/webhook/webhook_dispatcher.cpp:146-200 | a request is in flight exactly from the functor that sent it until its callback is gone |
| Webhooks.LoopRunsNext | src/webhook/webhook_dispatcher.cpp:385-404 | the loop thread runs the functors one by one in their order, as long as it lives |
| Webhooks.Service.StartUp | src/webhook/webhook_dispatcher.cpp:335-343 | is the start step: accepts from now on, once |
| Webhooks.Service.Dispatch | src/webhook/webhook_dispatcher.cpp:353-376 | is the dispatch step: refused before start, after stop and when full; otherwise appended |
| Webhooks.Service.TakeBatch | src/webhook/webhook_dispatcher.cpp:382-390 | is the worker's waking: swaps the whole queue out, or leaves when it is empty and stop is set |
| Webhooks.Service.PostBatch | src/webhook/webhook_dispatcher.cpp:391-402 | the two loops queue the expansion of the batch with the snapshot, as a run of the worker's steps that ends with the batch handed on |
| Webhooks.Service.RaiseStop | src/webhook/webhook_dispatcher.cpp:407-414 | is the stop step: the flag goes up once |
| CoalescingGate.NoLostRequest | src/auth/s3_session.cpp:145-164 | one worker at most, in_flight says whether there is one, no more steps than requests, and at rest a step has begun after every request |
| CoalescingGate.RequestIsFollowedByStep | src/auth/s3_session.cpp:145-164 | a request at any time is followed by a step that begins after it |
| CoalescingGate.UndisturbedWorkerDrains | src/auth/s3_session.cpp:156-164 | in every run a worker left to itself is at rest after at most two more steps, the last of them begun after every request |
| CoalescingGate.SyncGate.TryStart | src/auth/s3_session.cpp:145-154 | puts the request off exactly while a worker runs |
| CoalescingGate.SyncGate.FinishStep | src/auth/s3_session.cpp:156-164 | goes on exactly when a request was put off, and otherwise clears in_flight |
| CoalescingGate.Reconciler.Kick | control-plane/src/reconcile.ts:79-86 | after stop nothing; while running the kick is put off; otherwise a pass has begun when it returns |
| CoalescingGate.Reconciler.PassDone | control-plane/src/reconcile.ts:54-77 | a pending kick starts another pass unless stopped |
| CoalescingGate.Reconciler.StopIt | control-plane/src/reconcile.ts:91-94 | is the stop step: the flag goes up and nothing else changes |
| S3Sync.PlayKeeps | src/auth/s3_session.cpp:123-207 | the sync's invariant holds over every interleaving of requests, binlog writes and the parts of a step |
| S3Sync.LandedIsAcknowledgedExactly | src/auth/s3_session.cpp:126-139 | S3 holds what was acknowledged last if and only if no unacknowledged put came after it, whatever puts were refused |
| S3Sync.QuiescentExactly | src/auth/s3_session.cpp:123-207 | in every run at rest the last read is at least as new as every request, and S3 holds what it read if and only if the last step's put landed, or it skipped with no unacknowledged put since the acknowledged one, or its put was refused (or there was no binlog) and S3 held that already; earlier refusals and empty reads do not matter |
| S3Sync.QuiescentIsSynced | src/auth/s3_session.cpp:123-207 | so at rest, with a binlog read, no refused last put, no unacknowledged put after the last acknowledged one and sync not disabled, S3 holds the binlog as read at or after the last request |
| S3Sync.RequestIsSynced | src/auth/s3_session.cpp:123-207 | in every run, after a request with no write following it, at rest under those conditions S3 holds the current binlog |
| S3Sync.DisabledStepPutsNothing | src/auth/s3_session.cpp:126-129 | in every run a step that checks while sync is disabled ends there, whatever follows, and its worker puts nothing in it |
| S3Sync.DisabledPutsNothing | src/auth/s3_session.cpp:126-139 | in every run a disabled sync stays disabled, and no put is made any more but at most one of a step already past its check |
| S3Sync.UncertainSticks | src/auth/s3_session.cpp:126-139 | in every state at rest, a round over the data acknowledged last puts nothing, and leaves the wrong object if and only if an unacknowledged put of other data came since |
| S3Sync.UnacknowledgedPutCanStick | src/auth/s3_session.cpp:126-139 | such a state is reachable, for any two contents |
| S3Sync.S3SessionSync.SyncOnce | src/auth/s3_session.cpp:126-139 | the fields are those of the step's moves: it puts exactly when enabled, readable and changed, remembers only acknowledged data, and does nothing when disabled |
| Idempotency.RunKeepsValid | src/http/idempotency_cache.hpp:38-89 | the order holds exactly the keys of the entries, once each, within the capacity |
| Idempotency.ClaimedIsRemembered | src/http/idempotency_cache.hpp:38-89 | a claimed, unreleased key survives fewer later fresh claims than the capacity, and until then is answered "in flight" before a store and exactly the last stored answer after |
| Idempotency.GoesExactly | src/http/idempotency_cache.hpp:38-89 | an operation takes a key out if and only if it releases it, or is a fresh claim and the key is the oldest of a full cache |
| Idempotency.SurvivesExactly | src/http/idempotency_cache.hpp:38-89 | over every run without releases a key is there all the time if and only if the keys behind it and the fresh claims are fewer than the capacity, in flight or not |
| Idempotency.RememberedExactly | src/http/idempotency_cache.hpp:38-89 | and a key nobody claims again is there in the end exactly then |
| Idempotency.IdempotencyCache.EvictIfNeeded | src/http/idempotency_cache.hpp:84-89 | the loop drops the oldest keys from both containers |
| Idempotency.IdempotencyCache.ClaimKey | src/http/idempotency_cache.hpp:38-53 | the answer and both containers after a claim |
| Idempotency.IdempotencyCache.StoreAnswer | src/http/idempotency_cache.hpp:55-63 | stores only for a key that is there |
| Idempotency.IdempotencyCache.ReleaseKey | src/http/idempotency_cache.hpp:66-76 | removes the key from both containers, keeping the order of the others |
| MediaQueue.QueueStaysBounded | archiver/src/media.ts:220-361 | in every run queue and job in work stay within QUEUE_CAP + 1, each job is processed at most five times, accepted jobs are exactly those queued, in work or ended, and the key memory is bounded |
| MediaQueue.EndedForGood | archiver/src/media.ts:303-361 | a job that ended stays as it ended and is not processed again |
| MediaQueue.SettleExactly | archiver/src/media.ts:303-358 | each result ends the job in its own way; a retry and a retriable error put it back at the end of the queue, due a minute later for each attempt, and give it up at the fifth, when its key is forgotten |
| MediaQueue.TakeExactly | archiver/src/media.ts:325-339 | a job goes into work only when it is due, and the first one only |
| MediaQueue.EnqueueExactly | archiver/src/media.ts:220-232 | a job is accepted exactly if its key is not remembered and the queue is not full, and then waits at its end |
| MediaQueue.PurgeExactly | archiver/src/media.ts:235-240 | a purge ends exactly the waiting jobs of its session |
| MediaQueue.MarkEvictsLeastRecent | archiver/src/media.ts:247-260 | a new key evicts, only when full, the key touched longest ago |
| MediaQueue.KeptIs | archiver/src/media.ts:235-240 | purging drops exactly the session's queued jobs |
| MediaQueue.MediaOffloader.Touch | archiver/src/media.ts:257-260 | the key moves to the most recent end |
| MediaQueue.MediaOffloader.Mark | archiver/src/media.ts:247-254 | the key is added at the recent end after the oldest made room |
| MediaQueue.MediaOffloader.EnqueueMedia | archiver/src/media.ts:220-232 | a seen key is only touched, a full queue accepts nothing, otherwise the job is queued |
| MediaQueue.MediaOffloader.TakeNext | archiver/src/media.ts:325-339 | a job not due goes to the end, a due one into work |
| MediaQueue.MediaOffloader.Requeue | archiver/src/media.ts:303-316 | requeued below five attempts, given up and forgotten at five |
| MediaQueue.MediaOffloader.Finish | archiver/src/media.ts:340-358 | each result and each kind of error settles the job in its way |
| WsRegistry.EveryConnectionOnItsOwn | src/ws/ws_registry.cpp:19-97 | over every run each connection fares as if alone: other connections change nothing for it |
| WsRegistry.PeerGetsExactly | src/ws/ws_registry.cpp:19-97 | told from the history alone: a peer has received the payloads of the updates that reached it (it had joined, not left, not lost its link, not been cut, and its last filter passed) and were not too much, in order with its pongs; it is registered until it left or was cut |
| WsRegistry.PeerPayloads | src/ws/ws_registry.cpp:57-97 | its payloads are exactly those of such updates, each once and in order |
| WsRegistry.CutExactly | src/ws/ws_registry.cpp:57-97 | in every run a fan-out removes and closes a subscriber it hits if and only if its backlog and the payload are more than the limit; otherwise the peer gets the payload |
| WsRegistry.CounterIsBacklog | src/ws/ws_registry.cpp:31-97 | the counter is the number of bytes sent since the last pong, and no peer has more than the limit outstanding |
| WsRegistry.WsSubscriberRegistry.Join | src/ws/ws_registry.cpp:19-22 | registers with an empty counter and no filter |
| WsRegistry.WsSubscriberRegistry.Erase | src/ws/ws_registry.cpp:24-29 | removes the given connections and keeps the order of the others |
| WsRegistry.WsSubscriberRegistry.ChangeFirst | src/ws/ws_registry.cpp:31-50 | changes the connection's subscriber only |
| WsRegistry.WsSubscriberRegistry.Disconnected | src/ws/ws_registry.cpp:24-29 | is the disconnect step |
| WsRegistry.WsSubscriberRegistry.ChangeFilter | src/ws/ws_registry.cpp:41-50 | is the filter step |
| WsRegistry.WsSubscriberRegistry.NotePong | src/ws/ws_registry.cpp:31-39 | clears the counter of a registered connection |
| WsRegistry.WsSubscriberRegistry.ChargeHit | src/ws/ws_registry.cpp:57-76 | the loop charges every subscriber hit and sorts them into slow and alive |
| WsRegistry.WsSubscriberRegistry.FanOutUpdate | src/ws/ws_registry.cpp:57-97 | charging, erasing, closing and sending together are the fan-out step |
| Base64.Encode | src/util/base64.cpp:22-52 | the text is the letters of the zero-filled bit stream in groups of six, with its padding |
| Base64.BuildReverse | src/util/base64.cpp:11-18 | the table holds each letter's value and -1 elsewhere |
| Base64.Decode | src/util/base64.cpp:54-84 | None exactly on a character outside the alphabet or data after padding; otherwise the whole bytes of the letters' bits |
| Base64.ShiftIn | src/util/base64.cpp:75-80 | the 32-bit accumulator may wrap and still holds the undelivered bits and the six new ones |
| Base64.ScanKeepsBits | src/util/base64.cpp:59-81 | between characters 0, 2, 4 or 6 bits are undelivered, and they are the low bits of the accumulator |
| Base64.DecodeEncode | src/util/base64.cpp:22-84 | decoding any text that equals the encoding of x up to blanks gives x, for every byte string |
| Base64.DecodeOfText | src/util/base64.cpp:22-84 | the plain round trip: decoding what was encoded gives it back |
| Base64.BlankInserted | src/util/base64.cpp:61-63 | a blank put in anywhere is not seen |
| Decimal.ValueOfPrint | src/http/byte_range.hpp:30-40 | a printed number is read as itself |
| ByteRange.IsAllDigits | src/http/byte_range.hpp:16-26 | true exactly for non-empty strings of ASCII digits |
| ByteRange.ParseDigits | src/http/byte_range.hpp:30-40 | the decimal value exactly when all are digits and it fits 64 bits |
| ByteRange.ParseByteRange | src/http/byte_range.hpp:50-91 | a slice exactly when the header is one satisfiable range of section 14.1.2 of RFC 9110 with numbers below 2^64, and then exactly the selected positions, at least one, inside the file |
| ByteRange.AnswerIsUnique | src/http/byte_range.hpp:50-91 | a header has one answer |
| ByteRange.PrintedIsAnswered | src/http/byte_range.hpp:50-91 | any range a..b of a file, printed, is answered with offset a and length b - a + 1 |
| ReplyChain.Detect | src/ws/owner_mention_detector.hpp:25-59 | exactly when a message triggers or is a reply to verify, in the order mention, reply, private |
| ReplyChain.BuildEvent | src/webhook/context_builder.cpp:31-107 | an event exactly when the trigger stands; its chain is the reply path, at most the limit, and truncated exactly if the path did not reach a message without a parent |
| ReplyChain.EventIsUnique | src/webhook/context_builder.cpp:31-107 | that determines the event |
| ReplyChain.ReplyIsVerified | src/webhook/context_builder.cpp:46-101 | for detector results a reply event means the first parent was fetched and sent by the owner, or the parent id is 0 |
| ReplyChain.ReplyToZeroIsUnverified | src/webhook/context_builder.cpp:46-101 | for any fetches, a reply to id 0 in a group gives a reply event with no chain |
| ReplyChain.WholeWhenNotTruncated | src/webhook/context_builder.cpp:60-93 | an event is not truncated exactly if its chain goes down to a message that replies to nothing |
| ReplyChain.CycleFillsLimit | src/webhook/context_builder.cpp:60-93 | on a cycle of replies only the limit cuts the chain, and the event says so |

## Left out

- HTTP routes, pages, the QR encoder, MCP tools, DTO projection, configuration and metrics: wrappers and field copying.
- Cryptography: SHA-256 is taken as injective, codes and ids as never generated twice, HMAC and SigV4 are absent.
- TDLib, librdkafka, Drogon, Kubernetes, S3 and Postgres themselves: parameters, or steps with any answer.
- Memory reclamation, coroutine frames and the happens-before edges of the C++ memory model: a mutex section is one step.
- Archive.HandleEvent: media links, which the offloader writes into rows later, the processed counter, warnings and the search index are absent; a Postgres row is taken to behave as the SQLite row, by the same statements.
- ArchiveFrames.FramesConvergeExactly: backfill beside the consumer, and frames dropped after five failed attempts, are not events of the reader.
- Bridge.SweepLatenessAtomic: holds for entries inserted at the very time their deadline was read; the general bound is for all.
- SendTrackerObjects.MessageSendTracker.DrainAllWaits: resolves, timers and the drain's loop run here without interruption; the step system interleaves them.
- Onboarding.LiveSessionsBounded: each handler body is one step, so interleavings and crashes between the awaits inside open, createAccount and expire are absent.
- OnboardingObjects.OnboardingService.FinishLogin: starts from tables in which no Telegram user has two active accounts, which every run keeps; the worker's answers and the meta object are parameters.
- Deletion.DeletionOrder: re-entries fall between passes, not within one; a call that throws has no effect; a database write applied although it reports failure would store the next step earlier, which the order does not depend on.
- Deletion.DecodeEncode: a step text that no pass writes, such as a wait without a number, is read as no step.
- Relogin detection (lifecycle.ts, detectRelogin) is the SessionLost step with the worker's state left open.
- Reconcile.ReconcileOnce: manifests keep only the fields that depend on the account; server-side apply replaces them; failures are chosen per object, and a failed call has no effect.
- KafkaSink.Sink.Flush: producers are quiet while it runs; the interleavings are those of KafkaHandsOverInOrder. The outcome of a delivery inside librdkafka is absent.
- Webhooks.DestroyedOnlyWhenDrained: start and stop are not called at the same time; the rest of stop() after its flag, its waits on other threads, is in the step system only; url checks and the HTTP exchange are one choice per functor, whether it sends.
- S3Sync.QuiescentExactly: this process is the object's only writer, so the final push on shutdown and the restore on start are absent.
- MediaQueue.QueueStaysBounded: process() is one result; its downloads, the upload and the purge of objects in S3 are absent. The ids of accepted jobs and their fates are bookkeeping of the model.
- WsRegistry.CounterIsBacklog: a fan-out's sends and closes, which follow its mutex section, are in its step, so a pong that comes between charging and sending counts as coming after the send; limit and payload lengths are such that the 64-bit counter cannot wrap, and the limit is fixed and not 0; connections register once each.
- Base64.Encode: bit operations are written as division and remainder.
- ByteRange.ParseByteRange: an empty file satisfies no range, also no suffix, as in the code; section 14.1.2 of RFC 9110 would call a non-zero suffix satisfiable. What the out-parameters hold after a refusal is absent.
- ReplyChain.BuildEvent: the DTOs of the messages, ids and timestamps of the event are absent.
- The typing delay: a floating-point formula with one clamp.
