# A verified model of the chat system

The repository is a distributed chat system: gateway, balance server, chat servers and a resources server around one
Redis, and a Qt client. This project models the parts of it that are protocols, concurrent algorithms or arithmetic,
and proves what they keep, for every input, every run and every interleaving.

Each part comes as a machine (a state, events, one atomic step per event, runs as sequences of events), the theorems
about its runs, and the source's own classes and methods, tied to the machine by their contracts.

| part | machine and specification | theorems | classes and methods |
|---|---|---|---|
| leased Redis lock, login binding, counters | `Redis.dfy`, `Cluster.dfy` | `LeaseSafety.dfy`, `BindingSafety.dfy`, `CounterSafety.dfy`, `Solo.dfy`, `ClusterFaults.dfy` | `RedisClient.dfy` |
| session write pump and deferred close | `WritePump.dfy` | `WritePumpSafety.dfy`, `WritePumpTheorems.dfy`, `WritePumpOutcomes.dfy` | `SessionWriter.dfy` |
| least-loaded dispatch | `LoadBalancer.dfy` | `LoadBalancer.dfy` | `LoadBalancer.dfy` |
| block arithmetic in doubles | `BlockCount.dfy` | `BlockCount.dfy` | `FileTransfer.dfy` |
| stop-and-wait file upload | `FileUpload.dfy` | `FileUploadSafety.dfy` | `FileTransfer.dfy` |
| wire framing | `Framing.dfy` | `Framing.dfy` | `FrameReader.dfy` |
| live and waiting sessions, login, logout, sweep | `UserDirectory.dfy` | `UserDirectorySafety.dfy`, `UserDirectoryFaults.dfy` | `UserManager.dfy` |
| client message buffer | `MessageBuffer.dfy` | `MessageBuffer.dfy` | `MessageStore.dfy` |
| connection pool and guards | `ConnectionPool.dfy` | `ConnectionPool.dfy` | `PoolGuards.dfy` |
| crop rectangle | `ImageCropper.dfy` | `ImageCropper.dfy` | `CropperLabel.dfy` |

`dafny verify dfyconfig.toml` checks the whole project.

## Main results

- Lock and binding: `LeaseSafety.MutualExclusion`, `BindingSafety.FreeLockMeansConsistent`,
  `BindingSafety.OnlyOwnCleanupOrLoginRemoves`; `ClusterFaults` has a run from the initial state for every premise.
- Counters and dispatch: `CounterSafety.CounterIsAtomic`, `CounterCountsSinceStart`, `LoadBalancer.LoadsStayWithinK` and its tightness.
- Write pump: `WritePumpTheorems.OneWriteAtATime`, `AliveWireIsPrefix`, `CloseNeverInterruptsWrite`, `DrainedAtRestIff`,
  `WritePumpOutcomes.CompletionOutcome`.
- Upload: `BlockCount.BlockCountIsExact`, `FileUploadSafety.ServerHoldsPrefix`, `FinishedCopyIsIdentical`, `SizesAreExact`,
  `AcceptedFileArrives`.
- Framing: `Framing.AnySplitRoundTrips`, `FrameRoundTripsIff`, `NothingLostOrInvented`.
- Users: `UserDirectorySafety.NoSessionLiveTwice`, `LoginOutcome`, `UnknownUserOutcome`, `UserManager.Server.HeartBeatEvent`,
  `UserDirectoryFaults.StaleCallbackErasesNewEntry`.
- Structures: `MessageBuffer.EveryRunKeepsIndexes`, `RunKeepsKeysIff`, `ConnectionPool.NoConnectionSharedEver`,
  `ConnectionsAreConserved`, `NothingAcquiredAfterDrain`.
- Cropper: `ImageCropper.FreeShapesStayInside`, `SquareStaysSquare`, `SquareRunStaysInsideIff`.

## Where the steps come from

The functions below only compute one step; what they guarantee is stated by the lemmas and methods of the section Model.

| function | source |
|---|---|
| `Redis.IsSuccessful`, `Redis.DelReply` | chatting-server/src/RedisReplyRAII.cpp:3-36 |
| `Redis.SetNxPx`, `Cluster.TryAcquire` | chatting-server/src/RedisContextRAII.cpp:264-331 |
| `Redis.CompareAndDelete` | balance-server/include/redis/RedisContextRAII.hpp:73-82 |
| `Cluster.LoginStep` | chatting-server/src/SyncLogic.cpp:144-248 |
| `Cluster.CleanupStep` | chatting-server/src/Session.cpp:71-104 |
| `Cluster.CountStep` | chatting-server/src/SyncLogic.cpp:58-104, chatting-server/src/Session.cpp:417-466, chatting-server/src/main.cpp:111-190 |
| `WritePump.LocalStep`, `WritePump.Apply` | chatting-server/src/Session.cpp:123-205, 362-386 |
| `LoadBalancer.Apply` | balance-server/src/GrpcDataLayer.cpp:60-140 |
| `FileUpload.Start`, `FileUpload.SendNext` | chatting-client/filetransferthread.cpp:66-145 |
| `FileUpload.OnAnswer` | chatting-client/logicexecutor.cpp:12-34, chatting-client/filetransferthread.cpp:42-57 |
| `FileUpload.Handle` | resources-server/src/SyncLogic.cpp:302-365 |
| `Framing.Encode` | chatting-server/include/buffer/MsgNode.hpp:347-369 |
| `Framing.OnHeader`, `Framing.FeedByte` | chatting-server/src/Session.cpp:207-360, resources-server/src/Session.cpp:150-306 |
| `UserDirectory.LogicStep` | chatting-server/src/ChatBusinessLogic.cpp:116-321, chatting-server/src/SyncLogic.cpp:115-201 |
| `UserDirectory.Move`, `Remove`, `RemoveIf`, `Create`, `Fire` | chatting-server/src/UserManager.cpp:18-85 |
| `MessageBuffer.Insert`, `Confirms` | chatting-client/ChattingMessageBuffer.hpp:22-137 |
| `ConnectionPool.Apply` | balance-server/include/service/ConnectionPool.hpp:33-129 |
| `ImageCropper.Classify`, `MoveFrame`, `Apply` | chatting-client/imagecropperqlabel.cpp:209-482 |

## What the models take from outside

- Time is a number of milliseconds that passes between any two steps. The lock identifier of an acquire call is the
  number of the call, so identifiers are fresh. Session identifiers are fresh per connection.
- A Redis command either answers or fails without effect. In `Cluster.dfy` any command may fail, and so it may in the
  methods of `RedisClient.dfy`; the binding theorems exclude the failure of the five binding writes, the counter theorems
  that of the three commands on a counter, its read included. `ClusterFaults.dfy` has a run for each of the eight.
- `async_read` delivers exactly the bytes asked for or an error. Concurrent containers are linearizable.
- A disk stores a block completely or not at all. Base64 decoding undoes its encoding.
- Doubles are the reals `m * 2^k` with `|m| < 2^53`; every operation answers a nearest one, ties broken either way
  (section 4.3.1 of IEEE 754-2008). The operations here stay far from the ends of the exponent range.
- The answers of the account service, of a remote kick and of the user database are parameters.

## Where code and expectation part

Each of these is stated as a lemma with the exact condition or a concrete run, and the code is modelled as it is.

- A cleanup or an increment that outlives its ten milliseconds of lease erases a newer binding, or loses an update.
- A push between the last failed `try_pop` and the reset of the write flag is stranded until the next `sendMessage`.
- The upload acknowledgement converts sequence numbers and sizes to 32 bits. Content is intact up to 2^32 blocks, the
  reported sizes up to 4 GB before the last block and only for the first transfer of a sender, because the accumulated
  size is not reset. The dialog's limit of 4 GB keeps both conditions.
- The comment in `MsgNode.hpp` speaks of files of no more than 4 GB; a body may have 4294967289 bytes, and the length
  field wraps silently beyond.
- `updateVerificationStatus` never succeeds: its guard on the server's id is inverted, and it renames a record whose
  entry stays where it was.
- A login whose lock cannot be had leaves the previous session live and itself out of the live map.
- The double-login guard looks at the uuid, not at the session: its kick moves out whoever is live under it, while the
  message and the removal of the binding are for the session that asked.
- A close callback erases the waiting entry by uuid, so the callback of an older session can take away the entry of the
  one that has replaced it, which is then in neither map.
- A logout moves whoever is live under the uuid named in the message, but marks only the session that asked.
- A release of a pooled connection can push after shutdown has drained the queue.
- The test at `imagecropperqlabel.cpp:412` has its comparison the wrong way round, so a square can leave the image.

## Model

| member | source | states |
|---|---|---|
| `LeaseSafety.LockEffect` | chatting-server/src/RedisContextRAII.cpp:300-363 | One step of any client touches the lock keys in one of three ways: not at all, by being granted a free lock for the lease time, or by deleting a lock that still carries its own identifier |
| `LeaseSafety.ExclusiveStep` | chatting-server/src/RedisContextRAII.cpp:264-363 | Every step, of any client, with any command failing and time passing, keeps: whoever is past the lock with time left is the one the lock key names |
| `LeaseSafety.ExclusiveRun` | chatting-server/src/RedisContextRAII.cpp:264-363 | The same over whole runs |
| `LeaseSafety.MutualExclusion` | chatting-server/src/RedisContextRAII.cpp:264-331 | In every run, leases lapsing at any moment, at most one client holds an unexpired lease on a name |
| `LeaseSafety.LateStepSparesNewHolder` | balance-server/include/redis/RedisContextRAII.hpp:73-82 | Whatever a client does after its lease has lapsed, its release included, the client that holds the lease now keeps it, on the same key |
| `LeaseSafety.ReleaseFreesName` | chatting-server/src/RedisContextRAII.cpp:333-363 | A release by the holder frees the name at once |
| `BindingSafety.BindingStep` | chatting-server/src/SyncLogic.cpp:144-248 | Between any two Redis commands of any clients the two keys of every uuid are in the state the client inside its section is entitled to, or agree when there is none; every step whose lease lasts and whose writes succeed keeps this |
| `BindingSafety.BindingRun` | chatting-server/src/SyncLogic.cpp:144-248 | The same over every orderly run |
| `BindingSafety.FreeLockMeansConsistent` | chatting-server/src/SyncLogic.cpp:163-248 | For any interleaving of logins, cleanups and counter changes, whenever a uuid's lock is free its server key and session key are both absent or both present, and then the session was created on that server |
| `BindingSafety.UntouchedStep` | chatting-server/src/Session.cpp:71-104 | A step that is no command of a login of the uuid and none of the cleanup of this very session leaves both keys of the binding as they are |
| `BindingSafety.UntouchedRun` | chatting-server/src/Session.cpp:71-104 | The same over runs |
| `BindingSafety.OnlyOwnCleanupOrLoginRemoves` | chatting-server/src/Session.cpp:79-102 | If a binding written by a session is gone or replaced, a later login of the uuid or the cleanup of that very session did it: cleaning up another session never erases it |
| `Solo.LoginWrites` | chatting-server/src/SyncLogic.cpp:144-161 | From its first delete on, a login that keeps its lock ends with exactly its own server and session bound, also when no binding was there (a delete of an absent key succeeds), and lets the lock go |
| `Solo.ExecCommands` | chatting-server/src/SyncLogic.cpp:163-248 | A client working alone, each command taking its time and succeeding or failing, is a run of the cluster |
| `CounterSafety.GrantCount` | chatting-server/src/SyncLogic.cpp:58-104 | Being granted the lock is the point at which the atomic counter changes: from there the section owes the stored value exactly its own operation |
| `CounterSafety.CounterStep` | chatting-server/src/SyncLogic.cpp:58-104 | Every step, one Redis command at a time, keeps the stored counters and the sections under way in line with the atomic counters |
| `CounterSafety.CounterRun` | chatting-server/src/Session.cpp:417-466 | The same over every orderly run |
| `CounterSafety.CounterIsAtomic` | chatting-server/src/SyncLogic.cpp:58-104 | Whenever a server's lock is free its stored counter is what an atomic counter holds after the granted increments, decrements, resets and removals in lock order: no update is lost, none goes below zero |
| `CounterSafety.CounterBalance` | chatting-server/src/main.cpp:111-141 | From a server's start-up, which resets its counter, whatever was granted before, the atomic counter is the logins less the purges granted since, while purges never run ahead |
| `CounterSafety.CounterCountsSinceStart` | chatting-server/src/Session.cpp:417-466 | In a run: with the lock free the stored counter of such a server is that difference |
| `ClusterFaults.LapsedCleanupErasesNewLogin` | chatting-server/src/Session.cpp:71-104 | A run from the initial state, no command failing, in which a cleanup outlives its lease and erases the binding of a newer login |
| `ClusterFaults.LapsedCleanupTearsBinding` | chatting-server/src/Session.cpp:93-99 | The same run one deletion in: the lock is free and the two keys disagree, so the lease premise cannot be dropped |
| `ClusterFaults.EveryTearingFaultTears` | chatting-server/src/SyncLogic.cpp:232-239 | For each of the five binding writes, a run from the initial state in which only that command fails leaves the lock free and the two keys in disagreement |
| `ClusterFaults.EveryCounterFaultLoses` | chatting-server/src/SyncLogic.cpp:76-95 | For each command on a counter, the read included, a run from the initial state in which only that command fails leaves the lock free and a counter other than the atomic one |
| `ClusterFaults.LapsedIncreaseLosesUpdate` | chatting-server/src/SyncLogic.cpp:76-99 | A run, no command failing, in which an increment outlives its lease: two increments are granted, all sections end, and the counter is 1 |
| `RedisClient.RedisContext.AcquireLock` | chatting-server/src/RedisContextRAII.cpp:300-331 | Granted exactly when the command succeeds and no lease on the name is running when it takes effect; then this client holds the name for the lease time, otherwise no key has changed |
| `RedisClient.RedisContext.Acquire` | chatting-server/src/RedisContextRAII.cpp:264-298 | Granted if and only if the name is not empty and some turn begun inside the waiting time has a command that succeeds and finds the lock free; the turns are then a run of the waiting client; otherwise nothing but the clock has changed |
| `RedisClient.RedisContext.Release` | chatting-server/src/RedisContextRAII.cpp:333-363 | Afterwards no lease of this client on the name is running unless the command failed; the lock of another client, and every other key, is as before |
| `RedisClient.LabelCurrentUser` | chatting-server/src/SyncLogic.cpp:144-151 | Succeeds exactly when both commands do, and then the server key is this server; a failed write leaves it deleted, a failed deletion leaves it; whatever happens the commands are a run of the login client |
| `RedisClient.LabelUserSessionID` | chatting-server/src/SyncLogic.cpp:153-161 | The same for the session key |
| `RedisClient.FindBinding` | chatting-server/src/SyncLogic.cpp:185-230 | Refuses exactly when the binding was read as another server's and that server's kick fails; no key changes |
| `RedisClient.UpdateRedisCache` | chatting-server/src/SyncLogic.cpp:163-248 | Whatever each command does and however long it takes, the call is a run of the login client from the waiting for the lock on; both keys end as the first failing command leaves them, bound to this server and session when none fails and no kick is refused, and no lease of it is left running once its release succeeds |
| `RedisClient.StillMine` | chatting-server/src/Session.cpp:79-93 | True exactly when both keys are read as present and the session key is this session's |
| `RedisClient.EraseBinding` | chatting-server/src/Session.cpp:94-98 | Each key goes exactly when its own deletion succeeds |
| `RedisClient.RemoveRedisCache` | chatting-server/src/Session.cpp:71-104 | Whatever each command does and however long it takes, the call is a run of the cleanup client; a key goes exactly when the binding was read as this session's and the deletion succeeds |
| `RedisClient.IncrementConnection` | chatting-server/src/SyncLogic.cpp:58-104 | Whatever each command does, the call is a run of the counting client; the counter is one more than was read, an absent or unreadable one reading as zero |
| `RedisClient.DecrementConnection` | chatting-server/src/Session.cpp:417-466 | Whatever each command does, the call is a run of the counting client; the counter is one less than was read, and is not written at zero |
| `WritePumpSafety.TokenStep` | chatting-server/src/Session.cpp:133-157 | Every atomic step keeps the flag a token: up exactly while one thread owns it or one write is outstanding, never two at once |
| `WritePumpSafety.BuffersStep` | chatting-server/src/Session.cpp:129-149 | Every step keeps popped followed by queued equal to pushed, and the current message buffer equal to the message being written |
| `WritePumpSafety.PlacedStep` | chatting-server/src/Session.cpp:135-149 | Every step keeps the wire a strictly increasing selection of the popped messages |
| `WritePumpSafety.FatesStep` | chatting-server/src/Session.cpp:183-200 | Every step keeps account of each popped message: written, discarded or in one thread's hand; nothing is discarded while Alive |
| `WritePumpSafety.CallbacksStep` | chatting-server/src/Session.cpp:362-386 | Every step keeps each registered close callback from running twice |
| `WritePumpSafety.InvStep` | chatting-server/src/Session.cpp:123-205 | All of the above together are kept by every step of every thread |
| `WritePumpSafety.InvRun` | chatting-server/src/Session.cpp:123-205 | All of the above hold in every run |
| `WritePumpTheorems.OneWriteAtATime` | chatting-server/src/Session.cpp:123-158 | For any number of senders and completions at most one async_write is outstanding, it is of the current message, and no step overwrites that message meanwhile |
| `WritePumpTheorems.WireFollowsPushOrder` | chatting-server/src/Session.cpp:129-149 | Messages leave the queue in push order and reach the socket at strictly increasing places of it: none repeated, none overtaken |
| `WritePumpTheorems.AliveWireIsPrefix` | chatting-server/src/Session.cpp:183-200 | While the session is Alive the wire is a prefix of the push order and lags the pops by at most the one message in a thread's hand |
| `WritePumpTheorems.DroppedAccountsForGaps` | chatting-server/src/Session.cpp:185-188 | After termination was asked for, the wire lags the pops by exactly the messages discarded |
| `WritePumpTheorems.CloseNeverInterruptsWrite` | chatting-server/src/Session.cpp:362-386 | A deferred close callback runs only in the thread that owns the write flag, with no write outstanding, and none runs twice |
| `WritePumpTheorems.FailedWriteSilencesSession` | chatting-server/src/Session.cpp:167-180 | After a write error nothing is popped, sent or called back any more, in any continuation |
| `WritePumpTheorems.DrainedAtRest` | chatting-server/src/Session.cpp:183-200 | Without a missed wake-up an Alive session at rest has sent everything pushed |
| `WritePumpTheorems.DrainedAtRestIff` | chatting-server/src/Session.cpp:183-200 | Exactly when: an Alive session at rest has sent everything pushed if and only if the queue was empty when the write flag was last lowered |
| `WritePumpTheorems.MissedWakeupStrands` | chatting-server/src/Session.cpp:183-200 | A run in which a push between the failed pop and the reset of the flag leaves a message behind at rest |
| `SessionWriter.Session.CheckDeferredTermination` | chatting-server/src/Session.cpp:362-377 | Answers whether the session is terminating; then a registered callback has run once and is forgotten, otherwise nothing changed |
| `SessionWriter.Session.Drain` | chatting-server/src/Session.cpp:183-200 | The part sendMessage and handle_write share is the undisturbed run of the flag's owner: nothing queued lowers the flag, a live session sends the oldest message, a terminating one discards it, runs its callback once and lowers the flag |
| `SessionWriter.Session.SendMessage` | chatting-server/src/Session.cpp:123-158 | A call is the undisturbed run of a sender thread |
| `SessionWriter.Session.HandleWrite` | chatting-server/src/Session.cpp:167-205 | A completion is the undisturbed run of a handler thread, and takes the oldest queued message in the way stated for Drain; after an error nothing changes and the flag stays up |
| `SessionWriter.Session.MarkAsDeferredTerminated` | chatting-server/src/Session.cpp:383-386 | The session is LogoutPending with exactly this callback registered |
| `SessionWriter.SendOutcome` | chatting-server/src/Session.cpp:123-158 | Behind a write in progress a call only queues; otherwise the oldest message goes to the socket while the session lives, and is discarded with the close callback run instead once it is terminating |
| `SessionWriter.AloneIsARun` | chatting-server/src/Session.cpp:123-205 | An undisturbed call is one of the runs the theorems speak about, in the shared fields and in what it adds to the histories of pushes, pops, writes, discarded messages and callbacks |
| `WritePumpOutcomes.CompletionOutcome` | chatting-server/src/Session.cpp:167-205 | The event of a write completing, its handler left undisturbed: after a success an empty queue lowers the flag; a session not terminating sends the oldest message, flag still up; a terminating one discards it, runs the registered callback, is Terminated and lowers the flag; after an error only the write is gone and the thread keeps the flag |
| `WritePumpOutcomes.SendingOutcome` | chatting-server/src/Session.cpp:123-158 | The event of a thread calling sendMessage: behind a raised flag the message is queued and nothing else happens; otherwise the flag is raised and the oldest message is taken in the same way |
| `WritePumpOutcomes.DeferralOutcome` | chatting-server/src/Session.cpp:383-386 | The event of a thread calling markAsDeferredTerminated: LogoutPending, with this callback, under a number no callback had before, in place of an older one |
| `LoadBalancer.GrpcDataLayer.LeastLoaded` | balance-server/src/GrpcDataLayer.cpp:60-140 | The first server with the least counter read, and only without any counter the first server; nothing when there is no server or a lock cannot be had, an exception when a counter exceeds 2^31 - 1, whichever comes first; the stored loads are the counters read, 2^64 - 1 where there is none, up to that point |
| `LoadBalancer.SpreadStep` | balance-server/src/GrpcDataLayer.cpp:98-135 | Every read of a running scan, dispatch and login keeps each server's load, with what is on its way and with a scan aimed at it, within k of any load the others are above |
| `LoadBalancer.SpreadRun` | balance-server/src/GrpcDataLayer.cpp:98-135 | The same over whole runs |
| `LoadBalancer.LoadsStayWithinK` | balance-server/src/GrpcDataLayer.cpp:60-140 | From zero, without logouts and with at most k users under way, no server ever carries, logged in or on the way, more than k users above any other, although logins fall between the reads of a scan |
| `LoadBalancer.SpreadOfKIsReached` | balance-server/src/GrpcDataLayer.cpp:98-135 | For any number of servers above one and any k a run drives one counter k above all others: the bound is exact |
| `BlockCount.BlocksBounds` | chatting-client/filetransferthread.cpp:28-33 | The exact number of blocks covers the file and one block less does not |
| `BlockCount.NextDouble` | chatting-client/filetransferthread.cpp:31-32 | Between an integer a and a quotient just above it there is always a double closer to the quotient than a is |
| `BlockCount.RoundedQuotientCounts` | chatting-client/filetransferthread.cpp:31-32 | For every size below 2^53 and positive chunk, and any roundings of the two operands and of their quotient to a nearest double, the ceiling is the exact integer ceiling |
| `BlockCount.BlockCountIsExact` | chatting-client/filetransferthread.cpp:28-33 | The same for whatever value the program may take the ceiling of |
| `BlockCount.BlocksAddUp` | chatting-client/filetransferthread.cpp:66-74 | The last block has between 1 and chunk bytes, without unsigned underflow, and the block sizes of any number of blocks sum to the bytes they cover, all of them to the file size |
| `BlockCount.ExactOnlyBelow2To53` | chatting-client/filetransferthread.cpp:28-33 | For 2^53 + 1 bytes in blocks of one byte the computed count may be one short: the bound is tight |
| `FileUploadSafety.SeqNoFacts` | chatting-client/logicexecutor.cpp:31-33 | The sequence number after an acknowledgement is one more until 2^32, where the 32-bit conversion brings it back to 1 |
| `FileUploadSafety.SendNextBlock` | chatting-client/filetransferthread.cpp:66-101 | Having sent i blocks the sender sends block i with its number, bytes, size and end mark, and closes the file instead when there is none left |
| `FileUploadSafety.StoredStep` | resources-server/src/SyncLogic.cpp:302-343 | Storing a block extends what the server holds by that block, or starts it afresh when the block carries number 1 |
| `FileUploadSafety.HandleKeepsFile` | resources-server/src/SyncLogic.cpp:302-365 | What the server's file is after a stored, an unopened and a failed block |
| `FileUploadSafety.ServeStep` | resources-server/src/SyncLogic.cpp:206-365 | Every block handled, whatever the disk does, keeps the server's file equal to the client's bytes since the last truncation and one message under way |
| `FileUploadSafety.HearStep` | chatting-client/filetransferthread.cpp:42-57 | Every answer heard keeps it too |
| `FileUploadSafety.InvBegin` | chatting-client/filetransferthread.cpp:108-145 | The start of a transfer establishes it, for any older file of that name and any size an earlier transfer left accumulated |
| `FileUploadSafety.InvRun` | chatting-client/filetransferthread.cpp:42-145 | It holds in every run |
| `FileUploadSafety.ServerHoldsPrefix` | resources-server/src/SyncLogic.cpp:302-365 | In every state at most one block is unacknowledged, the client's file is open exactly while the transfer is not at rest, and up to 2^32 blocks the server's file is exactly the client's file up to the blocks written |
| `FileUploadSafety.FinishedCopyIsIdentical` | resources-server/src/SyncLogic.cpp:302-365 | A transfer that was never refused ends after exactly ceil(size / chunk) blocks with the client's file closed, and the copy equals the file if and only if there are at most 2^32 blocks |
| `FileUploadSafety.EmptyFileIsNotSent` | chatting-client/filetransferthread.cpp:66-70 | An empty file sends nothing, is closed at once, and the server keeps what it had |
| `FileUploadSafety.EveryStepProgresses` | chatting-client/filetransferthread.cpp:42-57 | Every block handled and answer heard lowers a measure that starts at twice the number of blocks, so the transfer ends |
| `FileUploadSafety.ReportedRight` | chatting-client/filetransferthread.cpp:87-88 | While the acknowledged sizes fit 32 bits the cur_size of a block is the length of the prefix sent |
| `FileUploadSafety.ReportedWrong` | chatting-client/logicexecutor.cpp:31-33 | The first acknowledged size that does not fit 32 bits makes the next cur_size wrong |
| `FileUploadSafety.SizesAreExact` | chatting-client/filetransferthread.cpp:87-88 | Every cur_size of a finished transfer is min(seq * chunk, size) if and only if the sender was fresh and (blocks - 1) * chunk is below 2^32 |
| `FileUploadSafety.AcceptedFileArrives` | chatting-client/filetransferdialog.cpp:128-131 | Every file the dialog accepts, at most four gigabytes, sent by a fresh sender, arrives identical with every size right |
| `FileTransfer.FileTransferThread.constructor` | chatting-client/filetransferthread.h:45-62 | The sender starts with nothing open, sequence number 1 and nothing accumulated |
| `FileTransfer.FileTransferThread.CloseFile` | chatting-client/filetransferthread.cpp:59-63 | The file is closed |
| `FileTransfer.FileTransferThread.CalculateBlockNumber` | chatting-client/filetransferthread.cpp:28-33 | For any quotient the processor may answer, the exact number of blocks below 2^53 bytes |
| `FileTransfer.FileTransferThread.StartFileTransmission` | chatting-client/filetransferthread.cpp:108-145 | The sender's fields after the slot, accumulated size kept, when the file cannot be read, when hashing it fails part of the way, and when the first block is asked for |
| `FileTransfer.FileTransferThread.SendNextBlock` | chatting-client/filetransferthread.cpp:66-101 | The slot is one step of the sender the theorems speak about: past the last block, with the file closed or read to its end it closes the file; a request has the next bytes of the file and the running numbers |
| `FileTransfer.FileTransferThread.OnTransmissionStatus` | chatting-client/filetransferthread.cpp:42-57 | The decoding of an answer and the flow control are one step of that sender: a refusal changes nothing, the end mark closes the file, any other answer sets the number to one more and the size, either read as 0 when it does not fit 32 bits |
| `FileTransfer.ResourcesServer.HandleFileUploading` | resources-server/src/SyncLogic.cpp:302-365 | The handler is one step of the server, on the named file alone: truncated or created, the block appended if it is written, and answered with its own numbers or refused |
| `Framing.ReadBack` | chatting-server/include/buffer/MsgNode.hpp:76-110 | Reading a number back from its network bytes gives it modulo the width |
| `Framing.WriteBack` | chatting-server/include/buffer/MsgNode.hpp:76-110 | Writing back what was read from some bytes gives those bytes |
| `Framing.ReadsDigits` | chatting-server/include/buffer/MsgNode.hpp:76-110 | Network byte order: the number read from some bytes is the sum of s[i] * 256^(length - 1 - i) |
| `Framing.ReadsTwoOrFour` | chatting-server/include/buffer/MsgNode.hpp:279-312 | The two bytes of an id and the two or four of a length, written out, most significant first |
| `Framing.WritesDigits` | chatting-server/include/buffer/MsgNode.hpp:76-110 | Byte i of a number written in a width is its digit of weight 256^(width - 1 - i) |
| `Framing.WritesTwoOrFour` | chatting-server/include/buffer/MsgNode.hpp:355-363 | The same for two and four bytes, written out |
| `Framing.EncodedHeader` | chatting-server/include/buffer/MsgNode.hpp:347-369 | Byte by byte: an encoded frame starts with the id and its own full length, most significant byte first, and ends with the body |
| `Framing.LengthRoundTrips` | chatting-server/include/buffer/MsgNode.hpp:293-312 | The receiver reads back the body length of an encoded frame if and only if the body is at most 65531 bytes, or 4294967289 in file mode |
| `Framing.SplitInvariance` | chatting-server/src/Session.cpp:207-360 | However the bytes are split into arrivals the reader ends in the same state |
| `Framing.ReadsFrame` | chatting-server/src/Session.cpp:207-360 | The encoding of one frame within the limits is delivered as that frame and leaves the reader waiting for a header |
| `Framing.AllFramesRoundTrip` | chatting-server/include/buffer/MsgNode.hpp:347-369 | The concatenated encodings of any list of frames within the limits are read back as exactly that list, nothing left over |
| `Framing.AnySplitRoundTrips` | chatting-server/src/Session.cpp:207-360 | The same for every splitting of the stream |
| `Framing.FrameRoundTripsIff` | resources-server/src/Session.cpp:181-228 | One frame is read back with nothing left over if and only if its id is known and its body is within the server's limit and the length field |
| `Framing.ChatFrameRoundTripsIff` | chatting-server/include/server/Session.hpp:140-140 | For the chat server: if and only if the service id is below 34 and the body at most 2048 bytes |
| `Framing.ByteStep` | chatting-server/src/Session.cpp:207-360 | Each byte read is accounted for and every frame delivered is within the limits |
| `Framing.NothingLostOrInvented` | chatting-server/src/Session.cpp:252-286 | For arbitrary input, every frame delivered respects the limits, and unless the connection is purged the frames delivered and the partial one encode to exactly the bytes read |
| `Framing.DeliveredGrows` | chatting-server/src/Session.cpp:337-341 | What was delivered is never taken back, whatever follows |
| `FrameReader.SendNode.constructor` | chatting-server/include/buffer/MsgNode.hpp:347-369 | The buffer is the encoding of the frame: byte by byte the id and the full length, most significant byte first, then the body |
| `FrameReader.RecvNode.constructor` | chatting-server/include/buffer/MsgNode.hpp:272-277 | A node waits for a header of its mode |
| `FrameReader.RecvNode.UpdatePointerPos` | chatting-server/include/buffer/MsgNode.hpp:212-214 | The received count grows by what arrived |
| `FrameReader.RecvNode.GetId` | chatting-server/include/buffer/MsgNode.hpp:279-288 | No id before the header is complete; then 256 times the first byte plus the second |
| `FrameReader.RecvNode.GetLength` | chatting-server/include/buffer/MsgNode.hpp:293-312 | No length before the header is complete; then the number in bytes 2 and 3, or 2 to 5 in file mode, most significant first, less the header in size_t arithmetic, and the buffer resized to the whole frame with what it held |
| `FrameReader.RecvNode.GetMsgBody` | chatting-server/include/buffer/MsgNode.hpp:314-325 | No body before the frame is complete; then exactly what follows the header |
| `FrameReader.Session.constructor` | chatting-server/src/Session.cpp:21-49 | A session starts waiting for a header |
| `FrameReader.Session.Purge` | chatting-server/src/Session.cpp:110-121 | Reading ends, what was delivered stays |
| `FrameReader.Session.ParseHeader` | chatting-server/src/Session.cpp:242-286 | A length exactly when the id is known and the body within the limit; then the node is ready for that body |
| `FrameReader.Session.HandleHeader` | chatting-server/src/Session.cpp:207-302 | An error or a short header purges; otherwise the handler does what the reader of the theorems does with a header |
| `FrameReader.Session.HandleMsgBody` | chatting-server/src/Session.cpp:304-360 | An error or a short body purges; otherwise the frame is committed to the task queue, which drops it when it is too long, and the next header is awaited |
| `FrameReader.SyncLogic.Commit` | chatting-server/src/SyncLogic.cpp:32-40 | A frame joins the task queue unless that is already longer than its limit |
| `FrameReader.QueueKeepsFirst` | chatting-server/src/SyncLogic.cpp:34-38 | With nobody taking tasks the queue keeps exactly the first frames, one more than its limit |
| `FrameReader.Session.Arrive` | chatting-server/src/Session.cpp:292-296 | A piece for the read under way is that many bytes of the reader |
| `FrameReader.Session.TakePiece` | chatting-server/src/Session.cpp:292-296 | The read under way takes what it wants of the bytes at hand and no more |
| `FrameReader.Session.Receive` | chatting-server/src/Session.cpp:207-360 | For bytes arriving in pieces of any size the session follows the reader byte for byte, and the task queue gets exactly the frames delivered, less those dropped at its limit |
| `UserDirectorySafety.RenamingIsSafeIff` | chatting-server/src/ChatBusinessLogic.cpp:174-175 | Setting a session's uuid keeps every live entry right if and only if the session is live under no other uuid |
| `UserDirectorySafety.GuardRulesOutLive` | chatting-server/src/SyncLogic.cpp:125-142 | A session the double-login guard lets pass is live under no uuid |
| `UserDirectoryFaults.WithoutGuardLiveTwice` | chatting-server/src/ChatBusinessLogic.cpp:137-178 | With the guard left out, for any session and two uuids a run from the empty server ends with the session live under both |
| `UserDirectorySafety.OthersAreHarmless` | chatting-server/src/UserManager.cpp:18-85 | No step of another thread, be it a sweep, a kick, a purge, a close callback or a heartbeat, renames a session or adds a live entry |
| `UserDirectorySafety.LogicKeeps` | chatting-server/src/ChatBusinessLogic.cpp:137-198 | Every step of the logic thread keeps each live entry's session carrying that uuid |
| `UserDirectorySafety.InvStep` | chatting-server/src/ChatBusinessLogic.cpp:116-321 | Every step of every thread keeps it |
| `UserDirectorySafety.InvRun` | chatting-server/src/ChatBusinessLogic.cpp:116-321 | It holds in every run |
| `UserDirectorySafety.NoSessionLiveTwice` | chatting-server/src/UserManager.cpp:68-85 | In every run of logins, repeated logins, logouts, kicks and sweeps in any interleaving, each live session carries its entry's uuid and none is live under two |
| `UserDirectorySafety.GuardKickOutcome` | chatting-server/src/SyncLogic.cpp:125-142 | The guard's kick moves out and marks whoever is live under the session's own uuid, while message and removal of the binding are for the session that asked |
| `UserDirectorySafety.RefusedLogin` | chatting-server/src/ChatBusinessLogic.cpp:159-169 | A login the account check refuses is answered with a failure and changes nothing |
| `UserDirectorySafety.LoginOutcome` | chatting-server/src/ChatBusinessLogic.cpp:137-262 | An accepted login of a known user ends with its session live if and only if nobody was live under the uuid or the previous session could be moved out, which then waits, marked for closing; the calls are exactly: a message to a previous session bound here, then the binding, left without a lock, refused by another server or written, then success and the count |
| `UserDirectorySafety.UnknownUserOutcome` | chatting-server/src/ChatBusinessLogic.cpp:186-198 | An accepted login of a user without data ends with nobody live under the uuid, the session or the previous one that could not be moved out waiting to be closed; the same calls up to the binding are followed by exactly a failure, the message and the removal of the binding, and no count |
| `UserDirectorySafety.CountsExactlySuccesses` | chatting-server/src/ChatBusinessLogic.cpp:252-262 | In every run the counter is incremented exactly as often as a login is answered with success |
| `UserDirectorySafety.CallbackErasesOwnIff` | chatting-server/src/UserManager.cpp:28-31 | A close callback spares every other session's waiting entry if and only if the entry under its uuid, if any, is its own session's |
| `UserDirectoryFaults.StaleCallbackErasesNewEntry` | chatting-server/src/UserManager.cpp:61-66 | A run from the empty server in which the callback of a session takes away the waiting entry of the session that has replaced it |
| `UserDirectorySafety.LogoutOutcome` | chatting-server/src/ChatBusinessLogic.cpp:297-316 | An accepted logout takes whoever is live under the named uuid out of the live map and arranges for closing exactly when that is the session that asked, to which the message goes |
| `UserDirectorySafety.AloneIsARun` | chatting-server/src/ChatBusinessLogic.cpp:116-321 | An undisturbed login or logout is one of the runs the theorems speak about |
| `UserDirectorySafety.TakenUpIsARun` | chatting-server/src/ChatBusinessLogic.cpp:116-136 | The event of a login or logout, seen through undisturbed, is a run that starts with the guard's kick exactly when the session's own uuid is live, and with the account check otherwise |
| `UserDirectorySafety.TellsRun` | chatting-server/src/UserManager.cpp:28-31 | In every run the state of a session says whether its callback is to come and whether it has closed the socket: none is Terminated and open, none LogoutPending without a callback |
| `UserDirectorySafety.CallbackOutcome` | chatting-server/src/UserManager.cpp:28-31 | A callback closes the socket and forgets the waiting entry of its uuid; the session is Terminated without a callback, and nothing else changes |
| `UserManager.Server.GetSession` | chatting-server/src/UserManager.cpp:8-16 | The live session of the uuid, if any |
| `UserManager.Server.MarkAsDeferredTerminated` | chatting-server/src/Session.cpp:383-386 | The session is LogoutPending with a callback that erases the uuid's waiting entry |
| `UserManager.Server.RemoveUsrSession` | chatting-server/src/UserManager.cpp:18-34 | Succeeds exactly when a session waits under the uuid, which is then marked; nothing else changes |
| `UserManager.Server.RemoveUsrSessionOf` | chatting-server/src/UserManager.cpp:36-59 | The same, only for the session id expected |
| `UserManager.Server.CreateUserSession` | chatting-server/src/UserManager.cpp:68-72 | A live entry that is there already stays |
| `UserManager.Server.MoveUserToTerminationZone` | chatting-server/src/UserManager.cpp:74-85 | The live entry becomes the waiting entry, replacing an older one |
| `UserManager.Server.KickSession` | chatting-server/src/SyncLogic.cpp:115-123 | The kick is the undisturbed run of its two steps: message and removal of the binding for the session given, whoever is live under its uuid moved out and marked |
| `UserManager.Server.CheckAndKickExistingSession` | chatting-server/src/SyncLogic.cpp:125-142 | Kicks and answers true exactly when somebody is live under the session's own uuid |
| `UserManager.Server.UpdateRedisCache` | chatting-server/src/SyncLogic.cpp:163-248 | A previous session on this server, exactly, gets the offline message, is moved out and marked; then the binding is left without a lock, refused by another server, or written |
| `UserManager.Server.WriteBinding` | chatting-server/src/SyncLogic.cpp:217-243 | No call without a lock, a failure when another server keeps its session, the new binding in every other case |
| `UserManager.Server.BindSession` | chatting-server/src/ChatBusinessLogic.cpp:174-262 | setUUID, createUserSession, the reply, and the count or the kick are the undisturbed run of those steps |
| `UserManager.Server.HandlingLogin` | chatting-server/src/ChatBusinessLogic.cpp:137-262 | The handler is the undisturbed run of the logic thread from the guard on; for each of its endings, the kick, the refusal, success and the missing data, exactly these calls in this order and this live map |
| `UserManager.Server.HandlingLogout` | chatting-server/src/ChatBusinessLogic.cpp:297-316 | The handler is the undisturbed run of its steps: a refused account check answers and changes nothing; otherwise whoever is live under the uuid is moved out, and marked if it is the session that asked |
| `UserManager.Server.PurgeRemoveConnection` | chatting-server/src/Session.cpp:110-121 | The session's binding is removed, whoever waits under its uuid is marked, and the counter goes down whether the session was logged in or not |
| `UserManager.Server.SendOfflineMessage` | chatting-server/src/Session.cpp:401-415 | The message is sent; of the directory only an idle pump of a session about to close changes anything, by running the callback, which leaves that session closed and Terminated |
| `UserManager.Server.CollectExpired` | chatting-server/src/AsyncServer.cpp:109-124 | The users written down are exactly those live whose last heartbeat is more than the timeout ago, each once; each is sent a message and his binding removed, in that order; the directory is as before when all are Alive |
| `UserManager.Server.TerminateAll` | chatting-server/src/AsyncServer.cpp:127-130 | The directory with exactly these users' sessions moved to the waiting map and marked |
| `UserManager.Server.HeartBeatEvent` | chatting-server/src/AsyncServer.cpp:82-136 | The sweep finds exactly the live users whose last heartbeat is more than the timeout ago, sends each the message and removes his binding, in that order and nothing more, leaves exactly the others live, and, when every live session was Alive, exactly the swept directory |
| `UserManager.SweptMore` | chatting-server/src/UserManager.cpp:18-34 | Moving and marking one more user extends the swept directory by that user |
| `UserManager.SweepOutcome` | chatting-server/src/AsyncServer.cpp:97-130 | After a sweep of Alive sessions an entry is live exactly when its last heartbeat is no more than the timeout ago, every other one waits under its uuid in LogoutPending with a callback, and other waiting entries are as before |
| `UserManager.BeatSparesIff` | chatting-server/src/Session.cpp:160-165 | A heartbeat spares its session a later sweep if and only if no more than the timeout lies between the two, whatever the last beat before, and spares no other |
| `MessageBuffer.InsertKeepsInv` | chatting-client/ChattingMessageBuffer.hpp:69-83 | An insertion, successful or rolled back, keeps each node the target of exactly one entry with no entry dangling |
| `MessageBuffer.InsertOutcome` | chatting-client/ChattingMessageBuffer.hpp:67-137 | Success exactly when the record is local with a non-empty identifier not indexed, or confirmed with a trimmed id that is not empty and not indexed; a failed insertion leaves list, indexes and last fetched id exactly as before, a successful one appends the record, adds this one entry and moves nothing |
| `MessageBuffer.TrimmedOutcome` | chatting-client/ChattingMessageBuffer.hpp:119-125 | Trimming takes away white space at both ends and nothing else, and leaves none there |
| `MessageBuffer.EveryRunKeepsIndexes` | chatting-client/ChattingMessageBuffer.hpp:22-137 | In every run each node has exactly one entry, no entry dangles, the list is as long as both indexes together, and it holds the records accepted since the last clear in order |
| `MessageBuffer.StepKeepsKeysIff` | chatting-client/ChattingMessageBuffer.hpp:22-90 | One insertion, confirmation or clearing keeps every record filed under its own key if and only if it is no confirmation that writes to a record |
| `MessageBuffer.RunKeepsKeysIff` | chatting-client/ChattingMessageBuffer.hpp:22-90 | Over runs the records are filed under their own keys in every state if and only if no confirmation writes to one: the inverted guard renames a record without moving its entry |
| `MessageStore.ChattingTextMsg.constructor` | chatting-client/ChattingThreadDef.hpp:156-159 | A new record is local, under the identifier given |
| `MessageStore.ChattingTextMsg.SetMsgId` | chatting-client/ChattingThreadDef.hpp:169-173 | The record carries exactly the id given, is no longer local, and keeps its own identifier |
| `MessageStore.ChattingTextMsg.GetMsgId` | chatting-client/ChattingThreadDef.hpp:161-166 | The record's id exactly when the record is not local |
| `MessageStore.MessageBuffer.InsertLocal` | chatting-client/ChattingMessageBuffer.hpp:93-110 | Succeeds exactly for a non-empty identifier not yet indexed |
| `MessageStore.MessageBuffer.InsertVerified` | chatting-client/ChattingMessageBuffer.hpp:112-137 | Succeeds exactly for a confirmed record whose trimmed id is not empty and not indexed; the last fetched id is the untrimmed one |
| `MessageStore.MessageBuffer.Append` | chatting-client/ChattingMessageBuffer.hpp:69-83 | Append, index and roll back is the insertion the theorems speak about |
| `MessageStore.MessageBuffer.InsertMessage` | chatting-client/ChattingMessageBuffer.hpp:67-67 | The same, keeping the buffer valid |
| `MessageStore.MessageBuffer.UpdateVerificationStatus` | chatting-client/ChattingMessageBuffer.hpp:22-60 | Never succeeds and never changes the buffer; writes the id into one shared record exactly when the message is known locally and the id is already indexed |
| `MessageStore.MessageBuffer.DumpAllChatData` | chatting-client/ChattingMessageBuffer.hpp:62-65 | All records, in list order |
| `MessageStore.MessageBuffer.Clear` | chatting-client/ChattingMessageBuffer.hpp:85-90 | An empty, valid buffer without a last fetched id |
| `ConnectionPool.OwnerStep` | balance-server/include/service/ConnectionPool.hpp:44-64 | Every step keeps each connection with at most one guard, or in the queue once |
| `ConnectionPool.MutexStep` | balance-server/include/service/ConnectionPool.hpp:45-53 | Every step keeps at most one guard inside acquire, and a connection there for it to take |
| `ConnectionPool.LostStep` | balance-server/include/service/ConnectionPool.hpp:33-42 | Every step keeps invalidated and destroyed connections out of queue and guards, and nothing is destroyed before shutdown |
| `ConnectionPool.StaysSomewhere` | balance-server/include/service/ConnectionPool.hpp:33-64 | No step loses a connection |
| `ConnectionPool.CameFromSomewhere` | balance-server/include/service/ConnectionPool.hpp:33-64 | No step makes a connection appear |
| `ConnectionPool.InvStep` | balance-server/include/service/ConnectionPool.hpp:33-129 | All of these together are kept by every step |
| `ConnectionPool.InvRun` | balance-server/include/service/ConnectionPool.hpp:33-129 | All of these hold in every run |
| `ConnectionPool.NoConnectionSharedEver` | balance-server/include/service/ConnectionPool.hpp:89-129 | For any interleaving of acquire, release, invalidate and shutdown no connection is owned by two guards, or by a guard and the queue |
| `ConnectionPool.PopFindsConnection` | balance-server/include/service/ConnectionPool.hpp:44-55 | acquire never takes the front of an empty queue, whatever shutdown does between the wait and the take |
| `ConnectionPool.ConnectionsAreConserved` | balance-server/include/service/ConnectionPool.hpp:33-64 | Until shutdown queued plus held plus invalidated connections are as many as were created; afterwards the destroyed ones make up the difference |
| `ConnectionPool.DrainCloses` | balance-server/include/service/ConnectionPool.hpp:33-42 | Once shutdown has emptied the queue under the mutex no guard is past the flag test of acquire |
| `ConnectionPool.NothingAcquiredAfterDrain` | balance-server/include/service/ConnectionPool.hpp:33-55 | From then on no guard gets a connection it did not have, in any continuation |
| `ConnectionPool.LatePushAfterDrain` | balance-server/include/service/ConnectionPool.hpp:57-64 | A release that read the flag before can still push after the drain: the queue need not stay empty |
| `PoolGuards.ConnectionPool.Shutdown` | balance-server/include/service/ConnectionPool.hpp:33-42 | Stopped and empty |
| `PoolGuards.ConnectionPool.Wait` | balance-server/include/service/ConnectionPool.hpp:45-46 | With other threads at work between two looks, the wait ends at the first look that finds a connection or the stop flag, if there is one |
| `PoolGuards.ConnectionPool.Acquire` | balance-server/include/service/ConnectionPool.hpp:44-55 | At that look nothing when stopped, otherwise the front connection, the rest staying in order; without such a look it does not return |
| `PoolGuards.ConnectionPool.Release` | balance-server/include/service/ConnectionPool.hpp:57-64 | The connection joins the end of the queue, unless stopped |
| `PoolGuards.ConnectionRAII.constructor` | balance-server/include/service/ConnectionPool.hpp:89-119 | If the wait ends, the guard is active exactly when the pool is not stopped, and then has the front connection, the rest staying in order; from that look on, construction is the undisturbed run of acquire |
| `PoolGuards.ConnectionRAII.Invalidate` | balance-server/include/service/ConnectionPool.hpp:106-106 | The guard keeps its pointer but will not give it back |
| `PoolGuards.ConnectionRAII.Release` | balance-server/include/service/ConnectionPool.hpp:121-129 | Destruction is the undisturbed run of release: only an active guard gives its connection back |
| `PoolGuards.AcquireAlone` | balance-server/include/service/ConnectionPool.hpp:44-55 | What the three steps of an undisturbed acquire come to |
| `PoolGuards.ConstructAlone` | balance-server/include/service/ConnectionPool.hpp:89-119 | From the constructor on: an undisturbed guard has the front connection, or is inactive once the pool is stopped |
| `PoolGuards.ShutdownAlone` | balance-server/include/service/ConnectionPool.hpp:33-42 | The flag is up, the queue is empty, and exactly its connections are destroyed |
| `PoolGuards.InvalidateAlone` | balance-server/include/service/ConnectionPool.hpp:106-106 | An invalidated guard's connection is written off when the guard goes |
| `PoolGuards.ReleaseAlone` | balance-server/include/service/ConnectionPool.hpp:57-64 | Destroying a guard: its connection goes to the end of the queue, or is destroyed once the pool is stopped; an invalidated or inactive guard leaves everything alone |
| `ImageCropper.CornerDistances` | chatting-client/imagecropperqlabel.cpp:276-312 | A position classified as a corner is at least five pixels from both midlines, so the distances a drag is decided on are positive, except that at the top right the horizontal one is within four pixels of zero |
| `ImageCropper.TopRightBranchUnreachable` | chatting-client/imagecropperqlabel.cpp:449-452 | The top right branch that writes the horizontal position into the bottom side is never taken |
| `ImageCropper.FreeStep` | chatting-client/imagecropperqlabel.cpp:314-482 | One drag of a rectangle or ellipse keeps the crop rectangle valid and inside the image |
| `ImageCropper.FreeShapesStayInside` | chatting-client/imagecropperqlabel.cpp:314-482 | Over every drag sequence a rectangle or ellipse stays valid and inside the image |
| `ImageCropper.EqualStep` | chatting-client/imagecropperqlabel.cpp:341-452 | One drag of a square or circle keeps the crop rectangle valid and square |
| `ImageCropper.SquareStaysSquare` | chatting-client/imagecropperqlabel.cpp:341-452 | Over every drag sequence a square or circle stays valid and square |
| `ImageCropper.SquareStaysInsideIff` | chatting-client/imagecropperqlabel.cpp:410-418 | A square inside the image stays inside after a step if and only if the step is not a top left drag, further left than up, whose new top lies above the image |
| `ImageCropper.SquareRunStaysInsideIff` | chatting-client/imagecropperqlabel.cpp:410-418 | Over whole drags a square is inside after every step if and only if no step is such a drag |
| `ImageCropper.SquareCanEscape` | chatting-client/imagecropperqlabel.cpp:412-414 | A concrete drag that carries a square over the top of the image |
| `ImageCropper.HandlesAreExact` | chatting-client/imagecropperqlabel.cpp:276-312 | For a rectangle of at least eighteen pixels each way a corner takes exactly the positions at most four pixels from it, and every position more than four pixels off each side is the inside |
| `ImageCropper.InsideDragMoves` | chatting-client/imagecropperqlabel.cpp:458-481 | Dragging the inside shifts all four sides by what the pointer moved, a direction in which the side in front would leave the image staying as it is |
| `ImageCropper.FreeCornerMoves` | chatting-client/imagecropperqlabel.cpp:320-457 | Dragging a corner of a rectangle or ellipse brings each of its two sides to the pointer if at least sixteen pixels remain to the opposite side; at the top right the right side only moves inwards |
| `ImageCropper.EqualCornerMoves` | chatting-client/imagecropperqlabel.cpp:341-452 | Dragging a corner of a square or circle makes it the square over the longer distance from the pointer to the opposite corner, which stays, under exactly the stated tests against the image |
| `ImageCropper.NothingElseMoves` | chatting-client/imagecropperqlabel.cpp:209-245 | No other position, and no position without the button or off the image, moves anything |
| `CropperLabel.ImageCropperQLabel.MousePressEvent` | chatting-client/imagecropperqlabel.cpp:209-212 | The handler is a press of the model |
| `CropperLabel.ImageCropperQLabel.MouseReleaseEvent` | chatting-client/imagecropperqlabel.cpp:240-245 | The handler is a release of the model |
| `CropperLabel.ImageCropperQLabel.MouseMoveEvent` | chatting-client/imagecropperqlabel.cpp:214-238 | The handler is a move of the model: without a button, or outside the image, nothing moves |
| `CropperLabel.ImageCropperQLabel.MoveSelectionFrame` | chatting-client/imagecropperqlabel.cpp:314-482 | The in-place update of the four sides is the frame the theorems speak about |
| `CropperLabel.ImageCropperQLabel.DragRightBottom` | chatting-client/imagecropperqlabel.cpp:320-354 | The bottom right case, side by side in place |
| `CropperLabel.ImageCropperQLabel.DragLeftBottom` | chatting-client/imagecropperqlabel.cpp:355-389 | The bottom left case |
| `CropperLabel.ImageCropperQLabel.DragLeftTop` | chatting-client/imagecropperqlabel.cpp:390-422 | The top left case |
| `CropperLabel.ImageCropperQLabel.DragRightTop` | chatting-client/imagecropperqlabel.cpp:423-457 | The top right case |
| `CropperLabel.ImageCropperQLabel.MoveInside` | chatting-client/imagecropperqlabel.cpp:458-481 | Moving the whole frame, each offset dropped that would carry a side over the image |

## Left out

- WritePumpTheorems.DrainedAtRest: is the sufficient half in terms of the threads alone; WritePumpTheorems.DrainedAtRestIff is the exact condition.
- BindingSafety.FreeLockMeansConsistent: is stated for runs in which every section ends before its lease and no binding write fails, because it is false otherwise: ClusterFaults.LapsedCleanupTearsBinding is the run for the lease, ClusterFaults.EveryTearingFaultTears has one for each write.
- CounterSafety.CounterIsAtomic: does not model the wrap-around of a 64-bit counter, which takes 2^64 logins, and has the same premise on leases and one on the commands of a counter: ClusterFaults.LapsedIncreaseLosesUpdate and ClusterFaults.EveryCounterFaultLoses are the runs.
- LoadBalancer.LoadsStayWithinK: scans are made one at a time; two scans at once would share the per-server load fields without a lock. The interleaved form has no exception for a counter beyond an int.
- FileUploadSafety.FinishedCopyIsIdentical: is for one uploader per file name, and supposes the blocks were counted right, which BlockCount.BlockCountIsExact proves for every file below 2^53 bytes.
- UserManager.Server.HeartBeatEvent: the sweep is the only thread while it runs; the interleaved form is in UserDirectorySafety, without the timeouts.
- UserManager.Server.SendOfflineMessage: the message is recorded as a call; its way through the pump is in WritePump. Sessions are entries of a table keyed by connection, not heap objects of their own, so sharing of a session between the maps is by key.
- UserManager.Server.HandlingLogin: messages, removals and changes of bindings and counts are recorded as calls in order; what they do in Redis is in RedisClient, what the replies say is left out. Messages that cannot be parsed are not modelled.
- FrameReader.Session.Purge: only the end of reading; what else purgeRemoveConnection does is UserManager.Server.PurgeRemoveConnection.
- FrameReader.Session.HandleMsgBody: no other thread takes tasks from the queue while it runs.
- FrameReader.Session.Receive: the composed read is part of the networking library and is modelled as collecting exactly the bytes asked for.
- PoolGuards.ConnectionRAII.constructor: is about a wait that ends; one that never ends does not return.
- MessageBuffer.PromotedKeepsInv: speaks of a corrected promotion that the code does not have, and has no row for that reason.
- MessageBuffer.InsertOutcome: identifiers are trimmed by the white space of Latin-1, not of all of Unicode.
- ImageCropper.SquareStaysInsideIff: integer overflow of pixel coordinates is not modelled.
- One live session per user across the cluster: the code does not provide it. A remote kick looks for the session in the waiting map without moving it there, and a login goes on after a failed kick.
- The connection counter as the number of logged-in sessions: every purge decrements it, logged in or not.
- A Redis command that takes effect although its reply is lost.
- The unlocked writes of the resources server to the same keys, and its counters without a lock.
- The reassembly of frames in the client's readyRead, which drops partly received bodies.
- The checksum of an uploaded file; the server never looks at it.
- Parse errors of JSON messages, friend and thread requests, SQL paging, the gateway, Qt widgets, image scaling.
- The health-check loops of the pools.
- The sharded request dispatchers of the resources server, whose call is commented out.
