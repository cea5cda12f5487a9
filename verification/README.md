# CppChat server protocols in Dafny

A model of the stateful protocols on the server side of CppChat, with proofs of what they promise over
whole runs. `dafny verify dfyconfig.toml` checks everything.

Each protocol appears in up to three layers, in the file named after it:

* a state (a datatype) with one function or relation per atomic step: a Lua script, a mutex section, a strand
  callback, a locked file request or a database transaction;
* theorems about all runs of those steps, in any order and interleaving (`Runs.dfy` holds the shared induction);
* a class with the mutable fields of the source, whose methods are written step by step as the source is and are
  proved equal to the step functions.

| file | what it covers |
|---|---|
| `VoiceCall.dfy`, `VoiceCallRuns.dfy` | the two-party call state machine in Redis: pairing, phases, leases, sequence numbers, token buckets |
| `Credentials.dfy` | pending tokens, device slots, register, refresh and release scripts |
| `LoginRace.dfy` | one login racing a close of its connection, and the local session index |
| `Connection.dfy` | the connection object: bounded send queue, single write, final notice, drain deadline, callbacks |
| `Executor.dfy` | sharded FIFO lanes, shared limit, admission cutoff, draining or discarding stop |
| `LoginSnapshot.dfy` | the greedy frame packer of the login reply: lossless and optimal |
| `ResourceStore.dfy` | resumable upload with crash recovery, and download |
| `Transactions.dfy`, `Contacts.dfy` | commit/rollback under failures with retry; applications, friendships, private chats |
| `Groups.dfy` | group creation, membership, ownership, disbanding |
| `Messages.dfy`, `History.dfy` | idempotent message batches; keyset paging into bounded replies |
| `Conversations.dfy` | contacts, groups and messages in one database with shared counters |
| `Limiter.dfy` | the gateway's all-or-nothing multi-key fixed-window counter script |

Assumptions:

* Every Lua script, mutex section and strand callback is one atomic step; SQL transactions are serializable.
* Redis time does not go backwards, and keys set in one script with the same TTL expire together. TTL in seconds
  rounds to the nearest, as Redis does. A Redis evaluation reported as failed had no effect.
* Session ids and tokens are UUIDs and never repeat.
* Lua and JSON numbers are exact reals; counters and ids are unbounded.
* A call record always carries both device names; records written before that field existed are not modelled.
* Printed JSON sizes are a parameter. Packing frames needs a size that grows with the frame. Packing history needs
  one that changes by at most the 16 reserved bytes with the flag and the error code. A client that catches up
  also needs each message to fit in a reply of its own, and the empty reply, which the server does not measure, to
  fit at the client's first cursor and at each message id. An additive size with digits, flag and item weights is
  given for both and proved to have these properties, for history with 32-bit ids and cursors.
* The account's login lock does not run out while its login is under way.
* SHA-256 and the PCM wave check are uninterpreted functions of the file contents; the chunk encoding is taken
  as already decoded, with the empty string for malformed data. Writing metadata is atomic.
* Closing a MySQL connection always ends its open transaction without effect; switching autocommit on commits it.
* Unique ids of messages, and the stored creation request of a group, are compared as exact values.

Five findings about the code:

* StatusServer's login check accepts one kind of token that the login then refuses: a token active only on the
  account's other device (`Credentials.StatusVersusRegister`, reached in `Credentials.StatusKnowsTooMuch`).
* An upload may be declared with an upper-case digest, but digests are compared in lower case, so such an upload is
  accepted and can never finish (`ResourceStore.SpellingDecides`, `ResourceStore.OtherSpellingNeverFinishes`).
* The total-bytes check of the frame packer can never fire: 256 frames of 16 KiB are exactly the 4 MiB allowed.
* The wave check of a resumed upload can never fail (`ResourceStore.InitWaveCheckNeverFires`).
* The comment on the reserved bytes of a history reply speaks of the flag going from true to false; for a reply
  with messages the code only ever raises it, and the shorter word never lengthens the reply.

## Model

| member | source | states |
|---|---|---|
| `VoiceCall.CallKeys.VoiceTransition` | ChatServerShared/RedisMgr.cpp:501-585 | the step-by-step script computes exactly the specified new Redis content and reply code, on every request and state |
| `VoiceCall.CallKeys.Progress` | ChatServerShared/RedisMgr.cpp:542-569 | accept, timeout, media, ping and camera on a checked call give the specified record, lease and reply, each changing the fields stated by WhatARequestChanges |
| `VoiceCallRuns.EffectOf` | ChatServerShared/RedisMgr.cpp:515-569 | every request does one of four things: creates a paired ringing call, removes a pair (by a permitted hang-up with success, or because the other party was silent for over 30 s, with an error), renews one record on both keys, or changes nothing |
| `VoiceCallRuns.WhatARequestChanges` | ChatServerShared/RedisMgr.cpp:543-569 | field by field what a successful accept, ping, frame or camera switch changes: the sign of life it records and for whom, the camera flag, the sequence number of its own kind; the lease of both keys becomes 45 s, and no other field, record, slot or lock moves |
| `VoiceCallRuns.LifeIsSeen` | ChatServerShared/RedisMgr.cpp:545-562 | after an accept, ping or frame the stored time of last sight of its party is the time of that step |
| `VoiceCallRuns.RequestSucceedsExactly` | ChatServerShared/RedisMgr.cpp:501-569 | in every run a request succeeds exactly under the stated conditions on sessions, devices, parties, phase, media, sequence number, tokens and the 30 s |
| `VoiceCallRuns.InvitationRings` | ChatServerShared/RedisMgr.cpp:519-527 | an invitation succeeds exactly between two logged-in, idle accounts whose caller invited nobody for 3 s; the record it stores under both keys for 40 s, party by party; a refused one changes nothing |
| `VoiceCallRuns.RefusalsExplained` | ChatServerShared/RedisMgr.cpp:515-569 | which error answers which failing condition, for every refused request |
| `VoiceCallRuns.BusyAccountsPairOff` | ChatServerShared/RedisMgr.cpp:519-569 | in every reachable state a call record sits under exactly its two distinct parties with identical content and expiry |
| `VoiceCallRuns.CallOnlyMovesForward` | ChatServerShared/RedisMgr.cpp:543-569 | while a call lives its identity is fixed, it never returns from active to ringing, and no sequence number falls |
| `VoiceCallRuns.LiveCallWasInvited` | ChatServerShared/RedisMgr.cpp:520-527 | every live call stems from a successful invitation of its caller, ringing at first, and has lived without a gap since |
| `VoiceCallRuns.ActiveCallWasAccepted` | ChatServerShared/RedisMgr.cpp:543-546 | an active call was accepted by its callee while ringing |
| `VoiceCallRuns.AcceptedFrame` | ChatServerShared/RedisMgr.cpp:546-560 | media is taken only on an active call and only with a larger sequence number, which becomes the last one |
| `VoiceCallRuns.FramesNeverReplayed` | ChatServerShared/RedisMgr.cpp:552-560 | over a whole call the frames of one side and kind have strictly increasing sequence numbers |
| `VoiceCallRuns.SeveredCallIsFrozen` | ChatServerShared/RedisMgr.cpp:515-536 | once a login session bound to a call is replaced or released, no action by anyone changes the record until its TTL removes it |
| `VoiceCallRuns.SilentPartyLosesCall` | ChatServerShared/RedisMgr.cpp:543-569 | a party without successful actions loses the call within 30000 + 45000 ms, however often the other side pings |
| `VoiceCallRuns.LostCallHasACause` | ChatServerShared/RedisMgr.cpp:537-549 | a call that is gone was ended by a party, rejected by the callee or cancelled by the caller while ringing, dropped because a party was silent for over 30 s, or expired |
| `VoiceCallRuns.AttendedCallSurvives` | ChatServerShared/RedisMgr.cpp:543-569 | from its accept on, a call whose two parties each have a successful accept, ping or frame in every 30 s is never lost until one of them hangs up; camera switches renew the lease without counting as a sign of life |
| `VoiceCallRuns.UnansweredCallEnds` | ChatServerShared/RedisMgr.cpp:520-527 | a ringing record is never renewed: an unanswered call is gone 40 s after its invitation |
| `VoiceCallRuns.TokenBalance` | ChatServerShared/RedisMgr.cpp:555-559 | accepted frames plus tokens left never exceed tokens at the start plus the refill of the window |
| `VoiceCallRuns.MediaRateBounded` | ChatServerShared/RedisMgr.cpp:549-560 | any window of D ms passes at most 10 + 0.06 D audio frames or 2 + 0.008 D pictures per side |
| `VoiceCallRuns.EmptyMeansUsedUp` | ChatServerShared/RedisMgr.cpp:555-559 | a side of a call has less than one token exactly if some window of the call ending now has used up its burst and refill, but for less than one frame: nobody is throttled otherwise |
| `VoiceCallRuns.RefusalCostsNothing` | ChatServerShared/RedisMgr.cpp:515-569 | a refused request of any kind changes nothing at all, unless it is a request on an active call whose other party was silent for over 30 s, and then exactly that call is dropped |
| `VoiceCallRuns.InvitationsAreSpaced` | ChatServerShared/RedisMgr.cpp:522-526 | two successful invitations of one account are at least 3000 ms apart |
| `VoiceCallRuns.EitherSideCanHangUp` | ChatServerShared/RedisMgr.cpp:537-541 | on an intact call either party's end succeeds and frees both accounts |
| `VoiceCallRuns.CallCanBeEstablished` | ChatServerShared/RedisMgr.cpp:519-545 | two idle, logged-in accounts get through: the invitation rings both, an answer within 40 s makes one identical active record |
| `VoiceCallRuns.PacedFramesAreNeverThrottled` | ChatServerShared/RedisMgr.cpp:555-559 | a sender leaving 17 ms (audio) or 125 ms (pictures) between frames is never rate limited |
| `Credentials.SessionKeys.RegisterSession` | ChatServerShared/RedisMgr.cpp:395-425 | the register script: accepted exactly for a usable pending, legacy or own active token; publishes three keys and spends the pending ones |
| `Credentials.SessionKeys.RefreshSession` | ChatServerShared/RedisMgr.cpp:427-445 | the device loop gives token, session and route of the one slot the session holds 3600 s from now, values unchanged and every other slot untouched, and reports whether there was one; if not, nothing changes |
| `Credentials.SessionKeys.ReleaseSession` | ChatServerShared/RedisMgr.cpp:447-461 | afterwards the session holds no slot of the account; only its own slot is removed, with all three keys |
| `Credentials.SessionKeys.IssueToken` | StatusServer/StatusServiceImpl.cpp:86-92 | a new token is stored under its own pending key for 300 s; with a fresh UUID that is the issue step of the runs |
| `Credentials.SlotKeysLiveTogether` | ChatServerShared/RedisMgr.cpp:412-461 | in every reachable state a slot's token, session and route keys are all alive with one expiry, or all gone |
| `Credentials.RegistrationPublishes` | ChatServerShared/RedisMgr.cpp:395-425 | when a registration is accepted, in terms of the stored keys; then the three keys of the slot have the given values for 3600 s, exactly the spent pending keys are gone, and all else is as before |
| `Credentials.RefreshExtends` | ChatServerShared/RedisMgr.cpp:427-445 | a refresh of a slot the session holds keeps the three values and makes session, token and route live for 3600 s more; any other refresh changes nothing |
| `Credentials.ReleaseRemoves` | ChatServerShared/RedisMgr.cpp:447-461 | a release removes exactly the three keys of a slot the session holds |
| `Credentials.LoginLasts` | ChatServerShared/RedisMgr.cpp:395-461 | a registered session holds its slot, with its token and route, for 3600 s, unless it is released or another registration takes the slot |
| `Credentials.RefreshLasts` | ChatServerShared/RedisMgr.cpp:427-461 | the same for 3600 s after each refresh of a slot the session holds |
| `Credentials.IssuedTokenWorks` | StatusServer/StatusServiceImpl.cpp:86-92 | an issued token lies under its key for 300 s, until it is used or replaced there, and, but for the last half second, registers either device of the account |
| `Credentials.TokenInOnePlace` | ChatServerShared/RedisMgr.cpp:406-416 | a token is at any time in at most one pending key or device slot |
| `Credentials.ConsumedTokenIsBound` | ChatServerShared/RedisMgr.cpp:406-416 | a token consumed on one device can never again register another slot, in any continuation |
| `Credentials.SpentForever` | ChatServerShared/RedisMgr.cpp:406-461 | an expired, replaced or released token never works again |
| `Credentials.SessionOwnsOneSlot` | ChatServerShared/RedisMgr.cpp:427-445 | a session id never holds two slots, which is what makes the early return of the refresh loop right |
| `Credentials.StatusVersusRegister` | StatusServer/StatusServiceImpl.cpp:101-149 | the status check covers every registrable token, and exactly one more case: active on the other device only |
| `Credentials.StatusKnowsTooMuch` | StatusServer/StatusServiceImpl.cpp:134-147 | that case is reached by issuing a token, registering it on Android and asking for the desktop |
| `LoginRace.ClosedLoginLeavesNoTrace` | ChatServerShared/SessionService.cpp:144-157 | in every interleaving of a login with a close of its connection, once both are done no index entry names the session, and no Redis slot if nothing failed |
| `LoginRace.Reachable` | ChatServerShared/CSession.cpp:72-81 | the invariant behind it: where the session can still be named, by the progress of login and cleanup |
| `LoginRace.NewerLoginUntouched` | ChatServerShared/SessionService.cpp:71-157 | once another session of the account registers after this one, nothing the login or the cleanup of this connection does changes a Redis slot or an index entry of any other session, the bind included |
| `LoginRace.BindReplacesOnlyOlder` | ChatServerShared/SessionService.cpp:71-150 | between taking the account lock and binding no other session of the account is bound or registered, so a bind replaces only an older entry |
| `LoginRace.UndisturbedLogin` | ChatServerShared/SessionService.cpp:14-160 | from any fresh connection with a usable token there is a run that ends bound, registered and indexed with the lock free |
| `LoginRace.PassesExactly` | ChatServerShared/SessionService.cpp:14-157 | each decision of the login is passed exactly if its guard holds: check, recheck, kick, registration, bind |
| `LoginRace.BoundLoginWasEntitled` | ChatServerShared/SessionService.cpp:14-157 | a bound connection passed, in this order, the check while open, the recheck and the registration with a usable credential, the kick between them, and the bind before any close, retirement or cleanup |
| `LoginRace.LockHeldExactly` | ChatServerShared/SessionService.cpp:71-80 | on every path, successful or not, the login holds the account's lock exactly while it works under it |
| `LoginRace.LockIsExclusive` | ChatServerShared/SessionService.cpp:71-80 | a held lock is freed only by its holder and passes to nobody directly |
| `LoginRace.UserMgr.SetUserSession` | ChatServerShared/UserMgr.cpp:30-34 | the nested map gains exactly one entry |
| `LoginRace.UserMgr.RmvUserSession` | ChatServerShared/UserMgr.cpp:38-53 | one entry of the account naming the session is erased, whichever the iteration meets first, and an account left empty with it |
| `LoginRace.UserMgr.GetSession` | ChatServerShared/UserMgr.cpp:6-16 | finds the entry of account and device, or nothing |
| `Connection.Reachable` | ChatServerShared/CSession.cpp:118-250 | the connection invariant holds in every interleaving of senders, closers, write completions and timer |
| `Connection.SendsInOrder` | ChatServerShared/CSession.cpp:118-175 | written messages are in order a prefix of the admitted ones, one write at a time, queue bounded, nothing lost while open, and an open connection with a queue never stalls |
| `Connection.CompletionFindsMessage` | ChatServerShared/CSession.cpp:366-388 | a write completion on an open connection always finds its message at the front |
| `Connection.NothingAfterSeal` | ChatServerShared/CSession.cpp:123-136 | after a final notice, a drain or a close nothing is ever admitted |
| `Connection.SendAdmittedExactly` | ChatServerShared/CSession.cpp:118-153 | on an unsealed connection a message is admitted exactly if fewer than 1000, or 10 for realtime data, are queued; otherwise the state is as before |
| `Connection.CloseTakesEffect` | ChatServerShared/CSession.cpp:177-188 | a close marks the connection closed and leaves the closing callback posted until it has run |
| `Connection.ClosesExactly` | ChatServerShared/CSession.cpp:177-250 | an open connection becomes closed exactly by a close, a drained queue after the close marker, a failed write or the deadline, and when its socket is closed |
| `Connection.RetiresExactly` | ChatServerShared/CSession.cpp:130-136 | a connection retires exactly with a final notice it admits or a drain that finds it open, and for good |
| `Connection.FinalNoticeIsLast` | ChatServerShared/CSession.cpp:130-136 | a final notice is the last message admitted and the last one written |
| `Connection.CallbackConserved` | ChatServerShared/CSession.cpp:177-250 | every callback handed in is waiting, registered or has run: none lost, none doubled |
| `Connection.CallbacksRunOnceAfterClose` | ChatServerShared/CSession.cpp:177-250 | callbacks run only after the socket is closed, never more often than handed in, and exactly as often once nothing is pending |
| `Connection.CleanupRunsOnce` | ChatServerShared/CSession.cpp:418-431 | cleanup has run exactly once if the socket was closed, and not at all otherwise |
| `Connection.DeadlineNeverLater` | ChatServerShared/CSession.cpp:207-224 | an armed drain deadline never moves later |
| `Connection.DeadlineIsArmed` | ChatServerShared/CSession.cpp:207-224 | a final notice grants 3 s and a drain its seconds: the deadline is armed at the end of the grant or stays at an earlier one, and nothing else moves it |
| `Connection.DrainDeliversEverything` | ChatServerShared/CSession.cpp:226-250 | a connection only drained or kicked has written everything it admitted by the time it closes |
| `Connection.Session.QueueSend` | ChatServerShared/CSession.cpp:118-153 | admitted exactly if the connection is not sealed and fewer than 1000, or 10 for realtime data, are queued; realtime data too many changes nothing; a thousandth-and-first message marks the connection closed with its closing callback posted |
| `Connection.Session.Close` | ChatServerShared/CSession.cpp:177-188 | marks closed and posts the closing callback unless that is pointless |
| `Connection.Session.CloseOnStrand` | ChatServerShared/CSession.cpp:177-188 | a close from the strand itself runs at once |
| `Connection.Session.CloseSocket` | ChatServerShared/CSession.cpp:190-205 | closes, empties the queue, cleans up once and runs the callbacks |
| `Connection.Session.DrainClosure` | ChatServerShared/CSession.cpp:226-250 | registers the callback and closes at once or after the queue |
| `Connection.Session.ArmDrainDeadline` | ChatServerShared/CSession.cpp:207-224 | arms the deadline unless an earlier one is armed |
| `Connection.Session.HandleWrite` | ChatServerShared/CSession.cpp:366-388 | pops the written message and goes on, closes, or does nothing once closed |
| `Connection.Session.RunOne` | ChatServerShared/CSession.cpp:144-151 | the strand runs any one posted callback |
| `Executor.WorkIsConserved` | ChatServerShared/BusinessExecutor.cpp:25-127 | accepted = queued + active + completed + discarded; queued is the lane total and at most the limit; active is at most the lane count |
| `Executor.SameKeyRunsInOrder` | ChatServerShared/BusinessExecutor.cpp:32-33 | tasks of one key start in submission order and never overlap |
| `Executor.EveryTaskAccountedFor` | ChatServerShared/BusinessExecutor.cpp:63-127 | when all workers have returned every accepted task ran to its end or was discarded, once per acceptance |
| `Executor.DrainedStopRanEverything` | ChatServerShared/BusinessExecutor.cpp:63-127 | after a draining stop every accepted task ran exactly once |
| `Executor.StopDiscardsWaiting` | ChatServerShared/BusinessExecutor.cpp:63-79 | after a stop that does not drain no task ever waits or starts, exactly the tasks that waited are discarded, and only tasks that had started ever end |
| `Executor.DrainKeepsWaiting` | ChatServerShared/BusinessExecutor.cpp:46-79 | a draining stop ends admission and touches no task and no counter |
| `Executor.AcceptsUntilStopped` | ChatServerShared/BusinessExecutor.cpp:25-69 | the executor accepts exactly until its first stop of either kind |
| `Executor.StopTerminates` | ChatServerShared/BusinessExecutor.cpp:63-101 | from the cutoff on the workers take a bounded number of steps, whatever else happens, and are all done exactly when none is left |
| `Executor.WorkerCanMove` | ChatServerShared/BusinessExecutor.cpp:91-101 | after the cutoff some worker can always move until all have returned |
| `Executor.SubmissionsAreTallied` | ChatServerShared/BusinessExecutor.cpp:25-38 | every submission is accepted or counted as rejected; failed counts the tasks that threw |
| `Executor.RejectedOnlyWhenFull` | ChatServerShared/BusinessExecutor.cpp:28-31 | a task is accepted exactly if it is callable, the executor accepts, and fewer than the limit wait in all lanes |
| `Executor.HighWaterIsReached` | ChatServerShared/BusinessExecutor.cpp:35 | some earlier state really had as many waiting tasks as the mark says |
| `Executor.HighWaterIsNeverPassed` | ChatServerShared/BusinessExecutor.cpp:35 | no earlier state had more |
| `Executor.BusinessExecutor.Create` | ChatServerShared/BusinessExecutor.cpp:7-21 | refused exactly for zero or more than 16 workers or a zero limit |
| `Executor.BusinessExecutor.Submit` | ChatServerShared/BusinessExecutor.cpp:25-38 | accepted exactly if callable, accepting and below the limit; the task goes to the end of the lane of its key's hash |
| `Executor.BusinessExecutor.TakeNext` | ChatServerShared/BusinessExecutor.cpp:91-101 | the worker's first section: takes the oldest task of its lane or returns |
| `Executor.BusinessExecutor.FinishTask` | ChatServerShared/BusinessExecutor.cpp:115-125 | the worker's second section |
| `Executor.BusinessExecutor.BeginStop` | ChatServerShared/BusinessExecutor.cpp:46-54 | admission ends, nothing else changes |
| `Executor.BusinessExecutor.DiscardWaiting` | ChatServerShared/BusinessExecutor.cpp:70-76 | the nested loops empty every lane and count what they dropped |
| `Executor.BusinessExecutor.Stop` | ChatServerShared/BusinessExecutor.cpp:63-79 | the stop section: ends admission, empties every lane unless draining, leaves running tasks alone, returns how many were dropped, keeping the invariant |
| `Executor.BusinessExecutor.IsIdle` | ChatServerShared/BusinessExecutor.cpp:56-61 | the two counters are zero exactly if no task waits or runs anywhere |
| `LoginSnapshot.BuildFrames` | ChatServerShared/LoginSnapshot.h:16-76 | single exactly if it fits; chunked exactly if allowed, within 4 MiB and some order-preserving split into at most 256 fitting frames exists; then faithful and with the fewest frames |
| `LoginSnapshot.GreedyStaysAhead` | ChatServerShared/LoginSnapshot.h:51-70 | after k frames no valid split has consumed more entries than the greedy one |
| `LoginSnapshot.MoreFramesNeeded` | ChatServerShared/LoginSnapshot.h:51-70 | while entries remain every valid split needs more frames than greedy has closed |
| `LoginSnapshot.NoSplitWithOversizedEntry` | ChatServerShared/LoginSnapshot.h:55-67 | an item that does not fit a fresh frame proves that no split exists |
| `LoginSnapshot.NoSplitAfterMaxChunks` | ChatServerShared/LoginSnapshot.h:41-43 | running out of frames proves that no split exists |
| `LoginSnapshot.NoSplitWithOversizedBase` | ChatServerShared/LoginSnapshot.h:28-34 | an envelope that does not fit proves that no split exists |
| `LoginSnapshot.ClosedIsMinimal` | ChatServerShared/LoginSnapshot.h:71-75 | the finished greedy split is valid and no valid split has fewer frames |
| `LoginSnapshot.BothListsRecovered` | ChatServerShared/LoginSnapshot.h:51-70 | concatenating the frames gives both lists back, in order |
| `LoginSnapshot.ClosedIsFaithful` | ChatServerShared/LoginSnapshot.h:38-49 | lists recovered, every frame within the limit, indices 0..n-1, exactly the last frame says there is no more |
| `LoginSnapshot.StyledSizeIsMonotone` | ChatServerShared/LoginSnapshot.h:31-33 | an additive printer with index digits, flag length and list brackets satisfies the size assumption |
| `LoginSnapshot.Packer.Append` | ChatServerShared/LoginSnapshot.h:38-49 | closing a frame fails only for lack of frames: neither byte check can fire |
| `LoginSnapshot.Packer.Add` | ChatServerShared/LoginSnapshot.h:53-68 | placing an item keeps the greedy invariant, and fails only if no split exists |
| `LoginSnapshot.AddList` | ChatServerShared/LoginSnapshot.h:51-70 | the inner loop over one list |
| `ResourceStore.FinishedFilesAreGenuine` | ResourceServer/ResourceStore.cpp:270-391 | whatever is sent and wherever requests crash, a finished file has the declared size and hash, replaces its part, and only finished files are marked ready, for the declared receiver |
| `ResourceStore.FinishedFilesNeverChange` | ResourceServer/ResourceStore.cpp:287-391 | metadata, finished file and ready mark never change again |
| `ResourceStore.HonestUpload` | ResourceServer/ResourceStore.cpp:332-391 | if the uploader's chunks are slices of one file, then under duplicates, reorderings, foreign requests, short writes and crashes the part is a prefix of it and the finished file is it |
| `ResourceStore.InitReply` | ResourceServer/ResourceStore.cpp:304-330 | a successful init is complete and announced, or names an offset below the size |
| `ResourceStore.ChunkReply` | ResourceServer/ResourceStore.cpp:332-391 | an acknowledged offset is the length on disk; complete means finished and announced |
| `ResourceStore.InitSucceedsExactly` | ResourceServer/ResourceStore.cpp:270-330 | when an undisturbed init succeeds, in terms of its fields and of an earlier declaration, and that it keeps the bytes stored so far or finishes a full genuine part |
| `ResourceStore.ChunkSucceedsExactly` | ResourceServer/ResourceStore.cpp:332-391 | when an undisturbed chunk is acknowledged and what it does to the file; when it is told another offset, and that this is the length on disk; strangers change nothing |
| `ResourceStore.NothingStoredIsLost` | ResourceServer/ResourceStore.cpp:287-391 | with the right bytes in the right order nothing stored is ever lost, under any crashes and short writes |
| `ResourceStore.InitWaveCheckNeverFires` | ResourceServer/ResourceStore.cpp:315-316 | an init never answers that a finished file is no wave |
| `ResourceStore.Upload` | ResourceServer/ResourceStore.cpp:270-391 | from any state an honest upload can be in, a client following the offsets ends with exactly the file, announced, in at most ceil(size / 32 KiB) chunks |
| `ResourceStore.SpellingDecides` | ResourceServer/ResourceStore.cpp:277-283 | a client that holds the file and declares its digest can finish exactly if it spells the digest in lower case |
| `ResourceStore.OtherSpellingNeverFinishes` | ResourceServer/ResourceStore.cpp:370-375 | in no run is an upload declared in another spelling ever finished or announced |
| `ResourceStore.OtherSpellingStartsOver` | ResourceServer/ResourceStore.cpp:369-375 | yet its init is accepted, and the chunk that fills the file discards everything |
| `ResourceStore.Fetch` | ResourceServer/ResourceStore.cpp:393-426 | following the download offsets ends and returns the finished file |
| `ResourceStore.DownloadAccess` | ResourceServer/ResourceStore.cpp:393-426 | data goes out exactly if the file is finished, the offset within its size, and the reader a group member or, in private, sender or recipient; denied access is answered exactly to everybody else; the data is the slice between the offsets, at most 32768 bytes |
| `ResourceStore.Store.WriteMeta` | ResourceServer/ResourceStore.cpp:223-268 | metadata goes to the directory of its kind, is found again by the probing order, and no other id is affected |
| `ResourceStore.Store.UploadInit` | ResourceServer/ResourceStore.cpp:270-330 | the init on the four directories does what the one-file specification says, for every crash point, to that id only |
| `ResourceStore.Store.UploadChunk` | ResourceServer/ResourceStore.cpp:332-391 | likewise for a chunk |
| `ResourceStore.Store.RecoverPart` | ResourceServer/ResourceStore.cpp:304-314 | a full part is renamed if genuine and removed otherwise |
| `ResourceStore.Store.MarkReady` | ResourceServer/ResourceStore.cpp:79-95 | sets the ready mark unless Redis is down |
| `Transactions.Connection.Run` | ChatServerShared/MysqlDaoContacts.cpp:67-107 | whatever fails: at most 3 attempts, retried only after a cleanly undone lock error; the operation lands at most once and whole; success means exactly once; the connection is returned closed or in autocommit mode with nothing open |
| `Transactions.Connection.Try` | ChatServerShared/MysqlDaoContacts.cpp:72-101 | the outcome of one attempt for every combination of failures |
| `Transactions.Connection.Leave` | ChatServerShared/MysqlDaoSupport.h:58-76 | the destructor never commits anything and leaves a reusable or closed connection |
| `Transactions.Connection.Abandon` | ChatServerShared/MysqlDaoSupport.h:88-101 | an explicit rollback restores autocommit or closes the connection |
| `Contacts.FriendshipIsMutual` | ChatServerShared/MysqlDaoContacts.cpp:180-296 | friendship is symmetric in every reachable state |
| `Contacts.FriendsAppliedAndAccepted` | ChatServerShared/MysqlDaoContacts.cpp:198-230 | friends at any time: one applied, then the other accepted, both after the last delete of the pair |
| `Contacts.FriendsExactly` | ChatServerShared/MysqlDaoContacts.cpp:180-296 | two accounts are friends exactly if some accept between them succeeded and no delete of the pair has come since |
| `Contacts.ApplyChanges` | ChatServerShared/MysqlDaoContacts.cpp:110-152 | when an application is stored, which one, and that nothing else moves |
| `Contacts.AuthorizeChanges` | ChatServerShared/MysqlDaoContacts.cpp:154-178 | an authorization succeeds exactly for an existing incoming application and marks only that |
| `Contacts.AcceptChanges` | ChatServerShared/MysqlDaoContacts.cpp:180-296 | when an accept succeeds; the applications it marks, the friends it adds, the chat it opens, and nothing else |
| `Contacts.DeleteChanges` | ChatServerShared/MysqlDaoContacts.cpp:405-430 | a delete takes exactly the two directions of friendship and application |
| `Contacts.OpenChatChanges` | ChatServerShared/MysqlDaoMessages.cpp:108-170 | a chat is opened exactly for a friend, once, under the next thread |
| `Contacts.FriendsHaveTheirChat` | ChatServerShared/MysqlDaoContacts.cpp:231-260 | friends always have a chat, from the accept on |
| `Contacts.ApplicationOrigin` | ChatServerShared/MysqlDaoContacts.cpp:110-152 | a stored application was made by its sender and no delete came after |
| `Contacts.GreetedOncePerFriendship` | ChatServerShared/MysqlDaoContacts.cpp:214-290 | over a whole run the opening messages of a pair are exactly one greeting, after the applicant's words if any, per transition to friends |
| `Contacts.NewFriendsKeepTheirRemarks` | ChatServerShared/MysqlDaoContacts.cpp:200-230 | when an accept succeeds, and that each new friend gets the remark and tags he chose himself |
| `Contacts.OneChatPerPair` | ChatServerShared/MysqlDaoContacts.cpp:231-260 | at most one private chat per unordered pair, whichever operation opened it; opening messages lie in it with growing ids |
| `Contacts.Dao.AddFriendApply` | ChatServerShared/MysqlDaoContacts.cpp:110-152 | stores the application and asks for a notification unless the two are friends |
| `Contacts.Dao.AuthFriendApply` | ChatServerShared/MysqlDaoContacts.cpp:154-178 | marks an existing incoming application as accepted |
| `Contacts.Dao.AddFriend` | ChatServerShared/MysqlDaoContacts.cpp:180-296 | the statements of an accept give the specified tables; messages are reported exactly for a new friendship |
| `Contacts.Dao.DeleteFriend` | ChatServerShared/MysqlDaoContacts.cpp:405-430 | both directions of application and friendship go, chats and messages stay |
| `Contacts.Dao.CreatePrivateChat` | ChatServerShared/MysqlDaoMessages.cpp:108-170 | finds the friends' chat or opens one |
| `Contacts.Dao.FindChat` | ChatServerShared/MysqlDaoContacts.cpp:231-241 | the row lookup finds the pair's thread or nothing |
| `Contacts.Perform` | ChatServerShared/MysqlDaoContacts.cpp:67-107 | under the retry loop an operation is one step of the contact machine or none |
| `Groups.GroupsAreSane` | ChatServerShared/MysqlDaoGroups.cpp:68-212 | every active group has its owner among 1 to 32 members, every inactive one has none |
| `Groups.CreationKeyIsSpent` | ChatServerShared/MysqlDaoGroups.cpp:100-142 | one creator and key yield at most one thread, over the whole run |
| `Groups.RetryChangesNothing` | ChatServerShared/MysqlDaoGroups.cpp:100-112 | a repeated creation changes nothing and names the first thread; it succeeds exactly while the creator is in the active group; another request under the same key is refused and names none |
| `Groups.DisbandedForever` | ChatServerShared/MysqlDaoGroups.cpp:150-174 | a disbanded group never becomes active, gains a member or lets a message through |
| `Groups.WhoChangesMembership` | ChatServerShared/MysqlDaoGroups.cpp:154-209 | members change only by the owner's hand or by leaving, only friends of the owner in the contact tables join, and the owner stays |
| `Groups.ChangeSucceedsExactly` | ChatServerShared/MysqlDaoGroups.cpp:144-212 | for each change of a group when it succeeds, and the exact new name, owner, activity and member set |
| `Groups.ChangeRefusals` | ChatServerShared/MysqlDaoGroups.cpp:144-212 | which error answers which failing condition; a refusal changes nothing |
| `Groups.NewGroupHoldsTheInvited` | ChatServerShared/MysqlDaoGroups.cpp:113-139 | a new group has exactly the creator and the invited, all friends of the creator in the contact tables, and all may write |
| `Groups.CreationSucceedsExactly` | ChatServerShared/MysqlDaoGroups.cpp:68-142 | when a creation under a fresh key succeeds, in terms of its fields, and exactly which group it adds |
| `Groups.CreationRefusals` | ChatServerShared/MysqlDaoGroups.cpp:68-142 | the other answers: unknown accounts whatever their key, missing friends only under a fresh key |
| `Groups.Dao.CreateGroup` | ChatServerShared/MysqlDaoGroups.cpp:68-142 | founds, repeats or refuses as specified, keeping the invariant |
| `Groups.Dao.CollectIds` | ChatServerShared/MysqlDaoGroups.cpp:79-84 | the member list as a set, refused if one is not positive |
| `Groups.Dao.FindCreation` | ChatServerShared/MysqlDaoGroups.cpp:100-106 | finds the group of creator and key exactly if there is one |
| `Groups.Dao.UpdateGroup` | ChatServerShared/MysqlDaoGroups.cpp:144-212 | rename, add, remove, leave, transfer and disband as specified, keeping the invariant |
| `Groups.Dao.AuthorizeSend` | ChatServerShared/MysqlDaoMessages.cpp:249-264 | a group message passes exactly from a current member of an active group |
| `Messages.ResendChangesNothing` | ChatServerShared/MysqlDaoMessages.cpp:286-331 | messages sent again at any later time, stamped anew and regrouped in any way, each stored by some earlier batch: accepted, no row changes, and each gets the receipt of its first sending |
| `Messages.RetryGetsTheSameReceipts` | ChatServerShared/MysqlDaoMessages.cpp:286-331 | in particular a whole batch sent again with new time stamps gets exactly its first receipts |
| `Messages.RowsArePermanent` | ChatServerShared/MysqlDaoMessages.cpp:225-338 | rows are only added at the end |
| `Messages.OneRowPerUniqueId` | ChatServerShared/MysqlDaoMessages.cpp:293-312 | two rows of one thread and sender never share a unique id |
| `Messages.ReceiptsNameTheRows` | ChatServerShared/MysqlDaoMessages.cpp:302-331 | each message of a stored batch has a row with its payload, and its receipt is that row's |
| `Messages.ReusedIdIsRefused` | ChatServerShared/MysqlDaoMessages.cpp:302-307 | a unique id taken by another payload refuses the whole batch |
| `Messages.BatchStoredExactly` | ChatServerShared/MysqlDaoMessages.cpp:225-338 | an authorized batch is stored exactly if it is well formed and no unique id clashes with a row or an earlier message of the batch; then each first sending becomes a row with its fields, numbered on, and nothing else changes |
| `Messages.AuthorizedExactly` | ChatServerShared/MysqlDaoMessages.cpp:249-279 | who may write, both ways: in a group its current members while it is active, in a private chat either of its two friends, in either order of their account numbers |
| `Messages.Dao.AddChatMsg` | ChatServerShared/MysqlDaoMessages.cpp:225-338 | the batch is stored whole with its receipts exactly if it is well formed, authorized by the contact and group tables and free of conflicts; otherwise the table is as before |
| `Messages.Dao.MayWrite` | ChatServerShared/MysqlDaoMessages.cpp:249-279 | decides as AuthorizedExactly says: a group message needs a current member of an active group, a private one the friendship and the chat of exactly these two |
| `Messages.OnlyFriendsWrite` | ChatServerShared/MysqlDaoMessages.cpp:265-279 | a private message is authorized only after an application and an accept with no delete since, and only in the one chat of the pair |
| `Messages.DisbandedGroupIsSilent` | ChatServerShared/MysqlDaoMessages.cpp:249-264 | nobody ever writes to a disbanded group again |
| `Messages.Dao.Lookup` | ChatServerShared/MysqlDaoMessages.cpp:293-302 | finds the oldest row of thread, sender and unique id |
| `History.LoadPage` | ChatServerShared/MysqlDaoMessages.cpp:172-223 | the first messages after the cursor, and whether there are more |
| `History.Pack` | ChatServerShared/LogicSystem.cpp:761-783 | the longest prefix all of whose prefixes fit; an error exactly if the first message does not; the reply is within the packet limit if it holds a message or the empty reply fits |
| `History.CatchUp` | ChatServerShared/LogicSystem.cpp:735-784 | a client following the cursor gets every later message once, in order, even while messages arrive, and stops; every reply is within the limit; each single message and the empty reply at its id must fit |
| `History.CatchUpPrinted` | ChatServerShared/LogicSystem.cpp:735-784 | the same for the printed size and 32-bit ids, with no other bound on the traffic, if each message fits together with the envelope |
| `History.LaterSplits` | ChatServerShared/MysqlDaoMessages.cpp:186-217 | going on after the last message of a page gives exactly the rest |
| `History.TablesOfARun` | ChatServerShared/MysqlDaoMessages.cpp:225-338 | every run of the message table gives the growing ids and growing tables that paging relies on |
| `History.ReplySizeHasSlack` | ChatServerShared/LogicSystem.cpp:772-773 | an additive printed size changes by less than the reserve with flag and error code |
| `Conversations.AllPartsRun` | ChatServerShared/MysqlDaoGroups.cpp:116-122 | every run of the common database, with one thread counter and one message counter, is a run of each of the three machines, so their theorems hold of it |
| `Conversations.OneKindPerThread` | ChatServerShared/MysqlDaoContacts.cpp:242-260 | a thread is never both a private chat and a group, however creations interleave |
| `Conversations.MessagesStayInTheirKind` | ChatServerShared/MysqlDaoMessages.cpp:249-279 | an authorized private message goes to a private chat and never to a group, an authorized group message the other way round |
| `Conversations.JoinersWereBefriended` | ChatServerShared/MysqlDaoGroups.cpp:113-115 | whoever joins a group, at its founding or later: one of him and the owner had applied and the other accepted, with no delete of the pair since |
| `Conversations.EveryRowWasEntitled` | ChatServerShared/MysqlDaoMessages.cpp:225-338 | every stored message was written by somebody entitled at that time: a current member of the active group, or one of two friends in their own chat |
| `Conversations.FriendsExactly` | ChatServerShared/MysqlDaoContacts.cpp:180-296 | in the common database two accounts are friends exactly from a successful accept to the next delete |
| `Conversations.MayWriteExactly` | ChatServerShared/MysqlDaoMessages.cpp:249-279 | who may write, exactly, in terms of what happened: accepts and deletes in a private chat, current membership in an active group |
| `Conversations.FriendsAreHeard` | ChatServerShared/MysqlDaoMessages.cpp:225-338 | after an accept the two accounts have a chat, and until a delete every proper batch either of them sends in it is stored, unless it reuses a unique id for other contents |
| `Limiter.CounterWithinLimit` | GatewayGuard/server.js:36-46 | no counter ever exceeds its limit |
| `Limiter.RefusedExactlyWhenFull` | GatewayGuard/server.js:36-46 | a request is refused exactly if one of its keys has had its limit of admissions in its current window, as told from the log of admissions alone |
| `Limiter.GatewayAdmitsExactly` | GatewayGuard/server.js:114-125 | the same for each route with its numbers |
| `Limiter.WindowAdmitsAtMostTwiceTheLimit` | GatewayGuard/server.js:36-46 | any closed interval as long as a key's window admits at most twice its limit on that key, and one less if an end is excluded |
| `Limiter.AdmissionsAreSpread` | GatewayGuard/server.js:36-46 | any 2L admissions of a key with limit L take at least its window |
| `Limiter.CountsOnceOnEachKey` | GatewayGuard/server.js:42-45 | an admitted request counts once on each of its keys and on no other |
| `Limiter.GatewayRulesAreLawful` | GatewayGuard/server.js:114-125 | on every route the rules name distinct keys, and one policy gives each its limit and window |
| `Limiter.MailPerHour` | GatewayGuard/server.js:115-117 | no hour sees more than 39 mails |
| `Limiter.MailCooldown` | GatewayGuard/server.js:115-117 | two mails to one account are at least a minute apart |
| `Limiter.Counters.Run` | GatewayGuard/server.js:36-46 | zero exactly if every counter had room, and then all are raised; otherwise nothing changes and the wait is that of the first exhausted key, at least 1 |
| `Limiter.WaitIsEnough` | GatewayGuard/server.js:40 | after the wait, and half a second for the rounding, the refusing counter has expired |

## Left out

- VoiceCallService::Handle: its validation is modelled only as the condition it gives the script (two distinct positive accounts); arbitrary admissible requests cover its own end of an undeliverable call. Message formats and delivery to the peer are not modelled.
- SessionService::Login and CServer::CleanupSession/ClearSession: steps of a state machine rather than methods, since what matters is their interleaving; the status call and the user lookup are not modelled, a remote kick only as its success, and releasing the lock is part of the last step.
- LoginRace.ClosedLoginLeavesNoTrace: for the Redis slot it assumes every Redis call and the cleanup submission succeeded; otherwise the slot remains until its lease expires.
- LoginRace.UserMgr.RmvUserSession: which of several entries goes is left open, as in an unordered map; a session has at most one.
- CServer::MaintainSessions, heartbeats and GetSessions: periodic callers of the modelled operations.
- Connection.SendAdmittedExactly: in the runs the close of an overloaded connection is the next step, a Close; the method QueueSend has both.
- Connection.Session.RunOne: reading from the socket is left out; a failed read is a close.
- BusinessExecutor wait and run times: metrics of the clock. RunLane's loop is its two critical sections as separate steps, because other threads run between them.
- LoginSnapshot.BuildFrames: the two lists are one sequence of tagged entries, in the order the nested loops visit them.
- ResourceStore::Handle, token authentication, file id syntax and the group authorizer: simple gates before the modelled requests; the authorizer's answer is a parameter. Case-insensitive file systems and crashes inside a metadata write are not modelled.
- Contacts.Dao.AddFriend: foreign keys and lock order are not modelled; a violated key is a failed attempt.
- Contacts.Perform: CreatePrivateChat, group changes and message batches run in one transaction without a retry loop.
- Messages.Dao.AddChatMsg: the contact and group tables it consults are parameters, joined with it in the common database; the check of resource marks before media messages is not modelled.
- Conversations: one transaction at a time on a database that starts empty; no account is ever deleted.
- History.CatchUp: the access check of the history request is not modelled, nor is a reply too large to send, which the connection drops.
- GatewayGuard failure counter: checked and raised in separate commands, so it bounds nothing exactly.
- Asio, gRPC, hiredis, MySQL connector, connection pools, configuration, logging, password hashing, mail, HTTP routing, node selection and the Qt clients.
