# RustRelay: a verified model

RustRelay is a gateway for real-time chat. Clients hold WebSocket connections; the
gateway keeps their sessions, tracks who is online, fans messages out to the members
of a channel (through Redis to other nodes), and buffers read positions before writing
them to PostgreSQL in bulk. This project models the four stateful parts of it in Dafny
and proves what they keep over every run.

- **Read positions** (`ReadState`, `ReadStateCache`, `ReadStateRuns`). Acks are merged
  into a buffer, drained key by key, cut into chunks and upserted "only if newer"; a
  refused chunk goes back into the buffer. `ReadStateCache` is the cache as an object;
  `ReadStateRuns` lets any number of flushing tasks and client acks interleave at the
  grain of one map operation, one bulk statement or one re-buffered row. A statement is
  stored and reported, refused, or stored while its client sees an error.
- **Sessions and presence** (`Registry`, `Sessions`, `Presence`, `Broadcast`,
  `Heartbeat`, `Handler`, `Lifecycle`). The objects are the session store, the
  tracker with its debounce timers, the batching broadcaster, the reaper and the
  connection handler. `Lifecycle` is the state machine of one node over the steps
  Connect, Exit, Reap, Fire, SetStatus, passing time, and the broadcaster's Receive,
  Tick and Notify. The methods of `Handler`, `Heartbeat` and `Presence` are proved to
  take exactly those steps.
- **Rate limiter** (`RateLimiter`). The token bucket as an object, its closed form over
  a whole trace, and when the clean-up of idle buckets can be observed.
- **Fan-out** (`MemberCache`, `Router`, `Delivery`, `DeliveryRuns`, `DeliveryOrder`).
  The member cache with concurrent lookups, the router and the Redis bridge as objects,
  and the protocol between nodes. In `Delivery` any number of senders on a node interleave at the grain
  of one look at a member, one push to a member's sessions, and one publication; a node
  delivers a payload target by target; links may lose payloads.

A run is a list of states and the steps between them; a theorem about runs holds for
every list of steps that are possible in turn. UUIDs are natural numbers, in the byte
order that Rust and PostgreSQL compare them by. Clocks, database answers and Redis
outcomes are parameters or choices of the step. Times, tokens and durations are reals.

Some things that the comments in the code lead one to expect do not always hold. Each
is stated with the condition under which it holds:

- "Called during graceful shutdown so we don't lose any buffered data"
  (src/readstate/cache.rs:168-169): when the server stops some time after the shutdown
  flush has drained the buffer, a key's table position is the highest ever recorded if
  and only if nothing newer was in a failed shutdown statement, reached the buffer after
  the key was last removed, or is in the hands of a flushing task (`StopKeepsAcks`,
  `GracefulStopIsWriteThrough`). A refused statement loses an ack
  (`FailedShutdownLosesAck`), and so does a successful one that an ack comes too late for
  (`LateAckIsNotStored`).
- A zero counter means "Nothing to flush" (src/readstate/cache.rs:129-131): it does until
  the first drain ends (`SkipTestIsRightAtFirst`). A drain clears the counter last, so a
  later wake-up skips buffered rows if and only if nothing has arrived since the last
  drain ended and some key had arrived after the last removal of it since a drain began
  (`SkipTestStrands`, `SkipTestStrandsAnAck`).
- Invalidating a channel makes "the next message pick up the new member list"
  (src/router/fanout.rs:155-157): later lookups never hit on an older reading if and only
  if no older reading of the channel is in flight and in time to be inserted
  (`InvalidationRefreshesIff`); `NewMemberIsMissed` is a run in which a new member is left
  out after the invalidation.
- Idle buckets are "stale" after ten minutes (src/ratelimit.rs:60-70): dropping them
  changes no decision if and only if ten minutes of refill make a full bucket
  (`CleanUpIsInvisibleIff`).
- Messages of one node arrive in one order: they do for one connection, and for any two
  sends that do not overlap (`OneSenderInOrder`, `AtMostOnceInOrder`). At any instant two
  messages can still come to two members' sessions in opposite orders if and only if one
  session may still get the first before the second and the other the second before the
  first, judged by what each has and whose turns are still to come (`CanCrossIff`,
  `OverlappingSendsCross`).

## Model

| member | source | states |
|---|---|---|
| ReadState.AdvanceAllJoins | src/db.rs:222-228 | Newer-only writes, one after another, leave for each key the maximum of the stored message and all written ones: the write is a join, so order and repetition do not matter |
| ReadState.ChunksFlatten | src/readstate/cache.rs:142 | Cutting a batch into chunks of any positive size loses, repeats and reorders nothing |
| ReadState.ChunksWellCut | src/readstate/cache.rs:142-143 | No chunk is empty, longer than the size, or has a key twice, so each is a statement PostgreSQL can run |
| ReadState.ChunkSizes | src/readstate/cache.rs:142 | Every chunk but the last has the full size, and the last has the rest |
| ReadState.ChunkCount | src/readstate/cache.rs:142-143 | One wake-up sends as few statements as the batch needs: its length divided by the chunk size, rounded up |
| ReadState.SettledSplit | src/readstate/cache.rs:142-160 | Whatever becomes of the chunks, the rows stored and the rows reported as failed together hold what was drained |
| ReadState.FlushConserves | src/readstate/cache.rs:133-161 | For each key, one flush leaves the maximum over table and buffer as it was, also when a chunk is stored but reported as failed |
| ReadState.DrainedWriteIsWriteThrough | src/readstate/cache.rs:170-176 | Writing a drained buffer, in whatever key order, gives the very table that writing every ack by itself gives |
| ReadState.BatchedFlushIsWriteThrough | src/readstate/cache.rs:142-147 | The same for a flush in chunks of any size whose chunks all succeed, and nothing is left to re-buffer |
| ReadStateCache.ReadStateTable.UpsertBatch | src/db.rs:207-237 | All rows or none; no error exactly if empty, or stored and reported with no key named twice; a stored statement merges every row newer-only even if its client sees an error |
| ReadStateCache.ReadStateCache.Update | src/readstate/cache.rs:60-74 | The buffer keeps the later message of the key, both counters go up by one, and the counter stays a bound on the buffer that is zero only when the buffer is empty |
| ReadStateCache.ReadStateCache.Drain | src/readstate/cache.rs:78-91 | The batch lists every buffered entry once and nothing else; the buffer and its counter are empty afterwards |
| ReadStateCache.ReadStateCache.Rebuffer | src/readstate/cache.rs:156-158 | A refused chunk is merged back row by row, counted like acks |
| ReadStateCache.ReadStateCache.FlushChunk | src/readstate/cache.rs:143-160 | A reported chunk changes only the table, a refused one only the cache, and one stored but reported as failed is in both |
| ReadStateCache.ReadStateCache.FlushBatch | src/readstate/cache.rs:142-161 | The table has exactly the stored rows merged in, the buffer exactly those reported as failed, counted once each |
| ReadStateCache.ReadStateCache.FlushCycle | src/readstate/cache.rs:124-164 | A wake-up does nothing on a zero counter; otherwise it drains all, sends the chunks of max(threshold, 100) that ChunkSizes and ChunkCount describe, and for every key conserves the maximum over table and buffer whatever becomes of them |
| ReadStateCache.ReadStateCache.FlushNow | src/readstate/cache.rs:170-177 | No error exactly if there was nothing to flush or the statement was stored and reported; every buffered position is in the table afterwards if and only if the statement was stored or the table was already as new |
| ReadStateRuns.AcksAreConserved | src/readstate/cache.rs:60-91 | At every instant of every interleaving of acks, key snapshots, single removals, statements, errors before and after the commit, and re-buffering, the maximum over table, rows in flight, buffer and rows of failed shutdown statements is the maximum of the initial table and all acks |
| ReadStateRuns.BatchesAreDistinct | src/readstate/cache.rs:78-91 | Whatever is acked while a drain is under way, the rows a task holds never name a key twice |
| ReadStateRuns.EndDrainSends | src/readstate/cache.rs:142-174 | In every run a drained batch is sent as nothing if empty, as one statement at shutdown, and otherwise as few statements as it needs, of the full size but for the last |
| ReadStateRuns.StatementIsAcceptable | src/readstate/cache.rs:142-147 | No bulk statement of any run is one that PostgreSQL must refuse for naming a key twice |
| ReadStateRuns.TableNeverMovesBack | src/db.rs:225-228 | No stored position moves backwards between any two states of a run |
| ReadStateRuns.StoredPositionsAreGenuine | src/readstate/cache.rs:153-159 | Every stored, drained or buffered position was acked for that very user and channel, or was in the table at the start |
| ReadStateRuns.OpsCountAcksAndRebuffers | src/readstate/cache.rs:72-73 | The lifetime counter is the acks plus the re-buffered rows |
| ReadStateRuns.BufferSince | src/readstate/cache.rs:60-91 | At every instant the buffer holds for a key exactly what reached it since any earlier instant and was not removed, and what it held then if nothing removed that |
| ReadStateRuns.BufferAfterDrain | src/readstate/cache.rs:78-91 | After a drain of a snapshot that names at least the buffered keys, whatever other tasks do meanwhile, the buffer holds exactly what arrived after its key's last removal |
| ReadStateRuns.StopKeepsAcks | src/readstate/cache.rs:168-176 | At any stop after a shutdown drain, a key's stored position is the highest ever recorded if and only if nothing newer was in a failed shutdown statement, arrived too late for the drain, or is still held by a task |
| ReadStateRuns.GracefulStopIsWriteThrough | src/readstate/cache.rs:168-177 | If all tasks sleep at that stop, the table is what writing through every ack would have made it if and only if no failed shutdown statement and no late arrival is newer than it |
| ReadStateRuns.LateAckIsNotStored | src/readstate/cache.rs:171-174 | A run whose shutdown statement succeeds and that still ends with an acked position missing from the table |
| ReadStateRuns.FailedShutdownLosesAck | src/readstate/cache.rs:168-176 | A run in which an acked position is nowhere any more after a refused shutdown statement |
| ReadStateRuns.SettledTableIsWriteThrough | src/readstate/cache.rs:133-161 | Whenever the buffer is empty and all tasks sleep, the table is what writing through every ack would have made it if and only if no failed shutdown statement held anything newer |
| ReadStateRuns.CountIsArrivals | src/readstate/cache.rs:72-89 | At every instant the counter is the number of rows acked or re-buffered since the last drain of any task ended |
| ReadStateRuns.SkipTestIsRightAtFirst | src/readstate/cache.rs:128-131 | Until a drain has ended in a run, a zero counter means an empty buffer |
| ReadStateRuns.SkipTestStrands | src/readstate/cache.rs:83-131 | A wake-up at any later instant, beside any other tasks, meets a zero counter and a non-empty buffer if and only if nothing has arrived since the last drain ended and some key arrived after its last removal since a drain began |
| ReadStateRuns.SkipTestStrandsAnAck | src/readstate/cache.rs:128-131 | A run that ends with a sleeping flusher, a zero counter and an ack in the buffer |
| RateLimiter.RateLimiter.TryAcquire | src/ratelimit.rs:37-58 | For any configured rate: allows exactly if a token is available after the refill of the old or newly created bucket, charges one only then, stores the bucket refilled to now, and touches no other user; at a rate that is not negative a new bucket is a full one |
| RateLimiter.RateLimiter.CleanUp | src/ratelimit.rs:67-70 | Exactly the buckets last refilled less than 600 seconds ago stay, unchanged |
| RateLimiter.LevelIsLeastAllowance | src/ratelimit.rs:45-56 | The tokens at a request are the least, over all earlier requests i, of capacity plus refill since i minus admissions since i |
| RateLimiter.AllAdmittedIff | src/ratelimit.rs:37-58 | All requests are admitted if and only if each stretch i..j satisfies j-i+1 <= capacity + rate*(t_j-t_i) |
| RateLimiter.WindowBound | src/ratelimit.rs:45-56 | Without clean-up, in any window [a, b] at most capacity + rate*(b-a) requests of a user are admitted |
| RateLimiter.UsersDoNotInterfere | src/ratelimit.rs:38-41 | Without clean-up a user's bucket is a function of that user's own request times |
| RateLimiter.DroppingChangesNoDecision | src/ratelimit.rs:51-57 | Deleting rejected requests, other users' requests and clean-ups from a trace changes no decision (with clean-ups, if ten minutes refill a bucket) |
| RateLimiter.CleanUpShows | src/ratelimit.rs:67-70 | If ten minutes do not refill a bucket, a trace on which clean-up changes a decision |
| RateLimiter.CleanUpIsInvisibleIff | src/ratelimit.rs:60-73 | Clean-ups at arbitrary times, which drop the buckets unused for 600 seconds, are unobservable in every run if and only if rate*600 >= capacity |
| Registry.InsertKeeps | src/gateway/session.rs:108-115 | A fresh id is appended to its user's list; no list is empty, no id appears twice, and other users' lists stay |
| Registry.RemoveKeeps | src/gateway/session.rs:122-140 | Exactly the one session goes, an emptied list goes with it, other users' lists stay, and removing a stranger changes nothing |
| Registry.RemovedFromList | src/gateway/session.rs:125-133 | What stood before and after the removed session stays, in order |
| Registry.SecondRemovalIsIdle | src/gateway/session.rs:122-140 | The clean-up of a session that was already reaped changes nothing in the registry |
| Registry.RemovePrunes | src/gateway/heartbeat.rs:45-57 | Removing stale sessions one by one is removing the set of them at once, others kept in order |
| Sessions.Session.SecondsSinceHeartbeat | src/gateway/session.rs:69-73 | The age of the heartbeat, saturating at zero if the clock was set back |
| Sessions.Session.Send | src/gateway/session.rs:77-79 | An open pipe gets the event at its end, a closed one refuses it |
| Sessions.SessionStore.Insert | src/gateway/session.rs:108-115 | The session is appended to its user's list and the connection count, which is always the number of registered ids, goes up by one |
| Sessions.SessionStore.Remove | src/gateway/session.rs:122-140 | Reports whether the session was there, and lowers the count exactly then |
| Sessions.SessionStore.SendToUser | src/gateway/session.rs:144-154 | Each open session of the user gets the event once, nobody else's does, and the result counts them |
| Sessions.OpenCountIsSize | src/gateway/session.rs:145-153 | The count that a push to one user returns is the number of that user's open sessions |
| Sessions.SessionStore.SendToUsers | src/gateway/session.rs:157-159 | Each open session gets the event once for each time its user is listed, and the result counts the pushes |
| Sessions.ReachedAddsUp | src/gateway/session.rs:157-159 | The count that a push to many users returns is the sum over the listed users, each listing counted |
| Sessions.IsStale | src/gateway/session.rs:184 | A session is stale exactly if now is past its last heartbeat by more than the timeout |
| Sessions.SessionStore.FindStaleSessions | src/gateway/session.rs:180-190 | Lists, once each, exactly the registered stale sessions |
| Broadcast.CoalescingKeepsLast | src/presence/broadcast.rs:79-84 | Dropping a user's older entry and appending the new one keeps, of everything received, the last update per user |
| Broadcast.KeepLastOrder | src/presence/broadcast.rs:83-84 | The kept updates stand in the order in which they were received |
| Broadcast.KeepLastCount | src/presence/broadcast.rs:80-87 | The length of a batch is the number of distinct users who sent an update |
| Broadcast.KeepLastIsDistinct | src/presence/broadcast.rs:80-84 | A batch names each user once and misses nobody who sent an update |
| Broadcast.Worker | src/presence/broadcast.rs:67-98 | For any sequence of receipts and ticks, each flush is the last-per-user of its stretch, the open batch likewise, it stays below 50 entries, and it is empty after a tick |
| Broadcast.TickFlushes | src/presence/broadcast.rs:91-95 | A tick ends a stretch exactly if something was received since the last end, and leaves nothing behind |
| Broadcast.ReceiptFlushes | src/presence/broadcast.rs:79-90 | A receipt ends a stretch exactly if it is of the 50th distinct user in it |
| Broadcast.EveryUpdateIsAccountedFor | src/presence/broadcast.rs:77-97 | The stretches between flushes and the open one make up everything received, in order |
| Broadcast.EmptyBatchMeansUpToDate | src/presence/broadcast.rs:91-95 | When the batch is empty, the last status flushed for a user is the last one received |
| Broadcast.FlushedStatusesAreReceived | src/presence/broadcast.rs:79-95 | The statuses flushed for a user are a subsequence of those received for that user |
| Broadcast.FlushBatch | src/presence/broadcast.rs:109-156 | Every open session gets the notices of the batch for its user, which NoticesSnoc describes |
| Broadcast.NoticesSnoc | src/presence/broadcast.rs:117-130 | An update, of any status, makes exactly one notice of its user and status for a user its lookup lists, after those of earlier updates, and none if the lookup failed or does not list the user |
| Broadcast.NoticesConcat | src/presence/broadcast.rs:115-156 | The notices of flush after flush are those of all the batches together |
| Presence.PresenceTracker.Disarm | src/presence/tracker.rs:38-40 | Takes the user's stored handle away and cancels its timer if it still sleeps; no other timer or handle changes |
| Presence.PresenceTracker.OnSessionOpen | src/presence/tracker.rs:37-65 | Cancels the stored timer, counts the session, makes an offline or unknown user Online and queues exactly that change; all other state stays |
| Presence.PresenceTracker.OnAllSessionsClosed | src/presence/tracker.rs:67-96 | Cancels a stored timer and starts another whose deadline is one debounce from now; no status changes |
| Presence.PresenceTracker.Fire | src/presence/tracker.rs:82-90 | A timer that has not fired before takes a tracked user Offline with no sessions counted, the user's handle goes, and Offline is queued |
| Presence.PresenceTracker.SetStatus | src/presence/tracker.rs:98-110 | Stores and queues a status that differs from a tracked user's; otherwise nothing changes |
| Presence.OpenedFacts | src/presence/tracker.rs:37-65 | Opening a session cancels the user's timer, counts the session, turns Offline into Online, announces exactly that change, and keeps stored handles and sleeping timers in one-to-one correspondence |
| Presence.ClosedFacts | src/presence/tracker.rs:67-96 | Closing the last session leaves one sleeping timer for the user, with the new deadline, changes no status, and leaves all other users' timers as they were |
| Presence.FiredFacts | src/presence/tracker.rs:82-90 | A timer that fires makes its user Offline with no session counted, announces it, disarms only that user, and keeps the announcements in line with the statuses |
| Presence.StatusSetFacts | src/presence/tracker.rs:98-110 | A tracked user's status becomes the chosen one, announced exactly if it changed; an untracked user stays untracked |
| Heartbeat.ClosedAllArms | src/presence/tracker.rs:67-96 | Closing the last session of a list of users arms one new timer for each of them and nobody else, all with the given deadline |
| Heartbeat.Reap | src/gateway/heartbeat.rs:57-63 | One stale session is removed and the timer armed exactly if the user has none left, which is exactly the state machine's Reap step |
| Heartbeat.ReapAll | src/gateway/heartbeat.rs:45-64 | The listed sessions are gone, the others kept in order, each user who lost all sessions is armed exactly once, and this is the list of Reap steps of the state machine |
| Heartbeat.Sweep | src/gateway/heartbeat.rs:35-64 | One sweep removes exactly the sessions older than the timeout, lowers the connection count by their number, arms once exactly the users all of whose sessions were stale, and is one Reap step of the state machine for each stale session |
| Handler.AppState.Connect | src/gateway/handler.rs:90-96 | On the shared objects, connecting is exactly the state machine's Connect step |
| Handler.AppState.Cleanup | src/gateway/handler.rs:250-257 | On the shared objects, the end of a reader loop is exactly the Exit step, also for a session reaped before: the session goes, and if the user has none left a new timer sleeps for the user until one debounce from now, whether or not one was running |
| Handler.AppState.HandleClientMessage | src/gateway/handler.rs:184-247 | Each kind of message changes its own part of the node and nothing else; the events it pushes are described by PushFacts |
| Handler.PushFacts | src/gateway/handler.rs:198-245 | A message goes to all members if stored and they were found, a heartbeat is answered to its user with its number, typing is shown once to each other member, acks and statuses push nothing |
| Handler.AppState.OnFrame | src/gateway/handler.rs:127-149 | Text and pings renew the heartbeat, also of a reaped session; only a close or an error ends the loop; only a status message moves the state machine |
| Lifecycle.Reachable | src/gateway/handler.rs:93-96 | In every reachable state, also with sessions reaped that are gone since they were listed, ids are unique, stored handles are the sleeping timers, an armed user has no session, session counts are at least the registered sessions, announcements agree with statuses, and nobody without a handler is stuck |
| Lifecycle.SessionsAfter | src/gateway/session.rs:108-140 | A session is registered after a step exactly if the step connects it, or it was registered and the step does not clean it up |
| Lifecycle.StatusAfter | src/presence/tracker.rs:37-110 | Connecting makes an offline user Online, a timer takes its user Offline, a tracked user's choice is the status, and no step changes a status otherwise |
| Lifecycle.AnnouncedBy | src/presence/tracker.rs:60-108 | A step announces exactly a status that connecting or a choice changes, and Offline for a timer that fires |
| Lifecycle.TimerAfter | src/presence/tracker.rs:67-96 | A clean-up that leaves the user without a session always restarts the debounce from now, connecting and firing end it, and no step touches another user's timer |
| Lifecycle.OneTimerPerUser | src/presence/tracker.rs:67-82 | At most one uncancelled timer per user; it is the stored one, and its user has no session |
| Lifecycle.NoUserIsStuckOnline | src/gateway/handler.rs:250-257 | A user with no live handler is Offline or has an armed timer, even after reaping, late status messages and second clean-ups |
| Lifecycle.ConnectedOfflineIsChosen | src/presence/tracker.rs:98-105 | A connected user is Offline only if an own choice of Offline was the latest change of status |
| Lifecycle.ArmedSince | src/presence/tracker.rs:68-82 | An armed timer's deadline is one debounce after the last clean-up that left its user without a session, and the user has had none since |
| Lifecycle.OfflineCertifiesAbsence | src/presence/tracker.rs:80-91 | A debounced Offline at T means that the last clean-up to leave the user without a session was at or before T minus the debounce, and that the user has had no session since |
| Lifecycle.CleanUpGivesAFullDebounce | src/gateway/handler.rs:254-257 | No debounced Offline comes sooner than one debounce after any clean-up that left the user without a session, also a second one for a reaped session |
| Lifecycle.ShortAbsencesAreSilent | src/presence/tracker.rs:38-58 | However often connections drop and return, if every absence is shorter than the debounce and the user chooses no status, nothing is broadcast about the user and the status stays |
| Lifecycle.ReconnectingInTimeIsSilent | src/presence/tracker.rs:37-65 | In particular closing the last session and reconnecting before the deadline broadcasts nothing |
| Lifecycle.WorkerReachable | src/presence/broadcast.rs:74-97 | In every run the last status of a user on the way through queue, batch and flush is the last one sent, and the batch stays below 50 |
| Lifecycle.ObserversAgree | src/presence/broadcast.rs:115-146 | Once nothing is queued, collected or being flushed, replaying the delivered updates gives exactly the tracked status of every user whose latest lookup succeeded |
| Lifecycle.SessionsAgree | src/presence/broadcast.rs:117-130 | The same for what is really in an inbox: replaying the notices that the flushes put into the session of anyone who shares a guild with the user gives the tracked status |
| Lifecycle.ReceiveFollows | src/presence/broadcast.rs:79-90 | The state machine's worker collects and flushes on a receipt exactly as the broadcaster's loop does |
| Lifecycle.TickFollows | src/presence/broadcast.rs:91-95 | So does it on a tick, which hands over the whole batch |
| Lifecycle.WorkerCanSettle | src/presence/broadcast.rs:77-155 | From every reachable state the worker alone, with successful lookups, brings all that is queued, collected or being flushed to the observers |
| MemberCache.AnswersAreRecent | src/router/fanout.rs:131-153 | With any concurrent lookups overwriting each other, every answer is the true membership at some instant: on a miss at most one fetch latency old, on a hit less than the time to live plus one latency |
| MemberCache.FetchedIsFound | src/router/fanout.rs:136-150 | The list a lookup fetched is what it returns and what every lookup of the channel returns for exactly one time to live, and the database is asked again afterwards |
| MemberCache.LookupTouchesOneEntry | src/router/fanout.rs:143-150 | A lookup changes no other channel's entry, and nothing at all if it hits or the query fails |
| MemberCache.LookupIsSteps | src/router/fanout.rs:131-153 | After any run, a lookup of the router is the state machine's hit, its miss with query and insertion, or its miss that fails |
| MemberCache.FoundIsRecent | src/router/fanout.rs:131-153 | So what the router's lookup returns after any run is the true membership less than the time to live plus one latency ago on a hit, and at the query on a miss |
| MemberCache.UnexpiredKeeps | src/router/fanout.rs:170-175 | The clean-up drops exactly the entries that are one time to live old, and changes no other |
| MemberCache.SweepsChangeNoAnswer | src/router/fanout.rs:170-175 | Deleting all clean-ups, which drop exactly the entries no lookup could use, from a run changes no later step's possibility or answer |
| MemberCache.InvalidationRefreshes | src/router/fanout.rs:155-160 | After an invalidation with no older reading of the channel in time to be inserted, no answer of any kind was read before the invalidation |
| MemberCache.InvalidationOvertaken | src/router/fanout.rs:142-150 | In every run with such a reading, the next two steps after the invalidation can insert it and hit on it |
| MemberCache.InvalidationRefreshesIff | src/router/fanout.rs:155-160 | For every run and a positive time to live, all later hits were read at or after the invalidation if and only if no such reading is in flight |
| MemberCache.NewMemberIsMissed | src/router/fanout.rs:142-160 | A run in which a user joins, the channel is invalidated, and the next lookup answers without that user |
| Router.AbsentMembers | src/router/fanout.rs:95-106 | The remote targets are exactly the members with no session here, once each |
| Router.AbsentInOrder | src/router/fanout.rs:96-106 | They stand in the order of the member list |
| Router.RedisBridge.PublishEvent | src/router/redis_bridge.rs:50-61 | A disabled bridge agrees and publishes nothing; otherwise the payload is published exactly if Redis accepts it |
| Router.MessageRouter.GetChannelMembers | src/router/fanout.rs:131-153 | Returns and stores what Found and Filled say, which FetchedIsFound, LookupTouchesOneEntry, LookupIsSteps and FoundIsRecent describe |
| Router.MessageRouter.DeliverLocally | src/router/fanout.rs:95-106 | Every open session of a member gets the event once per listing, the members without one are collected in order |
| Router.MessageRouter.HandleSend | src/router/fanout.rs:73-124 | A failed insert or lookup fails with no delivery; otherwise local members get the message even if publishing fails, and one payload names exactly the absent members if there are any |
| Router.HandleCrossNodeEvent | src/router/redis_bridge.rs:193-229 | An unreadable payload or one's own changes nothing; any other goes to every open session of its targets |
| Delivery.Invariant | src/router/redis_bridge.rs:193-220 | In every reachable state of the network, nothing still on its way to a session is a message that it has, or one whose send was over when that of a message it has began |
| DeliveryRuns.AtMostOnceInOrder | src/router/fanout.rs:94-118 | With any senders interleaving, no session gets a message twice, one whose member list does not name its user, or two messages of a node against the order of sends that do not overlap |
| DeliveryRuns.OneSenderInOrder | src/gateway/handler.rs:137 | Messages of one connection, which awaits each send, arrive in the order they were sent, wherever they arrive |
| DeliveryRuns.OppositeOrdersMeanOverlap | src/router/fanout.rs:96-106 | Two sessions get two messages of a node in opposite orders only if their sends overlap |
| DeliveryOrder.CanCrossIff | src/router/fanout.rs:96-106 | In any reachable state, for two messages sent on one node and reachable sessions of two users there, some continuation gives the sessions the messages in opposite orders if and only if one may get the first before the second and the other the reverse, where a session may get an order if it has it, has only the first and is due the second, or is due both |
| DeliveryOrder.OverlappingSendsCross | src/router/fanout.rs:96-101 | A run of two senders on one node after which two members have their messages in opposite orders |
| DeliveryRuns.OwnTurnDecides | src/router/fanout.rs:96-101 | Any session of a member at the origin has the message, exactly once and from then on, if and only if it can be reached at the push of the member's own turn |
| DeliveryRuns.LocalMembersGetItOnce | src/router/fanout.rs:96-101 | In particular a member's open session at the origin that stays throughout the send has the message exactly once from its end on |
| DeliveryRuns.AbsentMembersArePublished | src/router/fanout.rs:102-118 | A member with no session at the origin throughout the send is a target of the one payload that each link gains at its end, if the node has Redis and publishing succeeds |
| DeliveryRuns.RemoteTargetsGetItOnce | src/router/redis_bridge.rs:202-220 | A target's open session on a node of another id that stays throughout the delivery has the message exactly once from the end of the delivery on |
| DeliveryRuns.AbsentMembersGetItOnce | src/router/redis_bridge.rs:193-220 | From send to inbox: a member absent from the origin throughout the send, whose session on another node stays reachable, has the published message there exactly once as soon as the link is empty and nothing is in delivery, if the link lost nothing |
| DeliveryRuns.OtherNodesGetItOnlyIfAbsent | src/router/fanout.rs:97-110 | A session away from the origin can have a message only if its user was a member, was found without a session at the origin at its turn, and the message was published |

## Left out

- ReadStateTable.UpsertBatch: states the intended effect of the bulk upsert. As written, `UNNEST` at src/db.rs:223 pads `updated_at` with NULL for two or more rows, against the NOT NULL at migrations/001_initial.sql:54.
- ReadStateRuns.AcksAreConserved: a map write and its two counter increments are one step; counters do not overflow, and no claim is made that a chunk that keeps failing is ever written.
- ReadStateRuns.StopKeepsAcks: speaks of the instant at which the server stops; which acks the reader loops still take after the shutdown flush is up to the run.
- RateLimiter.CleanUpIsInvisibleIff: like the other statements about traces takes a new bucket to be full at its first request, which it is unless the rate is negative; tokens are reals, so floating-point rounding is not covered, nor the clock arithmetic at src/ratelimit.rs:67 in the first ten minutes after boot.
- Lifecycle.OneTimerPerUser: a cancelled timer never fires in a run. In the code a cancelled task whose sleep has already elapsed may still take that branch of the `select!`; `Presence.PresenceTracker.Fire` says what it then does.
- Lifecycle.Reachable: Connect, Exit, Reap and Fire are atomic. Between the finer steps of the code (src/gateway/session.rs:130-132, src/gateway/handler.rs:255-256, src/presence/tracker.rs:83-88) another task can slip in, and the invariant does not hold there.
- Lifecycle.ObserversAgree: speaks of the notices of one node; guild membership is an oracle that may fail, and notices from other nodes are not modelled.
- DeliveryRuns.RemoteTargetsGetItOnce: needs different node ids, which the configuration must provide, since a node drops payloads that carry its own id.
- DeliveryRuns.AtMostOnceInOrder: message ids are new, as random UUIDs are; member lists name nobody twice (primary keys of channel and guild membership); the push to all sessions of one user is one step, as the map guard held at src/gateway/session.rs:146-151 makes it for opening and closing; a link is first-in first-out and may lose payloads.
- "Delivered to all devices": not claimed, since a member connected at the origin is never a remote target (src/router/fanout.rs:97-105); `OtherNodesGetItOnlyIfAbsent` says so.
- Session ids are taken to be new, as random UUIDs are.
- Writer tasks and sockets: a session's pipe is the list of events put into it and whether it still has a reader; the READY payload (src/gateway/handler.rs:157-181) is left out as a mere assembly of query results.
- Redis presence keys and their expiry, presence of other nodes, and the merging of several nodes' views.
- Authentication, tokens, configuration, HTTP routes, metrics, logs, process start-up and shutdown wiring: thin wrappers and I/O.
- Message persistence beyond "the insert succeeded or failed"; the REST route stores a message twice (src/routes.rs:169, src/routes.rs:183-186), so no exactly-once storage is claimed.
- JSON encoding, WebSocket framing, SQL text, map sharding and memory ordering.
