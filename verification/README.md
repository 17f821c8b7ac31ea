# The durable session core, verified

This project models the part of the daemon that has to survive: the journals every thread's events are written to, the
delivery of those events to clients that come and go, the broker that proxies host tools, the session host with its
drivers, and the self-contained algorithms beside them (raw-log buffer, path shims, workspace policy, skill store,
writer fence). `dafny verify dfyconfig.toml` checks all of it.

## How it is organised

Each component is a value with one function per operation, and a class whose methods update fields in place as the
original does; every such method is proved to compute its function. What the functions do is then said without them
(in the `_meaning`, `_outcomes` and `_actions` files above all), and the promises are proved step by step and over whole
runs.

| file | what it holds |
|---|---|
| `common.dfy`, `ordered_map.dfy`, `wire.dfy` | small types, the insertion-ordered `Map`, the events and what each means to a journal |
| `log_parser.dfy` | the newline-delimited log: reading damaged, torn and cut files |
| `memory_journal.dfy`, `journal_meaning.dfy` | numbering, replay, eviction, token compaction, the checkpoint fold; what may be let go of and what a checkpoint shows |
| `disk_journal.dfy`, `disk_durability.dfy` | the write-behind journal with its sidecar; disk and memory; crashes |
| `disk_requests.dfy`, `boundary_events.dfy` | what a replay and a restart restore; which state and requests survive a crash |
| `disk_runs.dfy` | the chain of process epochs and rewinding |
| `host_tools.dfy`, `host_tool_outcomes.dfy` | the host-tool broker as a timed machine; what becomes of each call and why |
| `control_registry.dfy` | the read-write seats behind the broker |
| `connection.dfy`, `delivery.dfy`, `fairness.dfy` | one client's queues, end-to-end delivery, round-robin |
| `slow_consumer.dfy`, `attach_order.dfy` | a connection closed too early; where the attach reply stands |
| `cmd_cache.dfy` | command idempotency |
| `thread_actions.dfy` | what each thing that can happen to a thread does, in full |
| `thread_recovery.dfy`, `thread_host.dfy` | closing out after a crash; generations, requests, caps, sends, stopping, restarting |
| `restart.dfy`, `host_runs.dfy` | the host across a crash: what the next process knows and closes; whole runs with their disks |
| `utf8_tail.dfy`, `raw_log.dfy`, `raw_log_meaning.dfy` | the UTF-8 tail of a stream, the raw-log buffer, what each event does to it |
| `paths.dfy`, `workspaces.dfy` | the POSIX path shims, and containment and read-only decisions on top of them |
| `skill_store.dfy`, `skill_store_meaning.dfy` | the content-addressed store with its budget; what staging, committing and pruning leave |
| `writer_fence.dfy` | the persistence hand-over, promise by promise |

## How the world is modelled

- JSON is a codec: printing a record yields no newline and parsing what was printed gives it back; anything may parse
  from other bytes. An event's size is a function of the event. Hashing and case folding in the skill store are
  parameters too.
- A crash keeps the disk and loses memory and buffer; during a write it keeps any prefix of the bytes. Epoch names,
  call ids and request ids are fresh.
- A timer is a deadline: time does not pass a deadline that has not fired. The socket is a byte count that drains by
  any amount at any time. Listeners and `emit` are not re-entrant.
- Texts are their UTF-8 bytes and well-formed; containment of one text in another is containment of the bytes.
- History that no operation reads records what the promises speak of: everything sent (`wire`), everything a journal
  was given (`logs`, `appended`), the journal an attach saw (`attach`), live bytes of dropped queues (`leaked`), the
  token floor of a process (`dropped`), when a call was made (`madeAt`), what a raw-log entry was told (`deltas`) and
  how it left (`trace`), released callbacks (`unblocked`), sends (`delivered`), generations over (`ended`).
- Within a connection a channel's queue is a value; `ChannelSub`, the array with a moving head, is proved to be that
  queue. A driver's fields are kept in the thread's object.
- Containment uses the same resolve and relative as the path shims; symbolic links are resolved before it applies.

## Where the code and its comments part

Each of these has its exact condition and an input.

- Disk and memory can disagree: an append that drops acknowledged tokens without evicting anything leaves them in the
  file until the next rewrite, and a restart brings them back (`DiskDurability.AppendAgrees`, `FlushedSurvives`; input:
  `SilentDropHappens`). No checkpoint is affected.
- An open request, and the state of a running turn, outlive their records within a process but not across a restart
  once the record is evicted (`BoundaryEvents.StateSurvivesCrash`, `RequestsSurviveCrash`; input:
  `EvictedIsForgotten`).
- `compact` reports evictions as removed tokens when the journal is over its bounds once the tokens are gone
  (`MemoryJournal.RemovedCountsTokensIff`; input: `EvictionReportedAsToken`).
- A damaged line that still parses as a record further ahead hides later records
  (`LogParser.DamagedLineLosesOnlyItself`; input: `DamagedNumberHidesTheNext`).
- Live bytes of a queue that a detach or second attach drops are never taken off the counter, so the connection can be
  closed as slow too early (`Delivery.DetachCountsExactly`, `AttachCountsExactly`, `ClosedTooEarlyIff`; input:
  `SlowConsumers.ClosedTooEarly`).
- The attach reply does not precede the attach's frames when the claim makes a waiting host-tool call go out
  (`AttachOrder.ReplyBeforeFramesIff`, `ReplyIsFirstIff`; input: `CallOvertakesReply`).
- Two installs sharing a token can see each other's cached replies when one instance id, cut to 128 characters,
  continues the other with a NUL (`CmdCache.InstallsShareRepliesIff`; input: `InstallsCanShareReplies`). Clients with
  different tokens never do.
- A message id is accepted once within a process, but a message of an earlier process runs again whenever it can run at
  all (`Restarts.OldMessageRunsAgain`; input: `MessageRunsTwice`).
- A workspace folder whose name begins with two dots is refused (`Workspaces.WithinIff`; input:
  `DottedFolderRefused`).
- A stop without a turn in flight leaves streamed text open, and the next start reports a turn that was never running
  (`ThreadHosts.StopLeavesNothingOpen`; input: `TextOutlivesStop`).
- Making room for a commit can discard the very upload being committed when it is over a day old; the commit is then
  refused (`SkillStores.CommitCreatesIff`; input: `StaleUploadIsRefused`).

## Model

| member | source | states |
|---|---|---|
| `LogParser.ReadEntries` | daemon/diskJournal.ts:296-325 | The byte loop with its five counters computes the specification of reading: the entries accepted line by line, the bytes up to the last accepted record, and the number of rejected lines that have an accepted record behind them. |
| `LogParser.ReadIncreasing` | daemon/diskJournal.ts:310-320 | Whatever bytes are on disk, the sequence numbers read back are positive and strictly increasing. |
| `LogParser.TruncateIsIdempotent` | daemon/diskJournal.ts:258-265 | Truncating the file to `validBytes` and reading again gives the same entries, the same length and the same skip count. |
| `LogParser.LinesOfCut` | daemon/diskJournal.ts:305-308 | Whole lines cut at any byte offset: exactly those whose newline is inside the cut survive. |
| `LogParser.WholeLinesIsLargest` | daemon/diskJournal.ts:305-308 | The number of whole lines in a cut is the largest count whose lines fit in it. |
| `LogParser.CutAppend` | daemon/diskJournal.ts:131-142 | A write behind a clean log, cut at any byte: exactly the records whose newline is inside the cut are read back after everything that was there, and nothing counts as damage. |
| `LogParser.CleanAppend` | daemon/diskJournal.ts:184-188 | A completed write behind a clean log leaves a clean log holding both. |
| `LogParser.RoundTrip` | daemon/diskJournal.ts:231-235 | A serialized log reads back as exactly the entries written, with no skip and no torn tail. |
| `LogParser.AcceptWritten` | daemon/diskJournal.ts:310-321 | Records written behind any lines, accepted or not, are all accepted as long as their numbers go on from the last one accepted. |
| `LogParser.DamagedLine` | daemon/diskJournal.ts:315-323 | One rejected line between two runs of records loses that line only: it counts as skipped when a record follows and as torn tail when none does. |
| `LogParser.DamagedLineBelieved` | daemon/diskJournal.ts:310-325 | The opposite case, read in full: a damaged line that still decodes to a record numbered past the one before is believed, what is read is the records before it, that record and the later ones numbered past it, and the ones it overtakes are counted as skipped when a record follows them. |
| `LogParser.DamagedLineLosesOnlyItself` | daemon/diskJournal.ts:16-20 | "A damaged middle line loses only that line": true if and only if the line does not decode, or decodes to a number not past the record before it, or nothing follows, or it decodes below the next record, or to that very record. |
| `LogParser.DamagedNumberHidesTheNext` | daemon/diskJournal.ts:310-312 | For every codec: a record whose number was damaged from 2 to 9 hides the record numbered 3 behind it. |
| `MemoryJournal.AppendedValid` | src/protocol/journal.ts:175-184 | An append takes the next number, never lowers the low-water mark or the ack, folds exactly the new entry into the checkpoint, and keeps the retained entries increasing and above the mark with the byte count exact. |
| `MemoryJournal.CompactedFrame` | src/protocol/journal.ts:201-207 | Compaction touches nothing but the retained entries and the mark, which only rises. |
| `MemoryJournal.EvictCountIsLeast` | src/protocol/journal.ts:265-284 | The evicted prefix is the shortest one that brings the journal within its bounds. |
| `MemoryJournal.AppendedWithinBounds` | src/protocol/journal.ts:265-284 | After every append at most `maxEntries` are retained, and at most `maxBytes` unless a single entry is larger. |
| `MemoryJournal.FoldWithoutTokens` | src/protocol/journal.ts:220-236 | Leaving tokens out of a history changes nothing in the checkpoint but the streamed text. |
| `MemoryJournal.CompactionInvisible` | src/protocol/journal.ts:238-252 | Dropping the tokens below a retained finisher changes nothing of what a reader makes of the log, whatever it held before. |
| `MemoryJournal.AckFloorIsFinisher` | src/protocol/journal.ts:238-246 | The drop floor is an acknowledged message or turn end that is still retained. |
| `MemoryJournal.AckFloorIsNewest` | src/protocol/journal.ts:238-246 | No acknowledged finisher is newer than the floor. |
| `MemoryJournal.RestoredValid` | src/protocol/journal.ts:149-168 | Restoring any increasing entries under any watermarks gives a journal that satisfies every rule an appended one does. |
| `MemoryJournal.InMemoryJournal.Append` | src/protocol/journal.ts:175-184 | The object appends exactly as the specification says and returns the entry with the next number. |
| `MemoryJournal.InMemoryJournal.Compact` | src/protocol/journal.ts:201-207 | The object compacts exactly as the specification says, which `JournalMeaning.CompactionLetsGoOf` spells out. |
| `MemoryJournal.RemovedCountsTokensIff` | src/protocol/journal.ts:201-207 | What `compact` reports is the tokens it dropped plus the entries its bounds evicted: the number of removed tokens if and only if the journal is within its bounds once the tokens are gone. |
| `MemoryJournal.WithinBoundsCountsTokens` | src/protocol/journal.ts:201-207 | A journal within its bounds, as every append leaves it, is counted right whatever expires. |
| `MemoryJournal.EvictionReportedAsToken` | src/protocol/journal.ts:201-207 | A journal restored with two turn ends under room for one: one removed token is reported and no token was there. |
| `MemoryJournal.InMemoryJournal.EnforceBounds` | src/protocol/journal.ts:265-284 | The loop over counters evicts exactly the least prefix, compacting tokens first when asked. |
| `MemoryJournal.InMemoryJournal.ReplayAfter` | src/protocol/journal.ts:186-194 | Replay gives the retained entries past the cursor in order, or a resync exactly when the cursor is below the mark. |
| `JournalMeaning.ExpiresOldest` | src/protocol/journal.ts:254-261 | What expires is exactly the entries before the first one young enough: each of them older than the age, that one not, and none without an age limit; the mark is the last one gone. |
| `JournalMeaning.CompactionLetsGoOf` | src/protocol/journal.ts:201-207 | A compaction lets go of the expired prefix, of exactly the tokens with an acknowledged message or turn end behind them, and only past a bound of the shortest prefix of the rest; of nothing else. |
| `JournalMeaning.AppendLetsGoOf` | src/protocol/journal.ts:263-284 | An append within the bounds lets go of nothing; past one, of the redundant tokens first and then of the shortest prefix that brings the journal back, the newest entry that went being one too many. |
| `JournalMeaning.AckIsMonotonic` | src/protocol/journal.ts:196-199 | An ack never goes back and never past what was appended, and is taken as it is in between. |
| `JournalMeaning.ReplayIsExact` | src/protocol/journal.ts:186-194 | A replay is a resync exactly for a cursor below the mark, and otherwise all that is retained past the cursor, in order. |
| `JournalMeaning.CheckpointMeans` | src/protocol/journal.ts:220-236 | What a checkpoint shows of its history: the requests opened and since neither closed nor opened again, each once; the last session state; the text streamed since the last message or turn end; the last messages, as many as it keeps. |
| `JournalMeaning.OpenedKeepsPlace` | src/protocol/journal.ts:231 | A request opened again keeps its place among the open ones; a new one goes last. |
| `JournalMeaning.ClosedKeepsOrder` | src/protocol/journal.ts:232 | Closing a request leaves the others in their order. |
| `DiskJournals.DiskJournal.Open` | daemon/diskJournal.ts:85-102 | Opening on any disk computes the recovery specification. |
| `DiskJournals.DiskJournal.Append` | daemon/diskJournal.ts:131-143 | Append updates memory, buffer, rewrite flag and file as specified, flushing at boundary events and when a rewrite is owed. |
| `DiskJournals.DiskJournal.Flush` | daemon/diskJournal.ts:179-191 | Flush rewrites or extends the file, empties the buffer and refreshes the sidecar when told to or when the mark moved. |
| `DiskJournals.DiskJournal.Compact` | daemon/diskJournal.ts:153-160 | Compaction is followed by a full rewrite exactly when something was removed or the file lags behind the mark. |
| `DiskJournals.DiskJournal.RewindFor` | daemon/diskJournal.ts:110-116 | The search over the epoch chain answers the restart point of the process after the client's, when the client is ahead of it. |
| `DiskJournals.ViewFolds` | src/protocol/journal.ts:149-168 | The checkpoint restored by folding the retained entries is the one folded from the whole log above the mark, token drops or not. |
| `DiskDurability.FlushKeepsInv` | daemon/diskJournal.ts:179-191 | A flush keeps file, sidecar and memory matching. |
| `DiskDurability.FlushWrites` | daemon/diskJournal.ts:179-191 | A flush writes the buffered lines behind the file, or what is retained in its place when a rewrite is owed, and the sidecar exactly when told to sync; nothing waits after it. |
| `DiskDurability.AppendKeepsInv` | daemon/diskJournal.ts:131-143 | An append keeps file, buffer, sidecar and memory matching. |
| `DiskDurability.AppendAgrees` | daemon/diskJournal.ts:131-143 | After an append the entries on disk above the mark, with the buffer, are exactly those in memory if and only if the append did not drop acknowledged tokens without raising the mark. |
| `DiskDurability.SilentDropHappens` | daemon/diskJournal.ts:131-143 | Such an append exists: with room for two entries an acknowledged message makes a token droppable, memory drops it and the file keeps it. |
| `DiskDurability.AckKeepsInv` | daemon/diskJournal.ts:147-151 | An ack keeps file, sidecar and memory matching. |
| `DiskDurability.CompactKeepsInv` | daemon/diskJournal.ts:153-160 | Compaction keeps them matching, keeps agreement, and restores it whenever it removes anything. |
| `DiskDurability.OpenEstablishesInv` | daemon/diskJournal.ts:258-285 | Whatever bytes and sidecar a disk holds, opening it with a new epoch makes file, sidecar and memory agree and records the epoch on disk at once. |
| `DiskDurability.CrashRecovers` | daemon/diskJournal.ts:179-191 | A crash between calls or at any byte of a write: recovery restores exactly the entries in the file and the buffered ones whose line was complete, under the same mark and ack. |
| `DiskDurability.FlushedSurvives` | daemon/diskJournal.ts:193-210 | After a synced flush and a crash a new process has the same last number, ack and mark and the checkpoint of what was retained; the entries are the same if and only if disk and memory agreed or a rewrite was owed, and otherwise differ by the silently dropped tokens. |
| `DiskRequests.RefoldKeepsLateRequests` | src/protocol/journal.ts:119-122 | Folding again from above the mark keeps exactly the open requests whose record is above it. |
| `DiskRequests.RequestsAcrossRestart` | src/protocol/journal.ts:119-122 | Of the open requests, a fold of what is retained keeps exactly those whose record was not evicted. |
| `DiskRequests.ReplayCatchesUp` | src/protocol/journal.ts:186-194 | A client holding the checkpoint the journal had at its cursor and folding in what is replayed past it holds the journal's checkpoint of now, whatever eviction and token compaction left out of the replay. |
| `BoundaryEvents.AllDoneKeepsLife` | daemon/threadHost.ts:107-111 | Through any appends, flushes, acks and compactions of a process opened on any disk, no boundary event ever waits in the buffer, and disk, memory and history keep matching. |
| `BoundaryEvents.NoBoundaryEventIsLost` | daemon/threadHost.ts:101-111 | Turn ends, session states and opened and closed requests and calls are never lost to a crash: each one the process retained is restored, at whatever byte it died. |
| `BoundaryEvents.AppendWritesIff` | daemon/diskJournal.ts:131-143 | An append reaches the disk at once, with all that waited, exactly for such an event or when the file is behind the mark; otherwise the disk is left alone and the entry waits. |
| `BoundaryEvents.StateSurvivesCrash` | daemon/threadHost.ts:101-111 | After a crash at any byte of a write, at any moment of such a process, the next one restores the session state it knew if and only if its record was not evicted, and none otherwise. |
| `BoundaryEvents.RequestsSurviveCrash` | daemon/threadHost.ts:101-111 | After such a crash the next process restores exactly the open requests whose record was not evicted; so all of them come back if and only if none lies at or below the mark. |
| `BoundaryEvents.EvictedIsForgotten` | daemon/threadHost.ts:101-111 | A process that started a turn and asked for a permission with room for one entry: in memory the turn runs and the request is open, after a crash neither is known. |
| `DiskRuns.StepKeepsInv` | daemon/diskJournal.ts:131-160 | Every step of the machine (append, flush, ack, compact, crash at any byte, reopen under a fresh epoch, loss of the sidecar, any damage to the log) keeps the machine and the family of process histories consistent. |
| `DiskRuns.ResumeIsCut` | daemon/diskJournal.ts:110-116 | Under an epoch in the chain the cursor a client may keep is its own, cut at the start of the next process, and that start is the lowest of all later ones. |
| `DiskRuns.RewindIsSound` | daemon/diskJournal.ts:104-116 | In every run, damage of any kind to the log included, for a client that applied history up to `afterSeq` under any process in the chain: the cursor it may keep lies within today's history, all it applied up to there is what that history says, no later process gave out a number at or below it, and every record memory holds there is the one it applied, unless damage made that record up. |
| `DiskRuns.RewindReachesBack` | daemon/diskJournal.ts:104-116 | In every run rewinding reaches each of the last sixteen processes, as long as the sidecar was not lost since it began: a client of any of them is sent back exactly to where the next one started when it is ahead of that, and the cursor it then has is safe. |
| `DiskRuns.ChainReaches` | daemon/diskJournal.ts:333-341 | Over any steps that do not lose the sidecar every process that opened the journal is in its chain, up to sixteen. |
| `DiskRuns.ChainCoversRestart` | daemon/diskJournal.ts:333-341 | The chain always ends in the current process and grows by one a restart up to its cap. |
| `HostTools.StepKeepsInv` | daemon/hostTools.ts:94-264 | Every step (seat, manifest, call, answer, abort, cancel, shutdown, tick, either timer) keeps the deadlines, the journal account, the limit of eight and the attach rule. |
| `HostTools.EveryCallSettlesOnce` | daemon/hostTools.ts:166-193 | In every run a call made at some time is settled at most once, never later than grace plus timeout after it was made, and has been settled once that much time has passed. |
| `HostTools.DeadlinesFollowSeat` | daemon/hostTools.ts:94-108 | In every reachable state an open call of an attached thread is issued with no grace deadline, one of a detached thread has a grace deadline, and an issued one an answer deadline within the bound. |
| `HostTools.JournalBalances` | daemon/hostTools.ts:231-264 | In every reachable state the calls open in the journal are exactly the issued pending ones; a settled call was opened and closed once each if issued and never otherwise; no thread has more than eight open. |
| `HostTools.IssueEventsOpen` | daemon/hostTools.ts:97-101 | An attach opens in the journal exactly the thread's calls that were waiting, once each. |
| `HostTools.FinishKeepsCore` | daemon/hostTools.ts:238-246 | Settling a call with at most one closing event, given exactly when it had been issued, keeps every account. |
| `HostTools.HostToolBroker.SetAttached` | daemon/hostTools.ts:94-108 | The loop over the pending map moves every call of the thread between its deadlines and issues the waiting ones in order. |
| `HostTools.HostToolBroker.Run` | daemon/hostTools.ts:167-193 | A call is turned away for each reason the original gives, or left pending under the fresh id, issued at once when attached. |
| `HostTools.HostToolBroker.Resolve` | daemon/hostTools.ts:199-210 | An answer settles the call and closes its request exactly when that call was issued, waits, and belongs to the answering thread; any other answer is turned down and changes nothing. |
| `HostTools.HostToolBroker.Fail` | daemon/hostTools.ts:249-256 | A call whose timer fires is settled as unavailable, cancelled in the journal when it had been issued, and reported. |
| `HostTools.HostToolBroker.CancelAll` | daemon/hostTools.ts:213-221 | The loop cancels exactly the open calls of the thread, or all of them. |
| `HostToolOutcomes.StepDoes` | daemon/hostTools.ts:94-264 | Every step, every call, in full: which calls it settles, with which outcome and closing event; which it takes; and how the deadlines and the issuing of each other call follow its client. |
| `HostToolOutcomes.OutcomesHaveCauses` | daemon/hostTools.ts:199-256 | Over every run a call is settled with an outcome if and only if some step settles it so: answered, as the client said, by an answer from its thread after it was issued; cancelled by an abort, its thread's cancellation or the shutdown; unavailable by the timer that fired. |
| `HostToolOutcomes.JournalTellsOutcome` | daemon/hostTools.ts:231-264 | Over every run all the journal is told of a call is its opening, if it was issued, and once settled the closing that goes with its outcome, on its own thread. |
| `HostToolOutcomes.RefusedBecause` | daemon/hostTools.ts:167-193 | Each reason a call is turned away for, in the original's order, and that a call is taken exactly when none applies and fewer than eight are open. |
| `HostToolOutcomes.OpenCallsCounts` | daemon/hostTools.ts:167-193 | The count the limit is held against is the number of the thread's own open calls. |
| `HostToolOutcomes.IssuesInOrder` | daemon/hostTools.ts:97-101 | An attach opens the waiting calls of the thread, each once, in the order they were made. |
| `HostToolOutcomes.SeatsAsTold` | daemon/hostTools.ts:117-141 | Seats, owners and manifests change only as told, and only for the thread told of. |
| `ControlRegistries.AttachedIffSeatSuppliedManifest` | daemon/controlRegistry.ts:45-74 | In every run over registry and broker a thread counts as attached exactly while the connection seated on it is the last one that supplied its manifest. |
| `ControlRegistries.DaemonStepKeepsInv` | daemon/server.ts:201 | Every claim, release, disconnect, manifest and call keeps the broker's seats equal to the registry's owners. |
| `ControlRegistries.ClaimTakesSeat` | daemon/controlRegistry.ts:45-51 | A claim changes exactly the claimed seat, and only when it is free or held by the same client; a refused claim changes nothing anywhere. |
| `ControlRegistries.SeatChanges` | daemon/controlRegistry.ts:45-74 | Who sits where after each step, for every thread: a claim takes a seat that is free, its own connection's, or its own client's; a release or a disconnect frees exactly what that connection holds; nothing else moves anyone. |
| `ControlRegistries.DisconnectFreesSeats` | daemon/controlRegistry.ts:68-74 | After a disconnect exactly the connection's own seats are free and nobody else's moved. |
| `ControlRegistries.ControlRegistry.ClaimSeat` | daemon/controlRegistry.ts:45-51 | The object claims as specified and tells the broker exactly when the holder changed. |
| `ControlRegistries.ControlRegistry.ReleaseAll` | daemon/controlRegistry.ts:68-74 | The loop over the owners frees exactly the connection's seats, telling the broker of each. |
| `Connections.ServedGet` | daemon/connection.ts:715-735 | Serving a channel takes exactly the first frame of its own queue and leaves every other queue and every attach as it was. |
| `Connections.SentShrinks` | daemon/connection.ts:698-713 | Every frame handed to the socket lowers what waits by one, so pumping ends. |
| `Connections.ChannelSub.Push` | daemon/connection.ts:665 | An item pushed goes behind everything not yet taken. |
| `Connections.ChannelSub.Next` | daemon/connection.ts:209-218 | Taking an item is taking the head of a plain queue, whether or not the array is compacted. |
| `Connections.Connection.Next` | daemon/connection.ts:715-735 | The object gives the specified next frame: replies first, then one channel's turn with rotation, with the live counter lowered by what was freed. |
| `Connections.Connection.Pump` | daemon/connection.ts:698-713 | The loop sends until the socket is full or nothing waits. |
| `Connections.Connection.OnLive` | daemon/connection.ts:662-673 | A live event is queued behind the backlog and pumped, or the connection closed when the bound is passed. |
| `Connections.Connection.AttachChannel` | daemon/connection.ts:626-650 | An attach queues a resync, or the reopened requests and the backlog, and replaces any earlier attach. |
| `Connections.RepliesGoFirst` | daemon/connection.ts:715-718 | A reply that waits goes before any channel's frame, and the channels wait on. |
| `Connections.PumpedUntilFull` | daemon/connection.ts:698-713 | Frames go out while the socket holds less than 256 KiB and one waits, and not otherwise. |
| `Connections.ArrivalClosesIff` | daemon/connection.ts:662-673 | An arrival closes the connection exactly when what is counted live, with it, and what the socket holds pass the bound. |
| `Connections.ReplyClosesIff` | daemon/connection.ts:685-696 | A reply closes it exactly when the replies waiting, with it, pass the bound. |
| `Connections.NothingWaitsForRoom` | daemon/connection.ts:662-713 | Whatever wakes the connection leaves it closed, its socket full, or nothing waiting. |
| `Delivery.StepKeepsInv` | daemon/connection.ts:618-735 | Every append, ack, compaction, attach, detach, reply and drain keeps what was sent and what waits equal to what is owed, and the counters within bounds. |
| `Delivery.OwedInFull` | daemon/connection.ts:634-648 | What an attach is owed, spelled out: reopened requests at or below the cursor, flagged, then the retained entries past it, then every later append. |
| `Delivery.OwedFrameByFrame` | daemon/connection.ts:634-648 | Frame by frame: first the open requests at or below the cursor, each once, flagged as reopened and in the checkpoint's order; then what is retained past the cursor, as replays; then what was appended since, live. |
| `Delivery.ReopensWhatMayBeSeen` | daemon/connection.ts:641-646 | An attach is handed again exactly the open requests at or below its cursor. |
| `Delivery.DeliveryIsExact` | daemon/connection.ts:618-673 | In every run what an attach was sent is a prefix of what it is owed, and all of it once nothing waits; the live part is exactly what its journal was given since; the numbers strictly increase past the cursor. |
| `Delivery.QueuesStayBounded` | daemon/connection.ts:662-696 | In every run an open connection queues no more reply bytes, and no more live bytes, than its bound however long the backlog; the reply counter is exact and the live counter never too low. |
| `Delivery.ClientCatchesUp` | daemon/connection.ts:634-650 | In every run a client that held the checkpoint of its cursor, or that is resynced whatever it held, has been brought to exactly the journal's checkpoint once nothing waits, evictions, token drops and reopened requests notwithstanding. |
| `Delivery.DetachCountsExactly` | daemon/connection.ts:525-531 | The live counter stays exact across a detach if and only if the dropped queue held no live text. |
| `Delivery.AttachCountsExactly` | daemon/connection.ts:626-650 | And across an attach that replaces a queue, under the same condition. |
| `Delivery.ClosedTooEarlyIff` | daemon/connection.ts:662-673 | An arrival closes the connection although everything queued and in the socket is within the bound if and only if the bytes of dropped queues make up the difference. |
| `SlowConsumers.ClosedTooEarly` | daemon/connection.ts:662-673 | A run of six steps (attach, two events against a full socket, detach, attach again, one event) closes the connection with 462144 of 600000 bytes in use. |
| `Fairness.ServedBringsCloser` | daemon/connection.ts:718-733 | Every frame another channel sends brings a waiting channel strictly closer to its turn. |
| `Fairness.NoChannelStarves` | daemon/connection.ts:718-733 | With no reply waiting, a channel with anything queued is served within 2n - 1 calls for n channels, whatever arrives in between. |
| `AttachOrder.PumpRests` | daemon/connection.ts:698-713 | After pumping the socket is full or nothing waits, and what was sent has only grown. |
| `AttachOrder.ClaimIssuesIff` | daemon/connection.ts:654-655 | In every reachable daemon a claim appends to the thread's journal if and only if it may claim, the seat was not already its own, it owns the manifest, nobody is attached, and some pending call of the thread was not issued. |
| `AttachOrder.ReplyBeforeFramesIff` | daemon/connection.ts:649-659 | For an attach to any reachable daemon: nothing has gone out when its reply is queued if and only if it claims nothing, its claim makes no waiting call go out, or the socket is full. |
| `AttachOrder.ReplyIsFirstIff` | daemon/connection.ts:657-659 | With room in the socket the reply is the first frame out if and only if the claim makes no waiting call go out; otherwise the attach's own frame is. |
| `AttachOrder.CallOvertakesReply` | daemon/connection.ts:525-531 | A connection opens a session, detaches, a call waits, and it attaches again on an empty socket: the call's frame goes out before the attach reply. |
| `CmdCache.KeyInScope` | daemon/cmdCache.ts:21-23 | Within a scope different command ids never share a key. |
| `CmdCache.ScopesCollideIff` | daemon/cmdCache.ts:21-23 | Commands of two scopes can share a key if and only if one scope starts with the other followed by a NUL. |
| `CmdCache.InstallsShareRepliesIff` | daemon/connection.ts:271-274 | Whatever two clients send in `hello`: they can see each other's replies if and only if they use one token and the kept instance ids are the same, or one continues the other with a NUL. |
| `CmdCache.TokensNeverShareReplies` | daemon/tokenStore.ts:148 | Clients with different tokens never see each other's replies, whatever instance ids they send. |
| `CmdCache.LongInstancesAreOne` | daemon/connection.ts:369 | Two instance ids are one to the daemon exactly when they are equal or agree in their first 128 characters. |
| `CmdCache.InstallsCanShareReplies` | daemon/connection.ts:271-274 | Two installs of one token that do see each other's replies: instance ids `x`, and `x` NUL `y`. |
| `CmdCache.SweepInvisible` | daemon/cmdCache.ts:52-55 | Sweeping never changes what a lookup answers, then or later. |
| `CmdCache.LookupInvisible` | daemon/cmdCache.ts:25-34 | Neither does the expiry done by looking another key up. |
| `CmdCache.StepKeepsInv` | daemon/connection.ts:392-417 | Every command, settled promise, tick and sweep keeps the cache remembering the last run of each key. |
| `CmdCache.AtMostOnce` | daemon/connection.ts:392-417 | In every run two dispatches of one key are more than the time to live apart, counted from the first one's reply; until then a retry gets that very reply or joins the running command. |
| `CmdCache.CommandCache.Get` | daemon/cmdCache.ts:25-34 | The object answers as specified, dropping an expired entry. |
| `CmdCache.CommandCache.Sweep` | daemon/cmdCache.ts:52-55 | The loop drops exactly the entries past the cutoff. |
| `Paths.NormalizeParts` | scripts/mobile-node-shims.js:28-37 | The push-and-pop loop computes the specified normal parts. |
| `Paths.NormalizePieceFirst` | scripts/mobile-node-shims.js:28-37 | Normalizing a piece first never changes the result: whatever it is appended to, the normal parts are those of the piece as written. |
| `Paths.ResolvePaths` | scripts/mobile-node-shims.js:52-57 | The loop from the last argument back gathers up to the first absolute one and yields the specified path. |
| `Paths.ResolveIsFixpoint` | scripts/mobile-node-shims.js:52-57 | A resolved path resolves to itself and has no empty, `.` or `..` segment. |
| `Paths.RelativePath` | scripts/mobile-node-shims.js:70-74 | The loop over the common prefix computes the specified relative path. |
| `Paths.RelativeRoundTrip` | scripts/mobile-node-shims.js:70-74 | For all strings, resolving `from` with `relative(from, to)` gives `resolve(to)`. |
| `Paths.NormalizeIdempotent` | scripts/mobile-node-shims.js:41-47 | For all strings, normalizing twice is normalizing once. |
| `Paths.NormalizeIsPlain` | scripts/mobile-node-shims.js:41-47 | A normalized path is its parts joined: none empty or `.`, climbing ones only in front and only in a relative path, a lone `.` when there are none, with its slashes in front and behind kept. |
| `Paths.ResolveStartsAtLastAbsolute` | scripts/mobile-node-shims.js:52-57 | Resolving starts at the last absolute argument, or the root, and walks along each argument from there on. |
| `Paths.NormalizeKeepsMeaning` | scripts/mobile-node-shims.js:41-47 | For all strings, normalizing does not change what a path resolves to, alone or against any base. |
| `Paths.JoinWalks` | scripts/mobile-node-shims.js:48-51 | Joining any number of paths leads where walking along each in turn leads, whether or not a later one looks absolute. |
| `Workspaces.WithinIff` | daemon/sessionPolicy.ts:83-86 | A target is within a root if and only if the root's segments are a prefix of its own and its next segment, if any, does not begin with two dots. |
| `Workspaces.DottedFolderRefused` | daemon/sessionPolicy.ts:83-86 | Under any root a folder whose name begins with two dots is inside and refused. |
| `Workspaces.RootsOrdered` | daemon/sessionPolicy.ts:138-147 | Of two resolved roots holding one path the shorter string is the ancestor: length orders them as depth does. |
| `Workspaces.IsReadOnlyPath` | daemon/sessionPolicy.ts:138-151 | The two passes answer true if and only if some read-only root holding the path is at least as long as every read-write root holding it. |
| `Workspaces.OrderAndRepeatsDoNotMatter` | daemon/sessionPolicy.ts:138-151 | The decision depends only on which roots are listed, not on order or repeats. |
| `Workspaces.MostSpecificRootWins` | daemon/sessionPolicy.ts:133-137 | Over resolved roots a path is read-only if and only if a read-only root holds it with no strictly deeper read-write root inside. |
| `Utf8Tails.TailOf` | src/CodexRawLog.ts:17-22 | The loop finds the character boundary the specification names. |
| `Utf8Tails.BoundaryNear` | src/CodexRawLog.ts:19-20 | In well-formed UTF-8 (section 4 of RFC 3629) the next boundary is at most three bytes on, and the text behind it is well-formed. |
| `Utf8Tails.TailIsTight` | src/CodexRawLog.ts:17-22 | The tail is a well-formed suffix, at most the limit long, at most three bytes shorter than it could be, and the whole text when that fits. |
| `Utf8Tails.StreamingIsBatch` | src/CodexRawLog.ts:62-72 | Keeping the tail delta by delta gives the tail of the whole concatenation. |
| `RawLog.RecordKeeps` | src/CodexRawLog.ts:31-75 | Recording any event keeps the byte counter the sum over the pending entries, the buffer within 4 MiB and 128 entries, every entry truthful, and adds exactly the text told to exactly one account. |
| `RawLog.NothingUnaccounted` | src/CodexRawLog.ts:31-106 | Over every run and for every stream, what was told is exactly what left (reported, contained, superseded or cleared) followed by what is pending, in the order told. |
| `RawLog.FateJustified` | src/CodexRawLog.ts:45-53 | An entry of a completed item is dropped unreported only when its tail is untruncated, so that the item contains everything the entry was told. |
| `RawLog.ReportAddsUp` | src/CodexRawLog.ts:97-106 | A stream's report carries the tail of all it was told, and its byte count is retained plus omitted. |
| `RawLog.SweptExactly` | src/CodexRawLog.ts:77-82 | The loops take out exactly the entries they pick, oldest first, and leave the others in order. |
| `RawLog.EnforcedDropsLeast` | src/CodexRawLog.ts:84-89 | The budget is restored by reporting the shortest oldest-first prefix; the loop never meets an empty map. |
| `RawLogMeaning.TurnCompletedDoes` | src/CodexRawLog.ts:41-42 | The end of a turn: exactly the entries of that thread and turn are reported, oldest first, then the event is written; the others stay. |
| `RawLogMeaning.ItemCompletedDoes` | src/CodexRawLog.ts:43-51 | A completed item: exactly its entries leave; of one the item shows in full nothing is written, of any other its report; then the event. |
| `RawLogMeaning.SessionEndDoes` | src/CodexRawLog.ts:77-82 | The end of the session: everything is reported, or let go of silently when there is no one to tell. |
| `RawLogMeaning.DiffDoes` | src/CodexRawLog.ts:52-61 | A diff replaces the one before it, unwritten: the event itself is buffered, or of one over 512 KiB the tail; it goes last, and the oldest are reported until 4 MiB and 128 entries hold. |
| `RawLogMeaning.DeltaDoes` | src/CodexRawLog.ts:62-73 | A delta joins what its stream was told before: the last 64 KiB are kept, all of it is counted, the stream goes last, and the budget is restored the same way. |
| `RawLogMeaning.OthersDo` | src/CodexRawLog.ts:34-41 | The deltas of a message are not logged; an event of no thread or turn, or of another kind, is written as it is. |
| `RawLogMeaning.MutedDoes` | src/CodexRawLog.ts:32 | With no one to tell, all that is buffered is forgotten and nothing is written. |
| `RawLog.CodexRawLog.Record` | src/CodexRawLog.ts:31-75 | The object records as specified, branch by branch, and what it writes is exactly what the account of the run emits. |
| `RawLog.CodexRawLog.Flush` | src/CodexRawLog.ts:77-82 | The loop over the map flushes the entries of the turn, or all of them. |
| `RawLog.CodexRawLog.EnforceBudget` | src/CodexRawLog.ts:84-89 | The loop ends within budget and computes the specified eviction. |
| `WriterFence.StepKeepsInv` | src/PersistenceWriterFence.ts:12-30 | Every claim, write, microtask and settled operation keeps the promises one chain in which nothing moves before its predecessor settled and no `catch` rejects. |
| `WriterFence.AdmittedRunInOrder` | src/PersistenceWriterFence.ts:22-30 | In every run the admitted operations start and end one at a time in admission order, even when some fail. |
| `WriterFence.NeverStuck` | src/PersistenceWriterFence.ts:28 | While anything is outstanding something can move: a failed operation never blocks a later one. |
| `WriterFence.AdmitsOnlyCurrent` | src/PersistenceWriterFence.ts:12-30 | An operation is admitted exactly when written under the current token, behind all admitted before; a claim makes a token no one has yet the current one. |
| `WriterFence.AllAdmittedRan` | src/PersistenceWriterFence.ts:22-30 | Once nothing is outstanding every admitted operation has started and ended. |
| `WriterFence.HandOver` | src/PersistenceWriterFence.ts:12-30 | Once a new token has claimed and a later `drain` has settled, every operation of an older token has ended and none ever starts. |
| `WriterFence.PersistenceWriterFence.Write` | src/PersistenceWriterFence.ts:22-30 | A write is admitted if and only if its token is current, and is then chained behind everything admitted before. |
| `SkillStores.PruneSpares` | daemon/skillStore.ts:155-185 | Pruning never removes a tree a live session names and changes no tree; every unused tree past the age is gone; exactly the uploads older than a day are discarded. |
| `SkillStores.PruneIsLru` | daemon/skillStore.ts:175-183 | A tree the budget takes was touched no later than any unused tree it leaves. |
| `SkillStores.PruneEnds` | daemon/skillStore.ts:173-185 | Pruning ends within the budget or with nothing but trees in use. |
| `SkillStores.PruneTakesLeast` | daemon/skillStore.ts:175-183 | With the last tree the budget took still there, the store would be over it. |
| `SkillStores.PutKeeps` | daemon/skillStore.ts:236-255 | Staging never changes a file that is there, succeeds only with every file in place, and keeps the upload within 20 MiB, even when it stops half way. |
| `SkillStoreMeaning.PutDoes` | daemon/skillStore.ts:93-105 | A frame is staged up to the first file refused (its name used, too much, something in its way, there with other content): the upload then holds what was there, untouched, and the accepted files as they were sent, content and mode. |
| `SkillStoreMeaning.StageDoes` | daemon/skillStore.ts:82-92 | A chunk of at most two thousand files, none deeper than twelve directories, joins its upload; a bad one changes nothing, and no other upload moves. |
| `SkillStoreMeaning.WriteDoes` | daemon/skillStore.ts:236-255 | One file is staged as sent or left as it is there, and the upload is touched exactly when its top level changes. |
| `SkillStoreMeaning.PruneDoes` | daemon/skillStore.ts:155-185 | Tree by tree and upload by upload: an upload stays exactly when touched within a day, a tree in use always, an old unused one never, and every other when that is within the budget; what stays is unchanged. |
| `SkillStoreMeaning.CommitDoes` | daemon/skillStore.ts:108-152 | What a commit that creates nothing leaves behind, branch by branch: nothing changed for a bad name or a missing upload; the tree of that name touched and the upload dropped; an upload not as claimed, or without room, dropped. |
| `SkillStores.CommitCreatesIff` | daemon/skillStore.ts:108-152 | A commit creates a tree if and only if the name is of the claimed hash and free, the upload is there and verifies, and it fits as it is, or fits once room is made and was touched within a day of that. |
| `SkillStores.StaleUploadIsRefused` | daemon/skillStore.ts:108-152 | An upload a day and a millisecond old, in a store over its budget: it fits once the old tree is pruned, but the same pruning discards it and the commit is refused; touched a millisecond later it is committed. |
| `SkillStores.CommitCreates` | daemon/skillStore.ts:125-151 | A commit that creates a tree ends within the budget with exactly the uploaded files, of the claimed hash, under the name and the upload gone; they are there unless the prune age passed during the commit and no session names them. |
| `SkillStores.StepKeeps` | daemon/skillStore.ts:70-185 | No sync, put, commit or prune changes a tree's files or an upload's staged ones, or removes a tree in use. |
| `SkillStores.TreesAreConstant` | daemon/skillStore.ts:8-12 | Over every run a tree named by a live session throughout keeps its very files, and every tree's name carries the hash of its content. |
| `SkillStores.SyncedGet` | daemon/skillStore.ts:70-80 | `sync` changes nothing but when the listed trees were last touched. |
| `SkillStores.SkillStore.Sync` | daemon/skillStore.ts:70-80 | The loop reports as had exactly the listed trees that exist and as missing the others. |
| `SkillStores.SkillStore.Stage` | daemon/skillStore.ts:82-106 | The loop over the frame stages up to the first refused file and stops there. |
| `SkillStores.SkillStore.Commit` | daemon/skillStore.ts:108-152 | The object commits as specified, through making room, renaming, touching and pruning. |
| `SkillStores.SkillStore.EvictLru` | daemon/skillStore.ts:176-182 | The loop with its running excess evicts exactly the least prefix. |
| `ThreadRecovery.CloseAllOpen` | daemon/threadHost.ts:158-162 | Closing every open request empties the list and changes nothing else in the checkpoint. |
| `ThreadRecovery.RecoverySettles` | daemon/threadHost.ts:148-172 | After recovery no request is open and no turn is running, whatever was restored. |
| `ThreadRecovery.RecoveryTells` | daemon/threadHost.ts:148-172 | What a recovery tells a journal: that each open request expired, in order, and, exactly when it shows a running turn, that the daemon restarted, the turn was interrupted and the session is idle; it is flushed when anything was told, and left alone otherwise. |
| `ThreadRecovery.SettledSurvives` | daemon/threadHost.ts:148-177 | A settled journal is still settled when a new process folds it from what is retained, evictions and dropped tokens included. |
| `ThreadRecovery.RecoveringOnceIsEnough` | daemon/threadHost.ts:141-177 | Whatever the disk held, after recovering it a second crash and recovery has nothing to close, before or after a compaction. |
| `ThreadRecovery.CloseOut` | daemon/threadHost.ts:151-172 | The loop over the open requests, the three turn closers and the flush compute the specified recovery on the store. |
| `ThreadHosts.AskedKeepsInv` | daemon/claudeDriver.ts:439-458 | A request opened under a fresh id is pending and waits in the journal, and no other account moves. |
| `ThreadHosts.ReleasedKeepsInv` | daemon/claudeDriver.ts:460-468 | A request released is released and closed once, and no other account moves. |
| `ThreadHosts.RequestsBalance` | daemon/claudeDriver.ts:439-476 | Over every run, through any number of restarts on whatever disks, for every thread and id: what waits in the journal is exactly the driver's pending request or the host-tool call; in its process it was opened at most once, is closed exactly when it no longer waits, and its callback was released exactly as often as it was closed. |
| `ThreadHosts.AnsweredKeepsInv` | daemon/threadHost.ts:368-387 | Answering a request by kind and id keeps the pending table and the journal in step; the wrong kind changes nothing. |
| `ThreadHosts.StopLeavesNothingOpen` | daemon/threadHost.ts:567-587 | After a stop the generation is over, no request is open (its own sweep finds none left), the state is idle; the next recovery has nothing to close if and only if a turn was in flight or no text was left streaming. |
| `ThreadHosts.TextOutlivesStop` | daemon/threadHost.ts:567-587 | A concrete thread on which a stop leaves text streaming, so that the next recovery closes a turn that was not running. |
| `ThreadHosts.EndedGenerationsAreSilent` | daemon/threadHost.ts:506-543 | From any state in which a generation is over, at any later moment of its process its events leave the thread exactly as it was. |
| `ThreadHosts.StartedKeepsInv` | daemon/threadHost.ts:506-543 | Starting a driver takes a new generation, over again when the factory throws, early or late, and never leaves a turn running. |
| `ThreadHosts.CapsHold` | daemon/threadHost.ts:270-274 | In every run, restarts included, at most `maxConcurrentTurns` turns run and at most `maxLiveSessions` drivers live. |
| `ThreadHosts.SendsDoNotRepeat` | daemon/threadHost.ts:264-279 | In every run, restarts and cold resumes included, a message id never reaches a driver again within the last 64 sends its thread accepted in that process. |
| `ThreadHosts.AcceptedIsJournaled` | daemon/threadHost.ts:276-279 | An accepted send is delivered exactly once, and the journal's latest state shows its turn in flight before the client is told. |
| `ThreadHosts.StateKeepsInv` | daemon/claudeDriver.ts:328-342 | After a state emission the journal's latest state is what the driver's flags say, emitted or suppressed as unchanged. |
| `ThreadHosts.RestartedKeepsInv` | daemon/threadHost.ts:148-177 | Whatever the disks hold, the threads of a new process keep every account from the start, with no session live and no turn running. |
| `ThreadHosts.StepKeepsInv` | daemon/threadHost.ts:239-387 | Every open, send, answer, stop, driver event, late event, host-tool event, ack, compaction and restart keeps all of this. |
| `ThreadActions.InterruptDoes` | daemon/threadHost.ts:286-292 | An interrupt cancels every call of the thread and releases and closes every pending request, each exactly once and in order; nothing is open in the journal after it; the driver lives on in its generation. |
| `ThreadActions.WithdrawKindDoes` | daemon/claudeDriver.ts:470-476 | Withdrawing a kind releases and closes exactly the pending requests of that kind, each once. |
| `ThreadActions.StopDoes` | daemon/threadHost.ts:567-587 | All a stop tells the journal, in order: the calls cancelled, the requests closed, what the harness says last, an interruption exactly when a turn was in flight, an idle state; the driver is gone and its generation over. |
| `ThreadActions.AskDoes` | daemon/claudeDriver.ts:439-458 | A request is pending and told of, and the state after it exactly when that changed. |
| `ThreadActions.AnswersDo` | daemon/threadHost.ts:368-387 | An answer is taken only for a pending request of that kind, a withdrawal for any pending one; taken, it releases and closes it once, refused, it changes nothing. |
| `ThreadActions.HarnessDoes` | daemon/claudeDriver.ts:328-458 | What the harness does itself, case by case: events told as they are, a message handed over or failing, a turn ending, late events lost, calls opened and closed once. |
| `ThreadActions.StartDoes` | daemon/threadHost.ts:506-543 | Starting a driver: a new generation, idle and shown so; a factory that throws leaves no driver and a generation over, whatever it told before. |
| `ThreadActions.SendIsAnswered` | daemon/threadHost.ts:264-279 | What each send is answered and does, every reason in the original's order, with the last sixty-four messages counting as seen. |
| `ThreadActions.OpenDoes` | daemon/threadHost.ts:239-262 | Opening adopts a live thread as it is, starts nothing at the cap, and otherwise starts a driver and stores the recipe exactly when it came up or there was one; no other thread moves. |
| `ThreadActions.CountsAre` | daemon/threadHost.ts:224-229 | The counts the caps are held against are the threads with a turn in flight and the threads with a driver. |
| `ThreadHosts.ThreadSession.Stop` | daemon/threadHost.ts:567-587 | The object stops as specified: calls cancelled, requests withdrawn, generation bumped, open requests swept, state journaled. |
| `ThreadHosts.ThreadSession.Resolve` | daemon/threadHost.ts:368-387 | The object answers exactly the pending request of that id and kind, and closes it in the journal. |
| `ThreadHosts.ThreadSession.CancelRequests` | daemon/claudeDriver.ts:470-476 | The loop withdraws exactly the listed requests, in order. |
| `ThreadHosts.ThreadSession.StartDriver` | daemon/threadHost.ts:506-543 | The object starts a driver under a new generation as specified. |
| `Restarts.RunsStayOnDisk` | daemon/threadHost.ts:101-111 | Over every run of the host, restarts included, each thread's journal is the memory of a store whose disk matches it and that holds no boundary event back. |
| `Restarts.AcceptedSurvivesCrash` | daemon/threadHost.ts:101-106 | A send once acked, then a crash at any byte: the next process knows the turn if and only if its state record was not evicted, and then ends it as `daemon_restarted`; with room for any entry the send itself never evicts it, unless the driver already showed a running turn. |
| `Restarts.PendingExpiresOnce` | daemon/threadHost.ts:158-162 | For a thread in any state and a crash at any byte: the next process closes each pending request and open host-tool call exactly once if its record was not evicted, and closes no other. |
| `Restarts.NewestIsRetained` | src/protocol/journal.ts:265-284 | Unless a journal may hold no entry at all, an append never evicts the entry it appends. |
| `Restarts.OldMessageRunsAgain` | daemon/threadHost.ts:264-279 | At any moment of a run that begins with a restart, whatever was opened, sent or done since, a message not sent to the thread in this process is accepted if and only if the thread is known and idle, the turn cap leaves room, and a driver lives or the stored recipe starts one under the session cap, however often the message ran before. |
| `Restarts.FirstSendAfterRestart` | daemon/threadHost.ts:264-279 | As the very first step of a new process any message is accepted if and only if a recipe is stored, a driver starts and neither cap is zero. |
| `Restarts.MessageRunsTwice` | daemon/threadHost.ts:266-268 | A message accepted, answered as already seen when repeated, is run again when repeated after a restart. |
| `HostRuns.StepKeepsOk` | daemon/threadHost.ts:148-177 | The host with its disks: every step, restarts on the files the stores left included, keeps each thread's journal the memory of its store, the disk matching it and no boundary event held back. |
| `HostRuns.EveryCrashIsSurvived` | daemon/threadHost.ts:141-177 | In every run of the host with its disks, at every crash in it and any byte of a write: exactly the threads there were come back, each with its recipe, settled, compacted and within its bounds; the session state read is the one there was unless its record was evicted; each waiting request is closed exactly once unless its record was evicted, and no other. |
| `HostRuns.DisksFollow` | daemon/threadHost.ts:589-604 | Whatever the host does next, the store of each thread can follow it by its own operations. |
| `HostRuns.RestartCanFollow` | daemon/threadHost.ts:148-177 | A process can be started on whatever a crash left, so that the runs spoken of exist. |

## Left out

- Sockets, HTTP, heartbeats, greeting and authentication, audit lines, the command line and configuration: plumbing around the modelled state machines.
- The sidecar's advisory fields (`openRequests`, `turnInFlight`, `updatedAt`), a damaged sidecar, and a crash between the rename of a rewrite and its sidecar write.
- `rewindFor` for epochs older than the sixteen kept: it leaves such a client's cursor alone, so rewinding is stated for processes still in the chain.
- Delivery.DeliveryIsExact: is stated for an attach that is still in place; what a closed connection had been sent is not compared with anything.
- HostTools.EveryCallSettlesOnce: assumes timers fire on time and listeners are not re-entrant, so a slow-consumer close in the middle of `issue` is not covered.
- HostTools.HostToolBroker.SetAttached: the calls are moved at the end of the loop, not one at a time, so what a listener would see half way is not captured.
- Input checks, result clamping and sanitizing of host-tool calls (daemon/hostTools.ts:173-175, 202-205): a call carries whether its input is refused.
- ThreadHosts.RequestsBalance: the broker's calls enter as open and closing events of the thread, as `HostTools.JournalBalances` proves them to be; requests opened by a harness after its driver closed, and driver calls made from inside `close`, are not covered.
- ThreadHosts.EndedGenerationsAreSilent: covers journaled events; the native-id, working-directory and raw-log callbacks of an ended generation are fenced by the same test and not modelled.
- Specifications, working directories, models and permission modes of sessions, `setManifest` on cold resume, and the policy errors they raise; `specIsReadOnly`, `withRepoRoot` and the walk of `realpathLoose`: easy members over foreign file-system calls.
- ThreadHosts.SendsDoNotRepeat: is stated per daemon process, since the remembered ids are not persisted (`Restarts.OldMessageRunsAgain`); the command cache does not outlive a restart either.
- HostRuns.EveryCrashIsSurvived: a restart reads, closes out and compacts every thread in one step; a second crash in the middle of that is covered for a single store (`DiskRuns`, `ThreadRecovery.RecoveringOnceIsEnough`) and not in these runs.
- CmdCache.AtMostOnce: commands excluded from caching, and the encoding failure that replaces a reply, are not modelled.
- RawLog.NothingUnaccounted: surrogate pairs split across two deltas are outside it, and the fields of an event the log only passes on are kept as one size.
- SkillStores.CommitCreates: deletions and the rename are assumed to succeed on existing paths, a directory is listed once per operation, and concurrent processes, symbolic links and file modes beyond the executable bit are not modelled; `validateSkillManifest` and the path rules of src/protocol/skills.ts:63-123 are assumed of the input.
- `dirname`, `basename`, `extname`, `parse` and `format` of the path shims.
- Git, MCP, browser and note views, dashboards, peer registries, credentials and repositories: other subsystems.
