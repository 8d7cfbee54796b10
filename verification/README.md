# pi-web verification

A Dafny model of pi-web's process, stream and log machinery, with proofs that hold over whole runs.
Each module follows one component of the repository. Code that changes state in place is modelled by
classes, arrays and loops, whose contracts tie the new state to a specification function of the old
one; the lemmas are about those functions, for every input, every run or every reachable state.

| module | component |
|---|---|
| `Holder`, `Wire` | the detached process that owns pi, queues its output and replays it on attach |
| `Stream`, `Reattach`, `Requests`, `Worker` | the client of that process: preview folding, replay silence, pending requests |
| `Manager` | one worker per session: single flight, replacement, idle reaping, sends in flight |
| `Fanout`, `Status`, `Tasks` | event channels with coalescing, running status as snapshot and deltas, shutdown |
| `SessionLog`, `Parsers`, `LogMeaning`, `Summaries`, `Cache`, `TurnState` | the append-only session file, its three readers and what they say, sorting, caching and the tail reader |
| `SessionModel`, `Artifacts`, `ArtifactHistory`, `Shell`, `Annotations`, `ChatPreview` | the browser's model: racing windows, the rebuilt file system, highlights, streamed text |
| `ChatQueue`, `QueueRace`, `Scheduler`, `ProjectPrefs`, `Paging` | the durable queue and overlapping calls on it, the schedule timer, key migration, windows over long lists |
| `Attachments`, `Cron`, `SemVer`, `Numerals`, `Text`, `Prelude` | printers and parsers, version precedence, shared text functions |

`dafny verify dfyconfig.toml` checks the whole project.

Concurrency is modelled as interleaved critical sections, channels as sequences, time as an input.
A run is a list of steps; a step that is not possible in a state leaves it unchanged. Functions whose
bodies lie outside the repository (JSON decoding, the next cron occurrence) are parameters.

Where the code and its own comments disagree the model follows the code:

- `internal/server/server.go:530` says a keyed event cannot be lost. It can, when keyless events fill
  the channel: `Fanout.AKeyedEventCanBeDropped`, with the exact condition in
  `Fanout.KeyedDropNeedsKeylessFlood`.
- `internal/chatqueue/chatqueue.go:225-227` describes a position as the previous maximum plus one. It
  comes from the settings row, so it also rises over removals, and starts again after Clear.
- `web/src/index/schedules.js:39-41` says that what `buildCron` does not emit stays as it is. A minute or
  hour out of range is taken for a preset too, and saving moves it into range: `Cron.EditingKeepsIff`.

Further results about what the code does not do, each with the exact condition:

- The idle sweep can close a worker a Send was just given (`Manager.SweepMayCloseAWorkerInUse`). A step
  keeps every Send's worker in the table exactly when it takes out none in use (`Manager.StaysInHandIff`).
  In use counts from the moment a creation is done, before the goroutine that waits for it wakes.
- A status delta broadcast after a newer one of its session leaves clients wrong
  (`Status.OvertakingDiverges`, `Status.ShownAsItIsIff`).
- The browser model's recorded start goes stale after a reload
  (`SessionModel.LoadEarlierIsContiguousIff`, `SessionModel.ReloadThenLoadEarlierRepeats`).
- Sending a message can remove finished text whose entry has not arrived (`ChatPreview.LostIffSentAway`).
- Overlapping PopHeads or Takes deliver an item twice (`QueueRace.HandedOutOnceIffNoOverlap`).
- A cache load that only evicts can drop the name of a file that another project's file shared. Lookups
  by name alone (FindPath, ProjectForID, Remove) then miss it, while Resolve scans again and restores it
  (`Cache.IndexSurvivesIffNoTwin`).
- Versions whose numerals do not fit, whose identifiers look like negative numbers, or whose build
  metadata holds a hyphen are compared wrongly (`SemVer.AgreesIffReadable`).
- The ancestor walk of a file that was not grown by appends may not end (`SessionLog.WalkEndsIff`).

## Model

| member | source | states |
|---|---|---|
| `Holder.BacklogOnlyWhileDetached` | internal/rpc/holder.go:150-205 | in every run of output, attaches, failed writes and detaches, whenever the lock is free a non-empty queue means no client is attached, and the queue never exceeds 8192 lines |
| `Holder.GoneConnectionsStaySilent` | internal/rpc/holder.go:150-240 | however a run goes on, what a connection received by some moment stays the beginning of what it receives, and nothing is added for one that was replaced, failed or detached by then |
| `Holder.StepExplained` | internal/rpc/holder.go:150-240 | one step keeps the account of the run (each connection's slice of the output, then the queue); it loses a line exactly when a line nobody takes meets a full queue |
| `Holder.HistoryOf` | internal/rpc/holder.go:150-240 | every run has such an account: slices in order and not overlapping, the queue a suffix of the output, an attached client up to date, lost lines equal to overflows, and each connection greeted with whether a switch had happened by then |
| `Holder.NothingDuplicatedOrReordered` | internal/rpc/holder.go:150-205 | lines written over all connections followed by the queue embed in pi's output in order, each position used at most once, and only overflows are missing |
| `Holder.LosslessIffNoOverflow` | internal/rpc/holder.go:150-205 | lines written followed by the queue equal pi's output exactly when no line ever met a full queue with nobody listening |
| `Holder.ConnectionSeesOneStretch` | internal/rpc/holder.go:167-205 | one connection receives, behind the greeting, a contiguous stretch of the output, with the marker inside it if the replay completed |
| `Holder.MarkerSplitsAtAttach` | internal/rpc/holder.go:167-205 | the replay-end marker stands exactly between what was queued at the attach and what pi printed afterwards, behind a greeting that tells of any switch before; connections replaced before may end meanwhile |
| `Holder.GreetingTellsOfTheSwitch` | internal/rpc/holder.go:167-226 | whoever is greeted is told first, and for good, whether any switch_session command had passed before it attached |
| `Holder.OnlyTheNewestDetaches` | internal/rpc/holder.go:232-238 | the end of the newest connection leaves nobody attached, that of any other changes nothing |
| `Holder.AttachWritesWhatItCan` | internal/rpc/holder.go:167-205 | attaching writes the greeting, the queue and the marker as far as the connection takes them; what it did not take stays queued, and one frame short nobody is attached |
| `Holder.WorkerHolder.Deliver` | internal/rpc/holder.go:150-165 | delivering a line writes it, or drops the failed client and queues it, keeping the newest 8192 |
| `Holder.WorkerHolder.Attach` | internal/rpc/holder.go:167-208 | attaching evicts the old client, greets, replays the queue and sends the marker; a failed write leaves exactly the unsent lines queued and nobody attached |
| `Holder.WorkerHolder.Flush` | internal/rpc/holder.go:183-190 | the flush loop writes queued lines in order until the queue is empty or a write fails |
| `Holder.WorkerHolder.Detach` | internal/rpc/holder.go:232-238 | a reader that ends detaches its own connection and never its successor |
| `Stream.AccumulatorIsMessageSoFar` | internal/rpc/stream.go:38-70 | while a message streams, the accumulator holds exactly its text and reasoning so far |
| `Stream.DonePreviewIsWholeMessage` | internal/rpc/stream.go:38-79 | a done preview shows all text since the previous close, unless text_end restates it, and all reasoning |
| `Stream.ShownIsDue` | internal/rpc/stream.go:38-79 | while a message streams every delta is shown at once, not done, with all text and reasoning so far; a thinking_end too unless the message is still empty; the closing line shows the whole message as done exactly when it is not empty; no other line shows anything |
| `Stream.FreshShowsWhatIsDue` | internal/rpc/stream.go:38-79 | who starts fresh shows exactly that, message by message, over any stretch of output |
| `Stream.CloseResynchronises` | internal/rpc/stream.go:38-79 | two accumulators in any states are equal from the first text_end, message_end, turn_end or agent_end on |
| `Stream.DifferentAccumulatorsShowDifferentPreviews` | internal/rpc/stream.go:72-79 | accumulators are equal exactly when they show the same at a message_end, so the close is also needed |
| `Stream.MessageEndTellsAccumulatorsApart` | internal/rpc/stream.go:38-79 | of one output, two accumulators started fresh at different points are equal exactly when the next message_end shows the same for both |
| `Stream.EqualStartsShowTheSame` | internal/rpc/stream.go:38-79 | from the point where two accumulators are equal they show the same previews |
| `Stream.StreamPreviewAccumulator.HandleAssistantEvent` | internal/rpc/stream.go:38-70 | the mutating handler computes the fold the lemmas are about, and returns its preview |
| `Stream.StreamPreviewAccumulator.Complete` | internal/rpc/stream.go:72-79 | completing returns the finished preview and resets, or does nothing when empty |
| `Reattach.SilentUntilMarker` | internal/rpc/worker.go:509-590 | before the replay-end marker a reattached worker shows nothing, for every prefix of what arrives |
| `Reattach.ReplayIsSilent` | internal/rpc/worker.go:509-590 | during replay the accumulator follows pi's output while nothing is shown |
| `Reattach.MarkerCatchesUp` | internal/rpc/worker.go:509-590 | the marker shows at most one snapshot of what was accumulated and ends the silence |
| `Reattach.ReattachedShows` | internal/rpc/worker.go:509-590 | what a reattached worker shows of its slice: nothing before the marker, at most one catch-up, then every preview of the live part |
| `Reattach.InStepShowsTheSame` | internal/rpc/worker.go:568-590 | from the first close in its slice on, or from its start if that is between messages, it shows what a worker that never disconnected shows |
| `Reattach.ReattachingShowsTheSamePreviews` | internal/rpc/worker.go:509-590 | the same for the connections of every holder run: protocol, accumulator and worker together |
| `Reattach.ReattachingShowsWhatIsDue` | internal/rpc/worker.go:509-590 | in terms of pi's output alone: the message under way at the marker as far as the connection has it, if it has anything, then every preview due from there |
| `Requests.NoSendBlocks` | internal/rpc/worker.go:453-490 | no step of any interleaving of registrations, responses, timeouts and failures sends on a full channel |
| `Requests.EveryRunIsValid` | internal/rpc/worker.go:453-490 | each waiter's channel gets at most one message, which carries the waiter's own request id |
| `Requests.ErrorWakesEveryone` | internal/rpc/worker.go:606-617 | after a failure no waiter registered before it that has not given up is left waiting |
| `Requests.EveryRequestMeetsItsFate` | internal/rpc/worker.go:453-490 | in every interleaving each waiter's channel received exactly what became of its request, told by the steps alone: the answer looked up first, the failure that came first, or nothing while it waits or once it gave up |
| `Worker.PiRpcWorker.HandleRpcLine` | internal/rpc/worker.go:509-590 | one line: responses go to the waiter of their id and unregister it, previews are shown unless replaying, stream lines note the time, agent_end makes the worker idle and clears it |
| `Worker.PiRpcWorker.SetError` | internal/rpc/worker.go:606-617 | a failure hands every waiter one response with its own id and keeps an earlier failure |
| `Manager.EveryRunIsSound` | internal/workers/manager.go:151-191 | in every interleaving each worker is registered under one session, owed to exactly one closer, or closed once; each session being created has one creator and no worker |
| `Manager.SingleFlight` | internal/workers/manager.go:356-399 | at most one factory call per session is in flight, and meanwhile no worker is registered for it, so the branch that keeps an existing worker is dead |
| `Manager.WaitersShareTheWorker` | internal/workers/manager.go:356-399 | everyone who joined a creation gets the worker its creator got |
| `Manager.LookUsesOrJoins` | internal/workers/manager.go:356-366 | who finds a healthy worker uses it, who finds a creation under way joins it |
| `Manager.JoinerGetsTheNewWorker` | internal/workers/manager.go:356-399 | and then gets the worker its creator gets, the one that is registered |
| `Manager.NobodyWaitsForNothing` | internal/workers/manager.go:356-399 | who waits for a creation still in flight waits for a creator that is really building |
| `Manager.PublishHandsOut` | internal/workers/manager.go:377-399 | an answer of the factory registers a new worker and hands it to the builder and, through the call, to all who joined it; a failure registers nothing and refuses them |
| `Manager.WakeHandsOut` | internal/workers/manager.go:367-374 | a waiter wakes to exactly what its call holds, and not before the call is done |
| `Manager.FailedWorkerIsReplaced` | internal/workers/manager.go:356-399 | whoever comes upon a failed worker takes it out, closes it once and gets a new one, which is registered in its place |
| `Manager.ClosedAtMostOnce` | internal/workers/manager.go:151-191 | no worker is closed twice and no registered worker has been closed |
| `Manager.SendsAreCounted` | internal/workers/manager.go:193-212 | pendingSends counts exactly the goroutines inside Send and holds no zero entries |
| `Manager.NeverIdleMidSend` | internal/workers/manager.go:241-257 | while a Send to a session is in flight its status never reads idle |
| `Manager.StatusTellsWhatGoesOn` | internal/workers/manager.go:241-257 | in every run a session reads idle exactly when no goroutine is inside a Send to it and it has no worker or an idle one; a worker that is not idle is reported as it is; otherwise it reads running |
| `Manager.StaysInHandIff` | internal/workers/manager.go:151-191 | while every Send finds the worker it was given in the table, a step keeps it so exactly when it is no sweep or Close with the session of such a Send among its victims and no look at that session while its worker is in the error state |
| `Manager.AlwaysInHandIffUndisturbed` | internal/workers/manager.go:151-191 | at every moment of a run every Send finds its worker in the table exactly when no step of the run took out a worker some Send had been given |
| `Manager.NoWorkerInUseIsClosed` | internal/workers/manager.go:151-191 | in such a run no worker is closed under a Send it was given to |
| `Manager.CarefulIsUndisturbed` | internal/workers/manager.go:171-212 | so it is when sweeps and Close pass over sessions with pending sends and no worker in use is evicted for an error |
| `Manager.SweepMayCloseAWorkerInUse` | internal/workers/manager.go:171-191 | the sweep does not pass over them: a run in which a worker idle for longer than the TTL is given to a Send and then swept and closed |
| `Manager.WorkerManager.LookUp` | internal/workers/manager.go:356-376 | the first critical section of workerFor on the real maps: use, evict, join or build |
| `Manager.WorkerManager.Publish` | internal/workers/manager.go:377-399 | the second critical section: the result is published to the waiters and a superfluous worker is closed once |
| `Manager.WorkerManager.ReapSweep` | internal/workers/manager.go:151-180 | the sweep takes exactly the overdue idle workers out of the table |
| `Manager.WorkerManager.Status` | internal/workers/manager.go:241-257 | the answer is idle exactly when no send is pending and the worker is idle or missing, else the worker's own status if it is not idle, else running |
| `Fanout.FlagsAreExact` | internal/server/server.go:511-535 | outside a broadcast's critical section a coalescing flag is set exactly when one event of its key is in the channel or received and not yet cleared |
| `Fanout.OwedIsOnTheWay` | internal/server/server.go:511-535 | a keyed broadcast that was coalesced or sent is on its way until a write of its key starts after it |
| `Fanout.DrainedMeansNothingOwed` | internal/server/events.go:40-58 | once the channel is empty and the handler waits, every keyed broadcast not dropped was followed by a write of its key |
| `Fanout.KeyedDropNeedsKeylessFlood` | internal/server/server.go:511-535 | a keyed event is dropped exactly when the channel is full and none of its key is on the way, which takes all but one place filled with keyless events |
| `Fanout.AKeyedEventCanBeDropped` | internal/server/server.go:524-533 | such a loss happens: sixteen keyless events, then a reload |
| `Fanout.SentIsWrittenOrThere` | internal/server/events.go:40-58 | what was sent to a client is what was written, what its handler holds and what is in its channel, in order |
| `Fanout.HandlerDrains` | internal/server/events.go:40-58 | however a run went, the handler going on alone writes everything sent, in the order sent, and leaves no flag set |
| `Fanout.BroadcastIsWritten` | internal/server/server.go:511-535 | a keyed broadcast that is not dropped is followed by a write of its key that had not started before it |
| `Fanout.NeverSendsOnClosed` | internal/server/server.go:487-535 | in every interleaving of broadcasts and removals nothing is sent on a closed channel |
| `Fanout.MembersAre` | internal/server/server.go:487-498 | on the list is exactly who joined and has not left, and closed is exactly the channel of who left once its handler closes it |
| `Fanout.OfferedAndToComeAreAll` | internal/server/server.go:511-535 | a broadcast offers its event to every client on the list that watches its session, once and in order, and the list does not change meanwhile |
| `Fanout.BroadcastReachesAll` | internal/server/server.go:511-535 | begun at any point, a broadcast going on alone reaches everyone on the list who watches its session and leaves nothing behind |
| `Fanout.WithoutIsFiltered` | internal/server/server.go:487-498 | removing a client keeps the others in their order |
| `Fanout.FilterInPlace` | internal/server/server.go:487-498 | removing a client compacts the slice in place, keeping the others in order |
| `Fanout.SseClient.Offer` | internal/server/server.go:517-533 | one client's turn in a broadcast: coalesce, send and flag, or drop |
| `Fanout.SseClient.Next` | internal/server/events.go:40-58 | the handler receives an event and clears its flag before writing |
| `Status.AlwaysTellsTheTruth` | internal/server/status.go:97-123 | in every interleaving of updates, broadcasts, other events, registration, snapshot and delivery, whatever will last be said to the client about an untainted id is the truth |
| `Status.UntaintedIdsConverge` | internal/server/status.go:97-123 | once all is broadcast and delivered, an id no delta of which was dropped or overtaken is shown as it is, whatever happened to others |
| `Status.OrderlyRunsConverge` | internal/server/events.go:29-58 | register, then snapshot, then drain: the client has exactly the server's running set |
| `Status.OldestFirstIsOrderly` | internal/server/status.go:114-123 | broadcasting the oldest delta first, into a channel with room, nothing overtakes or is dropped |
| `Status.ChannelHoldsTheRest` | internal/server/events.go:29-58 | registered from the registration on, a view from the snapshot on; the channel holds what was broadcast since and not taken, and an event is left out only when it is full |
| `Status.SnapshotIsCurrent` | internal/server/events.go:29-40 | the snapshot shows what the server knows when it is taken |
| `Status.ViewIsShown` | internal/server/events.go:40-58 | the client shows its snapshot with the deltas taken since applied in order |
| `Status.ShownAsItIsIff` | internal/server/status.go:97-123 | in every run, drops and overtaking included, a session is shown as it is exactly when the number of deltas decided about it and the serial last applied differ by an even number |
| `Status.OvertakingDiverges` | internal/server/status.go:114-123 | however a run went, two updates of one session broadcast in the wrong order then leave the client wrong about it with nothing more on the way |
| `Status.DeltasAreEdges` | internal/server/status.go:97-123 | the last delta of a session says what is known of it |
| `Status.DeltasAlternate` | internal/server/status.go:97-123 | deltas of one session alternate, and the first says running |
| `Status.StatusBoard.Recompute` | internal/server/status.go:97-147 | a delta exactly on a change, one push and one kick exactly on a change to not running |
| `SessionLog.LegalFilesAreForests` | internal/sessions/session.go:390-545 | a file grown by appends with fresh ids below lines already there is a forest whose parents never point forward |
| `SessionLog.ForestWalk` | internal/sessions/session.go:1077-1088 | in a forest the ancestor walk ends and goes strictly back in the file |
| `SessionLog.WalkEndsIff` | internal/sessions/session.go:1077-1088 | in any file whatever the ancestor walk from an id ends exactly when it never stands at the id of one entry twice |
| `SessionLog.CycleNeverEnds` | internal/sessions/session.go:1077-1088 | the walk from an entry that is its own ancestor never ends |
| `SessionLog.WalkIsUnique` | internal/sessions/session.go:1077-1088 | there is one ancestor walk from an entry |
| `SessionLog.WalkNeverRepeats` | internal/sessions/session.go:1077-1088 | a walk that ends holds no entry twice |
| `SessionLog.OldWalksStay` | internal/sessions/session.go:390-545 | an append with a fresh id changes no walk that was there |
| `SessionLog.AppendedWalk` | internal/sessions/session.go:390-545 | the walk of an appended entry is that entry followed by its parent's walk |
| `SessionLog.HungEntryWalks` | internal/sessions/session.go:390-545 | a rename, archive or label entry hangs below the last line that has an id, and its walk is that entry followed by the walk from there |
| `SessionLog.HungEntryIsRoot` | internal/sessions/session.go:390-545 | with no id in the file it is a root |
| `SessionLog.HungEntryKeepsTheConversation` | internal/sessions/session.go:457-466 | so in a file grown by appends its walk goes on to the last entry and all its ancestors |
| `SessionLog.ForkOfForkIsTheSame` | internal/sessions/session.go:1018-1145 | forking a fork at the same target, or at any entry on the way, gives the same ancestry |
| `SessionLog.BranchesAreForests` | internal/sessions/session.go:1018-1145 | a branch is a forest whatever file it came from |
| `SessionLog.ChainShape` | internal/sessions/session.go:1077-1095 | the chain written ends in the target, each entry's parent is the one before it, and the first has no parent in the file |
| `SessionLog.BranchFileHoldsTheChain` | internal/sessions/session.go:1095-1145 | reading a branch file back gives the chain that was written, and its one header the id, timestamp and directory |
| `SessionLog.CwdIs` | internal/sessions/session.go:1024-1066 | the directory of a branch is that of the last header that does not repeat an earlier one |
| `SessionLog.CreateBranch` | internal/sessions/session.go:1018-1145 | createBranchSessionFile: the errors in their order, else the source's directory, the fork mark for a fork only, and exactly the root-to-target chain |
| `SessionLog.ReadForBranch` | internal/sessions/session.go:1024-1063 | the read loop keeps the last header that does not repeat an earlier one and all entries |
| `SessionLog.ReverseInPlace` | internal/sessions/session.go:1089-1095 | the swap loop reverses the collected path |
| `SessionLog.SessionFile.AppendSessionName` | internal/sessions/session.go:494-545 | renaming appends one session_info entry below the last line that has an id, or fails for a blank name |
| `SessionLog.SessionFile.ArchiveSession` | internal/sessions/session.go:449-492 | archiving appends one archive entry below the last line that has an id |
| `SessionLog.SessionFile.LabelSessionEntry` | internal/sessions/session.go:390-447 | labelling appends one label entry below the last line that has an id, exactly when the trimmed target is an id in the file |
| `SessionModel.ReconciledIsWindow` | web/src/session/data/session-data.svelte.js:188-243 | one response merged into the model's window: ignored when empty or out of date, else the window from the earlier start to the response's end |
| `SessionModel.AnyOrderStaysAWindow` | web/src/session/data/session-data.svelte.js:188-243 | however responses race, the model stays one contiguous window of the log, from the earliest start accepted to the furthest end seen |
| `SessionModel.WindowOnlyGrows` | web/src/session/data/session-data.svelte.js:188-243 | that end never moves back and that start never moves forward |
| `SessionModel.OutOfDateIff` | web/src/session/data/session-data.svelte.js:188-243 | a response is refused exactly when it overlaps the model without its newest entry |
| `SessionModel.MergeIsContiguousIff` | web/src/session/data/session-data.svelte.js:188-243 | a merge of two windows is contiguous exactly when the response starts no later than the model's end and ends after its start |
| `SessionModel.LoadEarlierExtends` | web/src/session/data/session-data.svelte.js:188-243 | merging older entries followed by the model's own extends the window when they end where it starts |
| `SessionModel.LoadEarlierIsContiguousIff` | web/src/session/data/session-data.svelte.js:188-243 | loading earlier entries before the recorded start keeps the model contiguous exactly when the recorded start is the model's own |
| `SessionModel.ReloadThenLoadEarlierRepeats` | web/src/components/session/LoadEarlier.svelte:17-38 | and it need not be: a tail load, a full reload and a load of earlier entries, which goes by the start recorded for the tail, leave repeated entries |
| `SessionModel.NewestIsServed` | web/src/session/data/session-data.svelte.js:188-243 | any response that is not empty or out of date brings the model to its own newest entry, with what stood before it kept |
| `SessionModel.OrphansAreThreaded` | web/src/session/tree/session-tree.js:10-22 | relinking changes only setting changes with an id and no parent but themselves, and gives them the nearest entry before that has an id as parent |
| `SessionModel.LabelIsTheLastWord` | web/src/session/data/session-data.js:35-64 | the label of an entry is the text of the last label entry about it, none when that is empty |
| `SessionModel.ByIdIsTheLastEntry` | web/src/session/data/session-data.js:35-64 | an id leads to the last entry that has it |
| `SessionModel.ToolCallIsTheLastWord` | web/src/session/data/session-data.js:35-64 | a tool call is known by the last call with its id |
| `SessionModel.ToolResultIsTheLastWord` | web/src/session/data/session-data.js:35-64 | its result is the last entry that answers it |
| `SessionModel.LookupsHoldNothingElse` | web/src/session/data/session-data.js:35-64 | the lookup maps hold nothing no entry speaks of |
| `SessionModel.SessionDataModel.Reconcile` | web/src/session/data/session-data.svelte.js:188-243 | reconcile on the object's fields; the lookup maps always equal a rebuild from the entries |
| `SessionModel.SessionDataModel.Refill` | web/src/session/data/session-data.svelte.js:39-42 | refilling the maps in place makes them equal a rebuild |
| `SessionModel.SessionDataModel.Hydrate` | web/src/session/data/session-data.svelte.js:131-160 | the initial load relinks the entries and builds the maps |
| `Artifacts.CollectArtifacts` | web/src/session/artifacts/artifact-registry.js:330-364 | for every entry list the artifacts are those of a plain file system folded with write, first-match edit, move and remove; there is one per path and one more for each move onto a path already there |
| `Artifacts.Replay` | web/src/session/artifacts/artifact-registry.js:330-364 | the aliased, mutated objects always stand for the plain fold: each artifact's path is its key, none sits under two keys, none removed remains in the map |
| `Artifacts.LiveFiles` | web/src/session/artifacts/artifact-registry.js:207-217 | live file artifacts number the paths plus the moves that overwrote |
| `Artifacts.Registry.MovePath` | web/src/session/artifacts/artifact-registry.js:199-219 | a move rekeys the artifact; onto an existing path it leaves the overwritten one in the order |
| `Artifacts.Registry.RemovePath` | web/src/session/artifacts/artifact-registry.js:199-206 | removing marks the artifact and takes it off the map |
| `Artifacts.Registry.ApplyFileToolCall` | web/src/session/artifacts/artifact-registry.js:237-264 | write, edit and bash calls change the files as the fold says; edits apply only to files this session wrote |
| `Artifacts.Registry.ApplyBashOps` | web/src/session/artifacts/artifact-registry.js:199-219 | the operations of a command are applied in order |
| `Artifacts.ApplyEdits` | web/src/session/artifacts/artifact-registry.js:112-130 | each edit replaces the first match of its old text, an empty or missing one is skipped |
| `Artifacts.EditReplacesTheFirst` | web/src/session/artifacts/artifact-registry.js:112-130 | one edit replaces the first place where its old text stands, and nothing else |
| `Artifacts.EditsInOrder` | web/src/session/artifacts/artifact-registry.js:112-130 | edits act on each other's results, in order |
| `ArtifactHistory.ReplayedIsHeld` | web/src/session/artifacts/artifact-registry.js:205-364 | for every session the plain file system holds at a path exactly what the last effect on it left, told by the calls that succeeded, the moves and the removals |
| `Artifacts.SucceededIff` | web/src/session/artifacts/artifact-registry.js:218-235 | a call counts exactly when the last result that answers it is no error |
| `Artifacts.Registry.Alive` | web/src/session/artifacts/artifact-registry.js:330-364 | what is returned is the order of first appearance without removed artifacts, each once |
| `Shell.TokenizeShell` | web/src/session/artifacts/artifact-registry.js:137-164 | the tokenizer loop computes the scan, or nothing for an open quote |
| `Shell.WrittenWordsComeBack` | web/src/session/artifacts/artifact-registry.js:137-164 | a command whose words are written bare, in single or double quotes or in any mixture of pieces, with any blanks between and around them, is read back as the texts of its words |
| `Shell.OpenQuoteIsNothing` | web/src/session/artifacts/artifact-registry.js:137-164 | a quote left open gives no tokens |
| `Shell.PlainCommandIsRead` | web/src/session/artifacts/artifact-registry.js:137-197 | the everyday form: bare words with one space between mean what the words mean |
| `Shell.OtherVerbsAreIgnored` | web/src/session/artifacts/artifact-registry.js:170-197 | any other verb is left alone |
| `Shell.UnsafeIsIgnored` | web/src/session/artifacts/artifact-registry.js:130-176 | so is a command with a character the reader does not interpret, wherever it stands |
| `Shell.MoveIsRead` | web/src/session/artifacts/artifact-registry.js:137-197 | mv or git mv, with any options and however its words are written: one path moves to the other; into a directory named with a slash each path before it moves and keeps its name; anything else is left alone |
| `Shell.RemovalsAreRead` | web/src/session/artifacts/artifact-registry.js:137-197 | rm of any paths, with any options and however written, is their removal in order |
| `Shell.BasenameIs` | web/src/session/artifacts/artifact-registry.js:65-67 | the name behind the last slash, and the whole path when nothing stands there |
| `Shell.AfterSlashIsLast` | web/src/session/artifacts/artifact-registry.js:65-67 | the basename holds no slash and a slash stands before it |
| `Annotations.HighlightsAreExact` | web/src/session/annotations/annotation-range.js:142-158 | after any list of overlapping annotations each character carries exactly the annotations whose range covers it, in order of application, and its text is unchanged |
| `Annotations.WrappingMarksTheRange` | web/src/session/annotations/annotation-range.js:84-123 | wrapping marks exactly the characters in [start, end), however earlier marks split the text |
| `Annotations.UnwrappingRestores` | web/src/session/annotations/annotation-range.js:126-136 | unwrapping after any highlighting leaves what unwrapping the plain text leaves |
| `Annotations.UnwrappedIsPlain` | web/src/session/annotations/annotation-range.js:126-136 | unwrapping keeps every character and leaves no mark |
| `Annotations.ReapplyingIsIdempotent` | web/src/session/annotations/annotation-range.js:142-158 | re-applying after any earlier highlighting gives what applying afresh gives |
| `Annotations.WrapRange` | web/src/session/annotations/annotation-range.js:84-123 | collecting targets and splitting them last to first wraps the range; it reports whether any leaf met it |
| `Annotations.CollectTargets` | web/src/session/annotations/annotation-range.js:92-106 | the walk collects the leaves that meet the range with the part inside |
| `Annotations.MeetsIff` | web/src/session/annotations/annotation-range.js:92-106 | a leaf is collected when one of its characters lies in the range, or, empty, it lies inside |
| `Annotations.UnwrapAll` | web/src/session/annotations/annotation-range.js:126-136 | the loop merges runs without marks |
| `Annotations.Container.ApplyHighlights` | web/src/session/annotations/annotation-range.js:142-158 | clearing and re-wrapping, anchor by anchor; annotations of missing anchors are skipped |
| `Attachments.AssembledComesBack` | web/src/components/session/attachment-refs.js:8-28 | extracting from an assembled message returns the message and every upload exactly when the message has no attachment-shaped line, no run of three newlines and no trailing white space |
| `Attachments.LineRoundTrip` | internal/chat/uploads.go:131-133 | a reference line reads back as its upload exactly when the path is non-empty without line breaks and the type non-empty without comma or parenthesis |
| `Attachments.ShapedIsMatched` | web/src/components/session/attachment-refs.js:1-1 | a line of the pattern's shape is read with its own three groups, whatever the path holds |
| `Attachments.MatchedIsShaped` | web/src/components/session/attachment-refs.js:1-1 | a line that is read has the pattern's shape |
| `Attachments.GroupsMean` | web/src/components/session/attachment-refs.js:1-1 | a path is anything on one line, a type anything without a comma or parenthesis, a size digits |
| `Attachments.NameIs` | web/src/components/session/attachment-refs.js:14-20 | the name is what follows the last separator |
| `Attachments.SaveChatUploads` | internal/server/chat.go:98-119 | the loop assembles the message: references below the text, a blank line between, nothing added without files |
| `Attachments.ExtractAttachmentRefs` | web/src/components/session/attachment-refs.js:8-28 | the loop separates references from kept lines, then tidies the text |
| `Attachments.TidiedIff` | web/src/components/session/attachment-refs.js:24-26 | collapsing newlines and trimming the end leave a text alone exactly when it has no run of three newlines and no trailing white space |
| `Attachments.RunsAreCut` | web/src/components/session/attachment-refs.js:24-26 | a run of newlines is cut to at most two, and what stands before and behind it is not touched by that |
| `Text.JoinSplit` | web/src/components/session/attachment-refs.js:10-24 | joining undoes splitting |
| `Text.SplitJoin` | internal/server/chat.go:110-117 | splitting undoes joining parts that do not hold the separator |
| `Text.DecimalRoundTrip` | internal/chat/uploads.go:132-132 | reading a printed number gives it back |
| `SemVer.ComparisonIsAntisymmetric` | internal/updater/updater.go:250-263 | on any two strings the two directions of compareSemver are opposite |
| `SemVer.ComparisonIsTransitive` | internal/updater/updater.go:250-263 | on any three strings compareSemver is transitive |
| `SemVer.ReadAsMeantIffReadable` | internal/updater/updater.go:267-291 | a rendered version is read as what it means exactly when its numerals fit, no identifier is a hyphen and fitting digits, and a release's build metadata has no hyphen with something behind it |
| `SemVer.AgreesWithTheStandard` | internal/updater/updater.go:250-344 | on readable versions the comparison is the precedence of section 11 of Semantic Versioning 2.0.0: lower, equal and higher each exactly when the standard says so |
| `SemVer.AgreesIffReadable` | internal/updater/updater.go:250-344 | a well-formed version is compared with every readable one as the standard says exactly when it is readable itself: every other one is put wrongly against some readable version |
| `SemVer.CompareSemver` | internal/updater/updater.go:250-263 | the core loop and the prerelease comparison compute the comparison of ranks |
| `SemVer.SplitVersion` | internal/updater/updater.go:267-291 | trimming, the v, the cuts at hyphen and plus signs, and three numbers filled with zeros |
| `SemVer.ComparePrerelease` | internal/updater/updater.go:296-321 | the identifier loop: first difference, else length; none outranks some |
| `SemVer.CompareIdentifier` | internal/updater/updater.go:323-344 | identifiers are compared by what they read as, numbers below text |
| `SemVer.SurroundingsDoNotMatter` | internal/updater/updater.go:267-272 | white space around a version and a v before it make no difference |
| `Numerals.AtoiOfDecimal` | internal/updater/updater.go:288-288 | a printed number is read back when it fits, else clamped with an error |
| `ChatPreview.FinishedTextSurvives` | web/src/session/live/chat-preview.js:243-389 | in every run of previews and reloads without a new user message, non-blank text a finished preview showed is live, archived, or contained in an assistant text that was supplied |
| `ChatPreview.FinishedTextIsAccountedFor` | web/src/session/live/chat-preview.js:192-389 | with user messages too: it is on the page, was supplied, or was in the live preview when a message was sent |
| `ChatPreview.SendingDropsIff` | web/src/session/live/chat-preview.js:192-234 | sending a message takes a text off the page exactly when the message is not blank and the text is in a finished live preview and not archived |
| `ChatPreview.LostIffSentAway` | web/src/session/live/chat-preview.js:192-389 | in every run a text shown before is neither on the page nor supplied exactly when it was sent over like that and not supplied, archived or shown again |
| `ChatPreview.SendingCanLoseText` | web/src/session/live/chat-preview.js:192-234 | one finished preview and one message lose its text |
| `ChatPreview.ReloadEmptiesIff` | web/src/session/live/chat-preview.js:292-326 | a reload empties the preview exactly when it knows every archived text and the text still shown is in a new entry or, while idle, finished and known; a preview without text must be finished or the worker idle |
| `ChatPreview.AlwaysMatchable` | web/src/session/live/chat-preview.js:243-263 | archived chunks are never blank and always trimmed, so an entry can match them |
| `ChatPreview.HoldsMeansContained` | web/src/session/live/chat-preview.js:299-302 | a text is held when it is not blank and some canonical text contains it |
| `ChatPreview.ReloadMeans` | web/src/session/live/chat-preview.js:266-302 | a text is new, or known, when something an assistant entry of the reload, or of the whole model, says contains it: its string or one of its text blocks |
| `ChatPreview.RemainingInOrder` | web/src/session/live/chat-preview.js:304-326 | a reload keeps exactly the archived chunks it does not know, in order |
| `ChatPreview.ShownIsLastPut` | web/src/session/live/chat-preview.js:192-389 | in every run the live preview shows what was last put in, finished or not, until a reload takes it off |
| `ChatPreview.ChatPreviewState.RenderChatPreview` | web/src/session/live/chat-preview.js:328-389 | rendering archives a finished preview, then shows the new content and sets or clears done |
| `ChatPreview.ChatPreviewState.ReconcilePreviews` | web/src/session/live/chat-preview.js:292-326 | archived chunks that are known go; the live preview goes when clearable |
| `ChatPreview.ChatPreviewState.ArchiveDonePreview` | web/src/session/live/chat-preview.js:243-264 | a finished preview moves to the archive, one without text is dropped |
| `ChatPreview.CollectAssistantTexts` | web/src/session/live/chat-preview.js:266-280 | the loop collects the texts of assistant entries |
| `ChatQueue.EachItemHasOneFate` | internal/chatqueue/chatqueue.go:228-456 | between Clears each item added is popped once, taken once, removed once or still queued, and only one of these |
| `ChatQueue.NothingIsLostOrInvented` | internal/chatqueue/chatqueue.go:228-456 | as bags, items added are items popped, taken, removed and queued |
| `ChatQueue.PositionsRise` | internal/chatqueue/chatqueue.go:228-315 | issued positions strictly increase and lie below the next one, so they never clash |
| `ChatQueue.TimelessItemsLeaveInOrder` | internal/chatqueue/chatqueue.go:379-408 | an item never given a time leaves PopHead after everything popped before it in queue order, so it is never overtaken |
| `ChatQueue.HeadIsLowestDue` | internal/chatqueue/chatqueue.go:383-396 | the head is due and no due item stands before it; no head means nothing is due |
| `ChatQueue.SetNotBeforeIs` | internal/chatqueue/chatqueue.go:345-361 | after setting a time exactly the row with that position has it |
| `ChatQueue.RowsKeepTheirTime` | internal/chatqueue/chatqueue.go:228-456 | in every run a row has the time last set for it since it was added, or the one it was added with |
| `ChatQueue.PausedIsTheLastWord` | internal/chatqueue/chatqueue.go:412-430 | in every run a session is paused exactly when the last word on it says so |
| `QueueRace.EveryReadIsHandedOut` | internal/chatqueue/chatqueue.go:319-408 | when calls run their SELECT and DELETE as two steps, every read of a row is handed out once or still in flight |
| `QueueRace.HandedOutOnceIffNoOverlap` | internal/chatqueue/chatqueue.go:319-408 | in every interleaving of any calls a row is handed out at most once exactly when no read of it falls between another call's read and its delete |
| `QueueRace.UndisturbedCallIsOneOperation` | internal/chatqueue/chatqueue.go:319-408 | a call whose delete directly follows its read is the one operation of the queue |
| `QueueRace.OtherCallsAreOneOperation` | internal/chatqueue/chatqueue.go:228-476 | every other call is the one operation of the queue at its step |
| `QueueRace.OverlappingPopsDeliverTwice` | internal/chatqueue/chatqueue.go:383-408 | after any run, two calls that both read the same row before either deletes it hand it out twice |
| `ChatQueue.Store.AddItem` | internal/chatqueue/chatqueue.go:228-315 | adding validates, takes the next position from the settings row, and changes only this session |
| `ChatQueue.Store.Take` | internal/chatqueue/chatqueue.go:319-341 | taking removes and returns the item at a position, if there is one |
| `ChatQueue.Store.PopHead` | internal/chatqueue/chatqueue.go:383-408 | popping removes and returns the head, if something is due |
| `ChatQueue.Store.SetNotBefore` | internal/chatqueue/chatqueue.go:345-361 | rescheduling changes one item's time and nothing else |
| `ChatQueue.Store.Remove` | internal/chatqueue/chatqueue.go:365-377 | removing is idempotent |
| `ChatQueue.Store.SetPaused` | internal/chatqueue/chatqueue.go:412-430 | pausing creates or updates the settings row and keeps the next position |
| `ChatQueue.Store.SessionsWithItems` | internal/chatqueue/chatqueue.go:434-456 | lists, each once, exactly the unpaused sessions whose PopHead would hand something out |
| `ChatQueue.Store.Clear` | internal/chatqueue/chatqueue.go:460-476 | clearing drops the session's rows and settings |
| `Summaries.ByActivitySorts` | internal/sessions/session.go:76-108 | sorting by activity keeps every summary, puts dated ones first, newest first, and keeps ties in their old order |
| `Summaries.SortedIsUnique` | internal/sessions/session.go:94-102 | the order is strict, so any sorting algorithm gives the same result |
| `Summaries.SortSummariesByActivity` | internal/sessions/session.go:76-108 | the slice is sorted in place |
| `Summaries.ByProjectKeepsAll` | internal/sessions/session.go:113-159 | sorting by project keeps every summary |
| `Summaries.ByProjectGroups` | internal/sessions/session.go:113-159 | the sessions of each project stand together, in activity order |
| `Summaries.ProjectsFollowLatestActivity` | internal/sessions/session.go:145-153 | in the resulting list the project of an earlier summary has a newest activity no older than that of a later one, and dated projects come first |
| `Summaries.SortSummariesByProjectActivity` | internal/sessions/session.go:113-159 | the slice is regrouped in place |
| `Cache.AnyHistoryLoadsAfresh` | internal/sessions/cache.go:44-176 | after any history of loads, removals and file changes the next load gives, as a bag, every file parsed afresh; a further load of unchanged files parses again only those that do not parse, so none exactly when every file parses |
| `Cache.SecondLoadParses` | internal/sessions/cache.go:93-103 | a second load of unchanged files parses exactly the unparseable ones |
| `Cache.HitsAndMisses` | internal/sessions/cache.go:93-160 | cached summaries and parsed ones together are what parsing every file gives |
| `Cache.LoadedHits` | internal/sessions/cache.go:93-160 | after a load an unchanged file is a hit exactly when it parses |
| `Cache.IndexSurvivesIffNoTwin` | internal/sessions/cache.go:105-117 | a load that only evicts leaves every cached file findable exactly when no file that went shared its name with one that stayed |
| `Cache.SessionCache.LoadAll` | internal/sessions/cache.go:44-176 | the method on the maps: result, order, entries, counters and path index |
| `Cache.SessionCache.Resolve` | internal/sessions/cache.go:222-263 | resolving returns what parsing the file as it is on disk now gives, or the error the path, the scan or the parse gives, and remembers just the path and the session it answers with |
| `Cache.UnknownNameIsScannedFor` | internal/sessions/cache.go:222-263 | a name the index does not know is answered by the first file that has it, parsed as it is, and refused unless it is a file name that ends in .jsonl |
| `Cache.KnownNameIsLookedUp` | internal/sessions/cache.go:222-263 | a name the index knows is answered by the path it leads to, or reported gone |
| `Cache.SessionCache.Remove` | internal/sessions/cache.go:182-191 | removing by name drops the path everywhere |
| `Parsers.ParsersAgreeIff` | internal/sessions/session.go:207-281 | ParseSummary and ParseFile agree on every state a growing log goes through exactly when every line is harmless where it stands |
| `Parsers.RegularLogsAgree` | internal/sessions/session.go:550-641 | on logs with identical headers, non-empty timestamps and flagged archive lines both compute the same summary |
| `Parsers.EachConditionIsNeeded` | internal/sessions/session.go:207-281 | a repeated header with another name, an empty timestamp and an archive line without its flag each make them differ |
| `Parsers.TitlerAgreesWithSummary` | internal/sessions/title.go:42-103 | on every log the titler's name and first user text are ParseSummary's |
| `Parsers.TitlerAgreesWithFile` | internal/sessions/title.go:42-103 | and ParseFile's on regular logs |
| `Parsers.HeadersAreKeptOnce` | internal/sessions/session.go:577-590 | ParseFile's entries hold each header once |
| `Parsers.CanonicalIsStable` | internal/sessions/session.go:673-679 | canonical project keys are stable, and paths that differ in slashes or, on a drive, in case share one |
| `LogMeaning.KeysAgreeIff` | internal/sessions/session.go:673-679 | two directories share a key exactly when they differ at most in the direction of slashes and, on a drive, in the case of ASCII letters |
| `LogMeaning.SummaryMeans` | internal/sessions/session.go:163-281 | on every log each field of the summary is what the last line that speaks of it says: id, project and chat availability by the header, activity, model with provider, archive flag; the name by the last rename, else the header, else the first text of the user, else the file |
| `LogMeaning.TitleInputsMean` | internal/sessions/title.go:42-103 | what the titler goes by: first and last user text, number of user messages, last kind of line, the name and whether it is explicit or automatic |
| `LogMeaning.EntriesInOrder` | internal/sessions/session.go:550-641 | the entries are the readable lines that repeat no header, in order, and the header is the last session line among them |
| `LogMeaning.RepeatsIff` | internal/sessions/session.go:577-590 | a line repeats a header exactly when an earlier line has the same id, timestamp and directory, as long as ids and timestamps hold no NUL |
| `LogMeaning.NulsBlurHeaders` | internal/sessions/session.go:645-653 | with a NUL in a timestamp a header is taken for another one |
| `Parsers.BlocksTextAppend` | internal/sessions/session.go:285-331 | the text of blocks is that of its text blocks, each adding its own |
| `Parsers.ParseSummary` | internal/sessions/session.go:207-281 | the typed scan loop |
| `Parsers.ParseFile` | internal/sessions/session.go:550-641 | the untyped scan loop with its header check |
| `Parsers.ReadTitleInputs` | internal/sessions/title.go:42-103 | the titler's scan loop |
| `Parsers.ExtractText` | internal/sessions/session.go:285-331 | message text is the string, or its text blocks one after the other |
| `Paging.TailWindow` | internal/ui/session_page.go:61-95 | the tail starts at the first index, from the entry cap's cut on, whose tail fits the byte budget or is no longer than the floor |
| `Paging.ByteCutIsTight` | internal/ui/session_page.go:73-91 | if the byte cap chose the cut, one more entry would exceed the budget |
| `Paging.BytesAddUp` | internal/ui/session_page.go:73-91 | the bytes counted are the sum over the entries |
| `Paging.FloorIsKeptIff` | internal/ui/session_page.go:61-95 | the tail keeps the floor, or everything, exactly when the entry cap does not cut into it |
| `Paging.WindowsTile` | internal/server/handlers.go:255-304 | windows that tile what lies before the tail give with it exactly the entries from the first window on |
| `Paging.TheWholeLogIsReached` | internal/server/handlers.go:255-304 | they give the whole list exactly when the first window starts at zero |
| `Paging.WindowIsServedIff` | internal/server/handlers.go:268-285 | a request with two printed numbers is answered with its window exactly when their sum does not wrap in 64 bits, with an error when it does, and with everything when one does not fit |
| `Paging.EveryTileIsServed` | internal/server/handlers.go:268-285 | so each of the requests that tile the list is answered with its window |
| `Paging.OtherRequests` | internal/server/handlers.go:255-304 | with a parameter missing the tail is served when asked for, else everything; with one that is no number or negative, everything |
| `Paging.PagesRunThrough` | internal/server/handlers.go:236-253 | pages of one size run through the list without gap or overlap |
| `Paging.PageIsAWindow` | internal/server/handlers.go:236-253 | a page is the window at its offset exactly when it starts past the list or its end does not wrap |
| `Paging.OtherPages` | internal/server/handlers.go:236-253 | without a positive limit everything is one page; an offset that is no number or negative counts as zero |
| `TurnState.TailFindsTheLastMessage` | internal/sessions/turnstate.go:63-119 | a message found in the tail is the last of the whole file; one is missed exactly when all stand before the tail's whole lines |
| `TurnState.RecentMessageIsFound` | internal/sessions/turnstate.go:63-119 | a message behind a line break fewer than 65536 characters from the end is found, whatever stands before |
| `TurnState.ShortFilesAreReadWhole` | internal/sessions/turnstate.go:72-92 | a file of at most 65536 characters is read whole, of a longer one the last 65536 without their first line |
| `TurnState.LastLineDecides` | internal/sessions/turnstate.go:93-119 | the last line that is not blank and decodes to a message decides |
| `TurnState.TailLinesEndTheFile` | internal/sessions/turnstate.go:84-91 | the tail's lines without the first are the file's last lines |
| `TurnState.ReadLastTurnState` | internal/sessions/turnstate.go:63-119 | the backward loop finds the last message among the tail's lines |
| `Scheduler.OccurrencesRise` | internal/server/scheduler.go:52-102 | with a clock that never goes back the occurrences fired for a schedule strictly increase over the whole run, edits included, and none fires early |
| `Scheduler.UnchangedNeverRepeats` | internal/server/scheduler.go:52-102 | while a schedule is unchanged this holds whatever the clock does |
| `Scheduler.FiringWasPending` | internal/server/scheduler.go:74-83 | what fires was computed at an earlier tick from that tick's time and the schedule with the signature it still has, so occurrences missed while nothing ran are skipped |
| `Scheduler.LaterFiresLater` | internal/server/scheduler.go:52-102 | of two ticks that fire a schedule the later one fires the later occurrence, with a clock that never goes back |
| `Scheduler.UnchangedFiresLater` | internal/server/scheduler.go:52-102 | with any clock, while the schedule is not armed anew |
| `Scheduler.DueFires` | internal/server/scheduler.go:52-102 | an occurrence pending for an unchanged schedule fires at the first tick that comes no earlier |
| `Scheduler.ActiveTick` | internal/server/scheduler.go:52-102 | what a tick does to a listed, enabled schedule with a cron expression |
| `Scheduler.InactiveTick` | internal/server/scheduler.go:64-68 | any other schedule fires nothing and has nothing pending |
| `Scheduler.SignaturesAgreeIff` | internal/server/scheduler.go:32-34 | two schedules count as unchanged exactly when expression and timezone are equal: a cron expression holds no bar |
| `Scheduler.ScheduleTimer.EvaluateSchedules` | internal/server/scheduler.go:52-102 | one tick over the map: each schedule is evaluated on its own, deleted ones are forgotten |
| `ProjectPrefs.OneRowPerKey` | internal/server/projects.go:110-166 | every key has exactly one row afterwards, enabled exactly when some merged row was |
| `ProjectPrefs.OneRowPerDirectory` | internal/server/projects.go:110-166 | no two rows are left whose paths differ only in slashes or, on a drive, in case; every directory keeps a row, enabled exactly when one of its rows was |
| `ProjectPrefs.WinnerIsFirst` | internal/server/projects.go:136-151 | of the rows of one directory the first enabled one stays, or, when none is enabled, the first |
| `ProjectPrefs.MigratingTwice` | internal/server/projects.go:110-114 | migrating again in any order changes nothing |
| `ProjectPrefs.PrefTable.MigrateProjectPaths` | internal/server/projects.go:115-166 | picking winners, deleting losers and rewriting give the migrated table for every row order |
| `ProjectPrefs.PrefTable.Rewrite` | internal/server/projects.go:163-165 | in any order of updates no path collides |
| `Tasks.NoTaskOutlivesTheDatabase` | internal/server/server.go:315-357 | once the database is closed every task ever accepted has finished and none is accepted later |
| `Tasks.ShutdownWaitsForAcceptedTasks` | internal/server/server.go:315-357 | after Shutdown has begun no task is accepted and the running ones only get fewer |
| `Tasks.AcceptedIffBefore` | internal/server/server.go:339-357 | exactly the calls of startTask before Shutdown began are accepted |
| `Tasks.ShutdownCompletes` | internal/server/server.go:315-335 | from any point Shutdown ends exactly when all tasks still running have returned |
| `Cron.BuiltIsParsed` | web/src/index/schedules.js:15-64 | parsing a built expression gives back the preset and its fields moved into range |
| `Cron.EditingKeepsIff` | web/src/index/schedules.js:42-64 | an expression shown as a preset survives editing exactly when its minute and hour are in range |

## Left out

- Annotations.UnwrapAll: normalises the whole anchor, where the source normalises only parents of marks; which adjacent text nodes are merged elsewhere is not promised.
- Failing SQL statements: a queue call that has read a row deletes it and hands it out.
- Sockets, processes, signals, SQL, file system events, HTTP and JSON encoding: lines are datatypes, tables are maps or row lists, requests are steps.
- Real clocks and timers: time is an input where it matters, and when a worker has been idle for longer than the TTL is an input of the interleavings.
- Partial writes of a line: a write to a holder connection succeeds whole or fails.
- The holder's own idle shutdown, its terminate and cleanup paths, and what it passes on to pi's input.
- Request and response matching across a reattach: ids restart at req-1, so nothing is claimed there.
- `computeRunningStatus`: the decision chain that produces one session's status is the input of `Status`.
- `Manager.Close` does not wait for creations in flight; it takes every registered worker, and workers published after it are not followed.
- The browser model's view state (leaf selection, navigation) and live payload decoding.
- Entries without ids in the racing-window claims: every entry of the full log is taken to have one.
- Fenced code blocks as artifacts, languages and preview types; a snippet is opaque content.
- The DOM under an annotation anchor: text is a list of leaves with their slot, and a range that crosses an element boundary inside one text node cannot occur.
- White space on which Go and JavaScript differ (U+0085 and U+FEFF) is treated as text by both.
- Numbers above 2^53 in attachment sizes and cron fields, which JavaScript rounds.
- Collisions of upload file names, and the file names returned beside the message.
- The working directory's existence, on which chat availability depends, is an input of the summary and is not cached.
- Lower-casing of project keys beyond ASCII, and the decoding of directory names into projects.
- JSON lines whose fields have unexpected types: the typed parser skips such a line, the untyped one does not.
- Lines above the scanner's limit, which make every reader fail.
- The header fields of `SessionLog` beyond id, timestamp and directory; the parent of a branch file.
- Two loads or a load and a removal of the session cache at the same time.
- Push delivery, retries and the steps after a queued item is handed to dispatch or a schedule is started.
- `AssistantWorking` and other case analyses that read one value.
- Filters of summaries, settings, scratchpad, sounds and review comments: row and key handlers with easy claims only.
- The lossy encoding of project directory names and back.
