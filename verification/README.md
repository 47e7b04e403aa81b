# A verified model of Tempest's turn protocol and its neighbours

This project states, in Dafny, what the chat engine, the desktop host and a few
tools around them do, and proves what their design promises. The centre is the
streamed chat turn: a worker appends frames to a memory ledger, flushes them in
batches that may fail, ends with one terminal commit that must precede
visibility, is evicted, dies with its process, is settled by the next reader,
while host pollers replay and follow the ledger in coalesced pages.

`dafny verify dfyconfig.toml` checks everything. The modules:

- `Wire`, `Decimal`, `Options`, `Sequences`: the frames and documents, decimal
  numbers, and small shared vocabulary.
- `Coalesce`: delta coalescing as a normal form, and tilings of a ledger.
- `PlatformStore`: the transactional document store.
- `TurnProtocol`, `TurnInvariant`, `TurnSafety`: the turn as a state machine
  over every job ever created, what every step keeps, and what follows for whole
  runs. `TurnRecords` says field by field what the stored records hold, and
  `TurnMessages` that no message is lost. `ChatTurns` is the job manager with its
  objects updated in place, tied to the same step functions and to the records.
- `Poller`, `Delivery`, `PollerThread`: the host's claims and live feeds over that
  machine, what a follower gets over whole runs, and the thread that polls.
  `UnsavedEviction` is the case in which a follower is told two endings.
- `ChatWorker`, `AgentTurn`, `ActivityLabels`, `AgentWorker`, `Steers`: the two
  workers and the steering queue. `WorkerRuns` places the workers inside the
  protocol, and `StoredSlots` compares what a turn stores with what it shows.
  `CallHistory` and `TurnReports` follow single calls, usages and parts from the
  loop's events to the ledger and the message.
- `Framing`, `FrameStreams`, `Utf8Text`: the length-prefixed frames, their two
  readers, and the byte tests of one of them.
- `SyncScrub`: the scrubbing of what a sync sends.
- `BundlePruning`, `BlobSafety`, `BundleStore`: pruning, and the safety of blobs.
- `IoScan`: the depth-bounded call-graph scan.
- `FileNames`, `FileMigration`: the renaming of duplicate files.
- `Pools`, `PoolBuilder`, `PoolCoverage`: candidate values for a type.

In `TurnProtocol` a state keeps every job object, those of dead processes
included, apart from the registry of the live process; that a stream has one
generation, one live worker and no late writer is therefore proved, not built
in. The steps of different jobs, readers and pollers interleave freely. A store
call is two steps, taking the rows and committing or failing, with anything
in between.

Where the code does not do what its text says, the model follows the code, and
a lemma shows the case:

- The host's frame reader is said to mirror the engine's exactly. On headers
  without a bare carriage return `Framing.ReadersAgree` says exactly when it does,
  and `Framing.OneLineHeadersAgree` spells that out for one line;
  `Framing.MinusZeroDiffers` and `Framing.BareReturnFound` give streams on which
  it does not.
- The garbage collector is said to spare a concurrent ingest's blob. It does not
  when the ingest re-uses a blob that was already there: the collection of a
  pruned digest takes it (`BlobSafety.ReusedCandidateIsCollected`), and so would
  an aged sweep (`BlobSafety.ReusedBlobIsSwept`). `BlobSafety.HistoryExactlySafe`
  says exactly which histories are safe.
- A two-call scan for IO is exact only if every function within two calls is
  examined (`IoScan.ExactIffAllExamined`); the set of functions already looked at
  is shared across depths, and it can hide one (`IoScan.SeenHidesIo`).
- A pool marked typed can hold values outside the type
  (`Pools.UndefinedComponentFails`, `Pools.SeventhPropertyFails`,
  `Pools.DeclaredPropertyFails`; the exact conditions are `Pools.TupleExactly`,
  `Pools.RecordExactly` and `Pools.IndexedExactly`).
- The name migration groups a missing conversation or tenant apart from a null
  one, which its index does not: a collision across the two stays
  (`FileNames.UniqueExactly`).
- The replay and the feed tile one growing ledger only while a job whose
  terminal commit failed is not evicted (`Delivery.UnsavedEvictionBreaksFollowers`),
  which does happen (`UnsavedEviction.UnsavedEvictionHappens`).
- The persisted message of an agent turn is said to render what the live stream
  rendered. A turn that never said anything stores every part one index lower than
  the stream showed it (`StoredSlots.StoredSlotsExactly`, `StoredSlots.UnsaidTurn`).

The emitter of an agent turn relies on its loop: a call restarted under an id
still open would leave an empty placeholder in the persisted message
(`AgentTurn.PersistedEqualsStreamed`). The loop finishes each call before it
starts the next, so this does not happen (`AgentTurn.BracketedTurnMirrors`).

## Model

| member | source | states |
|---|---|---|
| TurnInvariant.RunKeeps | packages/api/src/tempest_api/chatturn.py:139-1100 | the invariant of the whole turn protocol (stored ledger against memory ledger, receipts, registry, fresh ids) holds after every run of reservations, openings, appends, flushes, finishes, evictions, crashes and reconciliations |
| TurnInvariant.StepKeeps | packages/api/src/tempest_api/chatturn.py:139-1100 | every single step keeps that invariant, whatever phase every other job is in |
| TurnSafety.PrefixDurability | packages/api/src/tempest_api/chatturn.py:721-745 | while a turn runs, under any pattern of failed flushes, the store holds exactly frames 1..k and the pending rows together with the batch in flight are exactly k+1..n |
| TurnSafety.TerminalReceipt | packages/api/src/tempest_api/chatturn.py:632-687 | once the turn row is terminal the stored ledger ends in its one final, and the reply in it is stored under the reply id, answers the turn's user message, has the text of the ledger and agrees with the status |
| TurnSafety.VisibleFinal | packages/api/src/tempest_api/chatturn.py:651-687 | a final any reader can see in memory is durable with its status, or carries the whole reply all the same, text, parts and error, and behind it the not-saved error |
| TurnSafety.EvictionUnnoticed | packages/api/src/tempest_api/chatturn.py:409-419 | a settled job whose terminal commit succeeded serves from memory, for every cursor, the page the store serves, so its eviction cannot be observed |
| TurnSafety.UnsavedEvictionShows | packages/api/src/tempest_api/chatturn.py:780-811 | a job whose terminal commit failed is the exception: when a start evicts it, the next read settles its stream and the page changes |
| TurnSafety.StorePageIs | packages/api/src/tempest_api/chatturn.py:797-811 | the page built from the listed rows is the coalesced window of the stored ledger past the cursor |
| TurnSafety.OneGeneration | packages/api/src/tempest_api/chatturn.py:349-353 | the stored rows of a stream always belong to one generation, the job whose opening commit was last, and the turn row names that job's messages and time |
| TurnSafety.OneLiveJob | packages/api/src/tempest_api/chatturn.py:334-338 | at most one job of a stream is alive |
| TurnSafety.ConcurrentStartsConflict | packages/api/src/tempest_api/chatturn.py:330-338 | of two starts on one stream the second is refused while the first is alive |
| TurnSafety.LivingNeverReconciled | packages/api/src/tempest_api/chatturn.py:1034-1050 | no read reconciles the turn of a living job, at any point of its life |
| TurnSafety.NoLateWrites | packages/api/src/tempest_api/chatturn.py:349-357 | after a generation's opening commit no earlier worker of the stream writes again, in any continuation |
| TurnSafety.ReconcileCloses | packages/api/src/tempest_api/chatturn.py:1052-1100 | reconciling keeps the durable frames and closes the ledger with one aborted final; the reply stored with it answers the user's message, has no error, and its content is one part with exactly the durable text, none if there is no text |
| TurnSafety.CrashRecovery | packages/api/src/tempest_api/chatturn.py:1052-1100 | after a crash at any point an open turn can be settled, from exactly what was durable and with that partial reply, and is not settled twice |
| TurnMessages.MessagesDelivered | packages/api/src/tempest_api/chatturn.py:340-357 | in every state the user's message of a stream's turn is stored, and is the one its ledger starts with unless its id was used twice; a stored reply answers its own job's user message, which is stored |
| TurnMessages.StepDelivers | packages/api/src/tempest_api/chatturn.py:340-357 | every step keeps that, whatever other turns do |
| ChatTurns.Job.Append | packages/api/src/tempest_api/chatturn.py:139-148 | appending in place is the protocol's append |
| ChatTurns.Job.Say | packages/api/src/tempest_api/chatturn.py:473-478 | a piece of answer text is remembered for the persisted message and streamed, as the protocol has it |
| ChatTurns.ChatTurns.EvictSettled | packages/api/src/tempest_api/chatturn.py:409-419 | exactly the oldest settled jobs past the keep-window of eight leave the table, ties by stream id |
| ChatTurns.BeforeIsOrder | packages/api/src/tempest_api/chatturn.py:409-419 | stream ids are ordered as strings are: alike up to a place and there ended or smaller |
| ChatTurns.ChatTurns.StartTurn | packages/api/src/tempest_api/chatturn.py:320-357 | conflict exactly when a live job is registered; else the oldest settled jobs past the keep-window go, as the protocol's reservation has it, and after the opening commit the store holds the user's message, the active turn row and the new generation's two frames in place of the old rows and is otherwise as it was, or the slot is given back and the store is as before |
| ChatTurns.ChatTurns.FlushIfDue | packages/api/src/tempest_api/chatturn.py:721-745 | not due: nothing; due: the batch is taken and stored, or put back |
| ChatTurns.ChatTurns.Finish | packages/api/src/tempest_api/chatturn.py:555-687 | equal to the protocol's steps; stored: the ledger is closed by the note, the usage with its numbers and the final, whose reply has the text, the parts and the error and is stored with the row and all frames; not stored: one final with that whole reply and the not-saved error |
| ChatTurns.ChatTurns.JobOrReconcile | packages/api/src/tempest_api/chatturn.py:1034-1100 | the registered job, or a dead turn settled: its partial reply stored with its text as one part, its row aborted, one aborted final after its rows, nothing else touched |
| ChatTurns.ChatTurns.EventsAfter | packages/api/src/tempest_api/chatturn.py:780-811 | the memory page of a registered job, else the store page of a listing of the stream's rows; the store is as before but for a dead turn settled |
| ChatTurns.TextAndLast | packages/api/src/tempest_api/chatturn.py:1052-1080 | one pass over the rows gives the answer text and the highest number |
| Wire.PartsJoin | packages/api/src/tempest_api/chatturn.py:1054-1061 | the text of a delta is its text parts' texts in their order; other parts add nothing |
| PlatformStore.PlatformStore.PutManyMulti | packages/api/src/tempest_api/platformstore.py:118-154 | the deletes and then the upserts all happen, or nothing does |
| PlatformStore.PlatformStore.FindEvents | packages/api/src/tempest_api/platformstore.py:183-207 | the stream's rows, each once, in order of number |
| PlatformStore.EventKeyReadsBack | packages/api/src/tempest_api/chatturn.py:151-152 | a row key determines its stream and number, for every stream id and numbers of any length |
| PlatformStore.EventKeyPadded | packages/api/src/tempest_api/chatturn.py:151-152 | the keys of one stream are equally long while numbers have at most eight digits |
| PlatformStore.ListingIsLedger | packages/api/src/tempest_api/platformstore.py:183-207 | the listing of a stored ledger is that ledger, frame by frame |
| Coalesce.CoalesceDeltas | packages/api/src/tempest_api/chatturn.py:155-198 | the loop that rewrites its last output entry computes the coalesced log, in which no two neighbours are single pieces of one channel and step |
| Coalesce.RunIsOne | packages/api/src/tempest_api/chatturn.py:172-196 | a run of pieces of one channel and one step, of answer or of thinking, becomes exactly one event with the run's last number and the pieces' texts joined |
| Coalesce.CoalescedRenders | packages/api/src/tempest_api/chatturn.py:155-198 | coalescing cannot be seen: the text of every step on both channels and every other frame, in order, are those of the raw log |
| Coalesce.NoTwoOfARun | packages/api/src/tempest_api/chatturn.py:155-198 | no two adjacent events of the result are pieces of one run, on either channel |
| Coalesce.FixpointIffNormal | packages/api/src/tempest_api/chatturn.py:155-198 | coalescing leaves a log alone if and only if it has no mergeable neighbours |
| Coalesce.CoalescedIdempotent | packages/api/src/tempest_api/chatturn.py:155-198 | coalescing twice is coalescing once |
| Coalesce.CoalescedConcat | packages/api/src/tempest_api/chatturn.py:155-198 | coalescing two coalesced halves gives what coalescing the whole gives |
| Coalesce.MergeOrderIrrelevant | packages/api/src/tempest_api/chatturn.py:155-198 | merging any one mergeable pair first changes nothing: the normal form is unique |
| Coalesce.CoalescedTiles | packages/api/src/tempest_api/chatturn.py:155-198 | the events of a coalesced window cut it into consecutive intervals, each carrying its run's last number and rendering as the run does |
| Coalesce.TilesJoin | packages/desktop/src-tauri/src/agent_chat.rs:95-97 | two adjacent tilings make one |
| Coalesce.TilesOrdered | packages/api/src/tempest_api/chatturn.py:155-198 | numbers of a tiling strictly increase |
| Coalesce.TilesShow | packages/api/src/tempest_api/chatturn.py:155-198 | a tiling renders as the raw ledger between its ends |
| Delivery.ExactlyOnceDelivery | packages/desktop/src-tauri/src/agent_chat.rs:606-700 | a replay page from any cursor and the batches its own poller pushes cut the ledger between the cursor and the poller's cursor into consecutive intervals, for every interleaving with the engine, other pollers and newer claims within the turn; a normal exit has covered the final |
| Poller.StepCovers | packages/desktop/src-tauri/src/agent_chat.rs:619-699 | every step of engine and host keeps that tiling |
| Poller.ReplayCovers | packages/desktop/src-tauri/src/commands.rs:323-349 | a replay page and the cursor it leaves tile the ledger from the caller's cursor |
| Delivery.SupersededIsSilent | packages/desktop/src-tauri/src/agent_chat.rs:627-661 | a poller that has lost its stream pushes nothing more in any run |
| Delivery.ClaimsAreRespected | packages/desktop/src-tauri/src/agent_chat.rs:696-700 | no step of a poller changes a claim that is not its own |
| Poller.VisibleGrows | packages/api/src/tempest_api/chatturn.py:780-811 | within a turn the ledger a reader sees only grows and a finished one stays, also when memory hands over to the store |
| Delivery.UnsavedEvictionBreaksFollowers | packages/api/src/tempest_api/chatturn.py:651-683 | the turn's boundary matters: after a start has evicted an unsaved job and its stored prefix is settled, the visible ledger does not extend the one followed before |
| UnsavedEviction.UnsavedEvictionHappens | packages/api/src/tempest_api/chatturn.py:409-419 | it happens: a reachable state with nine settled jobs, the oldest unsaved, a start that evicts it and the read after which its follower is told another ending |
| UnsavedEviction.FilledReached | packages/api/src/tempest_api/chatturn.py:409-419 | for every number of turns up to the keep-window and one, a reachable registry that holds them, all saved but the oldest |
| Delivery.FeedInMotion | packages/desktop/src-tauri/src/commands.rs:323-349 | the delivery claim is about something: for every stream and message there is a reachable engine, a replay and a poller's run within the turn |
| PollerThread.Thread.constructor | packages/desktop/src-tauri/src/agent_chat.rs:118-126 | claiming replaces only this stream's claim and starts at the page's end |
| PollerThread.Thread.MayPoll | packages/desktop/src-tauri/src/agent_chat.rs:622-628 | the loop goes on exactly while the claim is this thread's, and otherwise ends superseded |
| PollerThread.Thread.OnPage | packages/desktop/src-tauri/src/agent_chat.rs:640-672 | the claim is checked again before a push, and the thread stands down exactly when there is something to push and the claim is lost; the cursor moves to the page's last number, and the loop is left after an empty page of a finished turn |
| PollerThread.Thread.OnFailure | packages/desktop/src-tauri/src/agent_chat.rs:673-693 | broken is reported exactly when the failure has lasted the grace and the claim is still held |
| PollerThread.Thread.Exit | packages/desktop/src-tauri/src/agent_chat.rs:696-700 | the claim is removed only if it is this thread's |
| ChatWorker.PersistedEqualsStreamed | packages/api/src/tempest_api/chatturn.py:423-553 | the persisted text is the streamed text; the thinking part is the streamed thinking, there if and only if there was any, its step opened once and before the first thought |
| ChatWorker.NeverSilent | packages/api/src/tempest_api/chatturn.py:518-537 | a turn that ends cleanly is never silent, the provider's client sending no empty answer chunk: its ledger has text, which is the text it persists |
| ChatWorker.StreamIsAnswer | packages/api/src/tempest_api/chatturn.py:466-537 | the ledger streams and the turn persists exactly the text the provider sent, with the note for a thinking or a silent model if there was none, and exactly its thinking |
| ChatWorker.OutcomeExactly | packages/api/src/tempest_api/chatturn.py:504-553 | the finish is told aborted exactly for a cancelled stream, the error exactly for a failed one, the last usage reported and the thinking |
| ChatWorker.DeltasFindTheirStep | packages/api/src/tempest_api/chatwire.py:13-17 | in the ledger of a plain turn every delta comes after the frame that opened its step, text and thinking each on a step of their own kind |
| ChatWorker.Worker.RunTurn | packages/api/src/tempest_api/chatturn.py:434-553 | the loop over the provider's stream ends in the worker's state and outcome for those events |
| WorkerRuns.RunShows | packages/api/src/tempest_api/chatturn.py:359-400 | in every run, whatever else happens in it, a job that streams and is not beyond finishing carries exactly the frames and the text its worker appended |
| WorkerRuns.RunStores | packages/api/src/tempest_api/chatturn.py:555-687 | in every run in which a job streams those frames, finishes with that outcome and has its terminal commit, the reply built from them is stored at the end, with any flush failures, other jobs, evictions and crashes in between |
| WorkerRuns.ReplyKept | packages/api/src/tempest_api/chatturn.py:632-652 | a stored reply is never replaced, in any continuation |
| WorkerRuns.WorkerCanFinish | packages/api/src/tempest_api/chatturn.py:359-400 | from every state with a streaming job there is a run in which it shows any given frames, finishes in any given way and has its terminal commit, so the claims over all such runs are about something |
| WorkerRuns.ChatTurnPersists | packages/api/src/tempest_api/chatturn.py:571-598 | over every such run the message stored under a plain turn's reply id answers the user's message and has the ledger's text with the note of a refused charge, then the streamed thinking, then the error if any, with the marks of its end |
| WorkerRuns.AgentTurnPersists | packages/api/src/tempest_api/agentturn.py:515-554 | over every such run the message stored under an agent turn's reply id answers the user's message and has the ledger's text, then the parts of the exit in index order, then the error if any, with the marks of its end |
| StoredSlots.StoredSlotsExactly | packages/api/src/tempest_api/chatturn.py:571-584 | the stored content is index by index what the turn's ledger shows if and only if the turn has no part beside its text, or it has text and restarted no open call; without text every part is stored one index lower |
| StoredSlots.UnsaidTurn | packages/api/src/tempest_api/agentturn.py:254-264 | such a turn exists for every first turn of a process: it shows a phase at index 1, says nothing and stores the phase at index 0 |
| AgentTurn.PersistedEqualsStreamed | packages/api/src/tempest_api/agentturn.py:254-264 | the next index is one past the parts at every moment; the persisted parts are, index by index, what the stream showed, and hold no placeholder, if and only if no call was started under an id still open |
| AgentTurn.BracketedTurnMirrors | packages/engine/src/tempest/agent/orchestrator.py:521-537 | the loop finishes each call before it starts the next, so the parts its turns persist are always what they showed, without placeholders |
| AgentTurn.TurnMirror | packages/api/src/tempest_api/agentturn.py:303-367 | over every event history the parts mirror the stream, and a placeholder without an open call exists exactly when some open id was restarted |
| AgentTurn.EventOpens | packages/api/src/tempest_api/agentturn.py:311-341 | a call id is open exactly from its start to its next finish |
| CallHistory.CallReturns | packages/api/src/tempest_api/agentturn.py:312-371 | a call that starts and comes back, whatever happens between and after: its start announces an index, its finish completes the same step with the event's output, and at that index the ledger shows and the message stores the call with that output |
| CallHistory.CallInterrupted | packages/api/src/tempest_api/agentturn.py:517-541 | a call that never comes back is shown and stored at its announced index as issued, without output |
| TurnReports.ReportsPublished | packages/api/src/tempest_api/agentturn.py:372-394 | the ledger reports, in order and under the turn's run id, exactly the usages with their numbers, the gauges and the questions the events carried |
| TurnReports.PartsInOrder | packages/api/src/tempest_api/agentturn.py:312-401 | apart from batch headers the parts introduced are exactly those the events ask for, in order: calls as issued, proving phases, steers |
| TurnReports.NarrationFindsItsStep | packages/api/src/tempest_api/chatwire.py:13-17 | in the ledger of an agent turn every piece of text comes after the frame that opened its step |
| AgentTurn.TextEqualsStreamed | packages/api/src/tempest_api/agentturn.py:304-311 | the persisted text is the streamed text, and usage reports are numbered 1, 2, 3 and on |
| AgentTurn.TextIsNarration | packages/api/src/tempest_api/agentturn.py:304-311 | that text is the loop's sayings and stop notes with a blank line between each two |
| AgentTurn.SteersPublished | packages/api/src/tempest_api/agentturn.py:466-491 | a drain publishes one applied frame per drained steer, in queue order, at consecutive indices |
| ActivityLabels.StreamedHeaders | packages/api/src/tempest_api/agentturn.py:266-301 | the streamed headers claim, in order, exactly the calls the loop started, and each card has a header after it, of its kind, naming it, with no call of another kind between; a proving phase comes after the headers of all calls before it |
| ActivityLabels.SameHeaderExactly | packages/api/src/tempest_api/agentturn.py:56-64 | tools share a header exactly when they are the same, both look at the repository's files, or are both unknown |
| ActivityLabels.PersistedHeaders | packages/api/src/tempest_api/agentturn.py:515-541 | the same of the persisted parts when no open id was restarted |
| ActivityLabels.HeadersPartition | packages/api/src/tempest_api/agentturn.py:295-301 | headers and the open batch together list each started call once, in start order |
| AgentWorker.Worker.Emit | packages/api/src/tempest_api/agentturn.py:303-425 | each event, handled in place, does what that event does to the turn, of which the history results above speak, and keeps the mirror |
| AgentWorker.Worker.CloseBatch | packages/api/src/tempest_api/agentturn.py:266-293 | the header takes an index after the calls it covers |
| AgentWorker.Worker.ShowSteers | packages/api/src/tempest_api/agentturn.py:466-491 | drained steers are published one by one |
| AgentWorker.Worker.Exit | packages/api/src/tempest_api/agentturn.py:515-541 | the exit closes the batch and fills each slot still open with its call as issued, and nothing else |
| Steers.SteersConserved | packages/api/src/tempest_api/chatturn.py:849-919 | over every run the acknowledged steers that were not removed are, in order, those applied, those in hand and those queued, and no two queued ones share a client's id |
| Steers.LeftoversExact | packages/api/src/tempest_api/chatturn.py:840-846 | what is left at the end is exactly the acknowledged steers neither removed nor applied |
| Steers.DrainedStays | packages/api/src/tempest_api/chatturn.py:893-914 | a steer the loop has drained cannot be removed |
| Steers.SteerQueue.QueueSteer | packages/api/src/tempest_api/chatturn.py:849-891 | the four answers exactly; the first acknowledgement replayed for a client id already queued, else the row with its id, text and time behind all others |
| Steers.SteerQueue.CancelSteer | packages/api/src/tempest_api/chatturn.py:893-914 | removed exactly when a queued steer is named by its id or its client's; exactly those go and the rest stays in order |
| Steers.CancelExactly | packages/api/src/tempest_api/chatturn.py:893-914 | a cancel counts exactly the queued steers it names as removed and touches no other |
| Steers.SteerQueue.TakeAll | packages/api/src/tempest_api/agentturn.py:466-475 | the loop takes the whole queue |
| Framing.RoundTrip | packages/api/src/tempest_api/stdiorpc.py:40-76 | every list of payloads within the cap, written, is read back by either reader, and the stream then ends cleanly |
| Framing.CutStream | packages/desktop/src-tauri/src/framing.rs:45-89 | cut anywhere, a written stream gives exactly its whole frames; the end is clean if and only if the cut is at a frame boundary, else a protocol error |
| Framing.ReadBackExactly | packages/api/src/tempest_api/stdiorpc.py:70-71 | a frame is read back if and only if its payload is within the cap; a larger one is a protocol error for both readers |
| Framing.FirstTerminator | packages/api/src/tempest_api/stdiorpc.py:46-58 | a written header has no terminator before its end, whatever payload follows |
| Framing.WrittenHeader | packages/desktop/src-tauri/src/framing.rs:61-75 | either reader finds in a written header the length written |
| Framing.OneLineHeadersAgree | packages/desktop/src-tauri/src/framing.rs:45-89 | on a stream that starts with a one-line length header, whatever its value and whatever follows, the two readers do the same if and only if the header is too long or its value is neither the engine's alone (grouped digits, minus zero) nor the host's alone (too many digits, space outside ASCII) |
| Framing.MinusZeroDiffers | packages/api/src/tempest_api/stdiorpc.py:63-71 | a stream that is an empty frame for the engine and a protocol error for the host |
| Framing.ReadersAgree | packages/desktop/src-tauri/src/framing.rs:45-89 | on every stream whose header block, of any number of lines, has no bare carriage return, the two readers do the same if and only if the header is unfinished or too long, or every line naming the length is ASCII and gives a plain number while lines named inside space outside ASCII change nothing for the host, or both stop at it with the same fault |
| Framing.IntsAgree | packages/api/src/tempest_api/stdiorpc.py:63-67 | the two integer parsers read the same number exactly from the plain ones |
| Framing.EngineReadsMinus | packages/api/src/tempest_api/stdiorpc.py:63-71 | the engine reads a minus sign as one: of the negative lengths only zero is in range |
| Framing.EngineReadsGroups | packages/api/src/tempest_api/stdiorpc.py:63-67 | and an underscore between digits as nothing, which the host refuses |
| Framing.EngineRefusesGroups | packages/api/src/tempest_api/stdiorpc.py:63-67 | an underscore at either end, or two together, it refuses |
| Framing.NameInAnyCase | packages/desktop/src-tauri/src/framing.rs:65 | the name of the length is known by its letters, whatever their case |
| Framing.LastCounts | packages/desktop/src-tauri/src/framing.rs:60-75 | a bad length on any line breaks the header; otherwise the last line that gives a length gives it |
| Utf8Text.Utf8Exactly | packages/desktop/src-tauri/src/framing.rs:91-97 | the host takes a line for text exactly when it encodes some sequence of Unicode scalar values |
| Utf8Text.WhiteExactly | packages/desktop/src-tauri/src/framing.rs:66-71 | what the host trims are exactly the characters with the white-space property |
| Framing.BareReturnFound | packages/desktop/src-tauri/src/framing.rs:62-63 | for every payload a stream with a bare carriage return that the host reads and the engine refuses |
| Decimal.ParsePrint | packages/api/src/tempest_api/stdiorpc.py:41 | parsing undoes printing |
| FrameStreams.ReadOne | packages/api/src/tempest_api/stdiorpc.py:46-76 | byte by byte and with short reads, one frame is read as specified and what follows stays on the stream |
| FrameStreams.WriteFrame | packages/desktop/src-tauri/src/framing.rs:38-43 | the frame is appended to the stream |
| FrameStreams.FindLength | packages/desktop/src-tauri/src/framing.rs:61-75 | the last length counts, unless one is bad |
| SyncScrub.PiecesAreTheScan | packages/api/src/tempest_api/syncstrip.py:37 | the pieces are the one division the pattern's leftmost scan makes: spans where it matches, plain characters where it does not |
| SyncScrub.ScrubKeepsStructure | packages/api/src/tempest_api/syncstrip.py:55-65 | the scan of the output finds what it found in the input, each span now a placeholder, with empty quotes, unclosed quotes and mixed quotes as they were |
| SyncScrub.ScrubIsPiecewise | packages/api/src/tempest_api/syncstrip.py:55-65 | the substitution replaces spans and copies everything between |
| SyncScrub.ScrubIsProjection | packages/api/src/tempest_api/syncstrip.py:55-65 | every quoted span of the output is a placeholder, and scrubbing again changes nothing |
| SyncScrub.ScrubFixesExactly | packages/api/src/tempest_api/syncstrip.py:55-65 | a text is left alone if and only if each of its spans is left alone |
| SyncScrub.LiteralsStripOnce | packages/api/src/tempest_api/syncstrip.py:44-52 | a stripped literal is a placeholder with the digest of the whole value and is not stripped again |
| SyncScrub.ScrubHides | packages/api/src/tempest_api/syncstrip.py:55-65 | nothing outside spans is touched, and each span keeps its place and quotes and stands for its own content by that content's digest, so equal contents stay equal |
| SyncScrub.StripsOnce | packages/api/src/tempest_api/syncstrip.py:68-85 | stripping a record twice is stripping it once; every mined literal and every quoted span leaves as the placeholder of its own value, the narrative is dropped, verdict and severity stay |
| BundlePruning.PruneOverBudget | packages/api/src/tempest_api/bundlestore.py:97-137 | the loop removes as few of the oldest prunable runs as fit the budget, or all of them, and returns their digests in order |
| BundlePruning.PrunesOldest | packages/api/src/tempest_api/bundlestore.py:118-137 | what goes are the oldest runs that may go, their digests are reported in their order, and all others stay as they were |
| BundlePruning.PruningIsMinimal | packages/api/src/tempest_api/bundlestore.py:97-137 | that number is unique, larger ones fit exactly when it does, and if nothing fits only protected runs and the newest are left; those are never removed |
| BundlePruning.PruningLightens | packages/api/src/tempest_api/bundlestore.py:118-122 | pruning further never adds weight, shared digests counted once |
| BundlePruning.Weigh | packages/api/src/tempest_api/bundlestore.py:118-122 | the bytes of the distinct digests, each counted once |
| BlobSafety.CarefulExactly | packages/api/src/tempest_api/bundlestore.py:62-80 | while each ingest in flight has its blob, a step keeps it so if and only if it is careful: a sweep finds each such blob referenced or younger than the grace, and a collection's candidates are no open ingest's digest unless referenced |
| BlobSafety.HistoryExactlySafe | packages/api/src/tempest_api/bundlestore.py:62-80 | over a whole history no ingest in flight ever loses its blob if and only if every step is careful, and then each committed run has its evidence |
| BlobSafety.BlobSafety | packages/api/src/tempest_api/bundlestore.py:62-80 | over every careful history of ingests, rollbacks, commits, collections and sweeps each committed run has its blob |
| BlobSafety.HazardCosts | packages/api/src/tempest_api/bundlestore.py:62-80 | a hazard is real: the ingest that lost its blob can commit and leaves a run without evidence |
| BlobSafety.ReusedBlobIsSwept | packages/api/src/tempest_api/bundlestore.py:34-44 | storing the same bytes again does not renew the blob's age, so an ingest that re-uses an old unreferenced blob can lose it to a sweep although it takes no time |
| BlobSafety.ReusedCandidateIsCollected | packages/api/src/tempest_api/bundlestore.py:157-164 | the hazard the program can meet: the collection after a commit takes the pruned run's blob although an ingest in flight has put the same bytes |
| BlobSafety.SharedDigestStays | packages/api/src/tempest_api/bundlestore.py:157-164 | collecting a pruned digest spares one another committed run shares |
| BundleStore.Store.Put | packages/api/src/tempest_api/bundlestore.py:34-44 | identical bytes share one blob, which is written once |
| BundleStore.Store.Get | packages/api/src/tempest_api/bundlestore.py:46-50 | what is handed back has the digest asked for |
| BundleStore.Store.Gc | packages/api/src/tempest_api/bundlestore.py:62-80 | exactly the unreferenced blobs past the age go |
| BundleStore.Store.CollectCandidates | packages/api/src/tempest_api/bundlestore.py:157-164 | exactly the unreferenced candidates go, each reported once |
| IoScan.FoundIsThere | packages/ts-sidecar/src/analyze.ts:364-378 | the scan ends on every call graph and a true answer has IO at most that many calls away |
| IoScan.FalseRulesOut | packages/ts-sidecar/src/analyze.ts:426-441 | a false answer rules out IO in the body, its direct callees and every function looked at |
| IoScan.ShallowIsExact | packages/ts-sidecar/src/analyze.ts:364-378 | with at most one call to spare the scan is exact |
| IoScan.ClassifierExact | packages/ts-sidecar/src/analyze.ts:247-250 | at the depth the classifier uses, true if and only if the body or an examined function has IO |
| IoScan.ExactIffAllExamined | packages/ts-sidecar/src/analyze.ts:426-441 | the two-call scan is exact, wherever functions with these calls do their IO, if and only if the body does IO itself or every function within two calls is examined |
| IoScan.ForwardIsExact | packages/ts-sidecar/src/analyze.ts:426-441 | one case of it: no direct callee is called by an earlier one |
| IoScan.SeenHidesIo | packages/ts-sidecar/src/analyze.ts:426-441 | not in general: a three-function graph on which the shared set hides IO two calls away, and the order of two calls decides the answer |
| IoScan.TouchesIo | packages/ts-sidecar/src/analyze.ts:364-378 | the recursion over one shared set computes that scan |
| FileNames.NextAvailableName | packages/platform/config/migrate-code-file-duplicates.js:38-46 | the first free numbered name; the count ends whatever names are taken |
| FileNames.SuffixInjective | packages/platform/config/migrate-code-file-duplicates.js:25-30 | different numbers give different names, for any name and extension |
| FileNames.SuffixKeepsEnds | packages/platform/config/migrate-code-file-duplicates.js:25-30 | a numbered name keeps the stem in front and the extension behind |
| FileNames.OlderAreRenamed | packages/platform/config/migrate-code-file-duplicates.js:115-135 | of each group healed everyone is renamed but one, the youngest, and of equally young ones the first |
| FileNames.NumberedByAge | packages/platform/config/migrate-code-file-duplicates.js:115-141 | the younger of two renamed files gets the smaller number |
| FileNames.HealOne | packages/platform/config/migrate-code-file-duplicates.js:115-149 | healing one more group keeps the others healed: new names are alone in their scope, the newest keeps its name, other files are untouched |
| FileNames.UniqueExactly | packages/platform/config/migrate-code-file-duplicates.js:97-164 | names are unique afterwards if and only if no duplicate group was left out and no collision ran across two groups, a field missing in one and null in the other |
| FileNames.MissingMeetsNull | packages/platform/config/migrate-code-file-duplicates.js:97-128 | a missing conversation or tenant collides with a null one and falls into another group; a set one collides with neither |
| FileMigration.FileCollection.Migrate | packages/platform/config/migrate-code-file-duplicates.js:72-192 | the whole run: unique names exactly when no group failed and no collision ran across a missing and a null field; a dry run writes nothing and counts what a real one renames; a run without failed groups leaves no duplicate group, and a run that finds none changes nothing |
| FileNames.NothingLeftToHeal | packages/platform/config/migrate-code-file-duplicates.js:97-113 | with every duplicate group healed a second run finds none, collisions across a missing and a null field included |
| FileMigration.FileCollection.HealGroup | packages/platform/config/migrate-code-file-duplicates.js:115-147 | the older files get the least free numbers, newest of them first |
| FileMigration.DuplicateGroups | packages/platform/config/migrate-code-file-duplicates.js:97-113 | exactly the groups of two files or more, each once |
| Pools.TypedInhabits | packages/ts-sidecar/src/pools.ts:101-151 | for possibly recursive types of carried shape, every candidate of a pool marked typed has the type, and every marker stands for a value of it |
| Pools.EmptyPool | packages/ts-sidecar/src/pools.ts:101-151 | a pool is empty only for a type no JSON value inhabits |
| PoolCoverage.FiniteIsCovered | packages/ts-sidecar/src/pools.ts:101-163 | every value of a type with finitely many values, unions included, is offered, and nothing else |
| PoolCoverage.UnionCovers | packages/ts-sidecar/src/pools.ts:153-164 | a union's pool holds exactly its members' values and markers and is typed exactly when all of them are |
| PoolCoverage.UnionInOrder | packages/ts-sidecar/src/pools.ts:153-164 | the members' values come in the order of the members |
| PoolCoverage.ArrayOffers | packages/ts-sidecar/src/pools.ts:177-190 | the arrays offered: empty, the first element, the first four, and those twice |
| PoolCoverage.TupleOffers | packages/ts-sidecar/src/pools.ts:166-174 | the one tuple offered has each component's first value |
| PoolCoverage.RecordOffers | packages/ts-sidecar/src/pools.ts:206-231 | the two objects offered: every considered property with its first value, and exactly the required ones with a second value |
| PoolCoverage.IndexedOffers | packages/ts-sidecar/src/pools.ts:193-204 | the two objects offered for an indexed type: the empty one and the first three values under three keys |
| PoolCoverage.NumberEdges | packages/ts-sidecar/src/pools.ts:34-35 | the numbers offered have the edges: zero, both signs, the 32-bit ends, a fraction, and the markers of what JSON cannot write |
| PoolCoverage.TextEdges | packages/ts-sidecar/src/pools.ts:36 | the texts offered have the edges: empty, blank, broken over lines, outside ASCII |
| PoolCoverage.MixedHasAllKinds | packages/ts-sidecar/src/pools.ts:37-53 | the guess for an unknown type has a value of every JSON kind and is never marked typed |
| Pools.TupleExactly | packages/ts-sidecar/src/pools.ts:166-174 | with sound component pools a tuple's candidate has its type if and only if no component is only undefined |
| Pools.RecordExactly | packages/ts-sidecar/src/pools.ts:192-231 | with sound property pools a record's candidates have its type if and only if no considered property is only undefined and none after the sixth is required |
| Pools.IndexedExactly | packages/ts-sidecar/src/pools.ts:194-204 | with a sound value pool an indexed type's candidates have it if and only if every declared property is optional and suits what a candidate holds under its name |
| Pools.DeclaredPropertyFails | packages/ts-sidecar/src/pools.ts:194-204 | an indexed type with a required declared property is marked typed and offered the empty object |
| Pools.UndefinedComponentFails | packages/ts-sidecar/src/pools.ts:166-174 | a tuple with an undefined component is marked typed and gets a null no such tuple has |
| Pools.SeventhPropertyFails | packages/ts-sidecar/src/pools.ts:192-231 | an object type with a required seventh property is marked typed and no candidate has that property |
| PoolBuilder.ParameterPool | packages/ts-sidecar/src/pools.ts:80-95 | a parameter's candidates are the first eighty of its type's that print differently, short of eighty one for every print, with the mark of the type's pool and its markers and undefined if the parameter is optional; under a typed mark and a carried shape all are of its type |
| PoolBuilder.PoolForType | packages/ts-sidecar/src/pools.ts:101-163 | the recursion, with unions at equal depth, builds the specified pool |
| PoolBuilder.ObjectPool | packages/ts-sidecar/src/pools.ts:192-231 | the loop over properties builds both candidates |
| PoolBuilder.DedupeValues | packages/ts-sidecar/src/pools.ts:245-256 | exactly the values that no earlier one prints like are kept, in their order, so one for every print |
| PoolBuilder.DistinctAt | packages/ts-sidecar/src/pools.ts:245-256 | that list holds, by increasing places of the original, the first of each print |

## Left out

- Conversation documents, titles, senders, models, endpoints and timestamps other than a turn's creation time; a final frame's echo of the request and the conversation.
- The order in which a transaction writes its rows: their keys are distinct, so it cannot be seen.
- A commit that succeeds and still raises an error: a store call here either commits or fails.
- Message ids are assumed fresh: a reply's id is new and no user message reuses one.
- Reconciling a dead turn is one step, since requests to the engine are dispatched one at a time; a poller's second look at its claim and its push are one step, and so are minting a generation and inserting its claim.
- Clocks and flush timing: whether a flush is due by time, how long a failure has lasted and how old a blob is are inputs or steps.
- Delivery.ExactlyOnceDelivery: speaks of one turn within one engine process, without the eviction of a job whose terminal commit failed; `Delivery.UnsavedEvictionBreaksFollowers` shows why the last is needed, and a crash can leave a ledger shorter than a follower's cursor.
- The page a poller asked for and never received, the webview's own handling of events, and the serialisation of frames.
- The approval park, cancellation and the cost meter; the loop that produces an agent turn's events; a provider's stream and its text-only retry, which continues the same turn.
- The contents of a context-usage frame and whether one is due: both come with the event.
- ChatTurns.Job: the worker's copy of the text and the phase are ghost fields beside the object's own, since the code keeps the one in the worker and the other nowhere.
- Framing: a byte is the character with its code; errors of the stream itself are not modelled.
- Trimming a steer's text: the text and the client's id arrive trimmed, an empty id as none.
- Framing.ReadersAgree: headers with a bare carriage return are not characterised, since the two readers then see different lines; `Framing.BareReturnFound` shows that they differ there.
- Reading the referenced digests and unlinking what is not among them is one step of a collection; the aged sweep is part of the store's interface and has no caller in the program.
- Hashing, redaction and path extensions are parameters; a redaction is only assumed to leave a scrubbed text alone where twice-stripping is claimed.
- The zip archive around a stripped bundle, the stubs of its scripts and its targets beside the divergences.
- The files of the blob store are a map; a crash between a blob's temporary file and its rename is not modelled.
- Failures in the middle of one group's renames, the index build after the migration, and its report.
- How a function's body is turned into IO references and calls, and which names count as IO.
- Pools.TypedInhabits: one direction only over nested types, since a union can hold a value by another member than the one that supplied it and a tuple takes only the first value of a component; `Pools.TupleExactly`, `Pools.RecordExactly` and `Pools.IndexedExactly` are exact level by level. Property names are distinct, and a type reached through a name is looked at only as a component.
- Agent version history and paging of the agent list: straightforward updates of one document, which would add easy members.
- Routes, keychain, sockets, settings, watch sessions and the vendored client.
