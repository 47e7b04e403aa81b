/** The job manager as it runs: job objects updated in place, the registry, and the one store they
    share. Each method is tied to the steps of the turn protocol. */
module ChatTurns {
  import opened Options
  import opened Wire
  import opened Coalesce
  import opened PlatformStore
  import opened TurnInvariant
  import opened TurnRecords
  import P = TurnProtocol

  const FLUSH_EVERY_FRAMES: nat := 25

  /** One turn's job. `collected` is the worker's copy of the answer text and `phase` says between
      which two steps of the protocol the job is; the code keeps neither on the object. */
  class Job {
    const streamId: StreamId
    const createdAt: int
    const userMessageId: string
    const responseId: string
    var status: Status
    var frames: seq<Frame>
    var pending: set<EventRow>
    ghost var collected: string
    ghost var phase: P.Phase

    ghost function View(): P.Job
      reads this
    {
      P.Job(streamId, createdAt, userMessageId, responseId, status, frames, pending, collected, phase)
    }

    /** Pending rows are rows of the memory ledger. */
    ghost predicate Valid()
      reads this
    {
      pending <= LedgerRows(streamId, frames, 0)
    }

    constructor (streamId: StreamId, createdAt: int, user: Message, responseId: string)
      ensures View() == P.NewJob(streamId, createdAt, user, responseId) && Valid()
    {
      this.streamId := streamId;
      this.createdAt := createdAt;
      this.userMessageId := user.id;
      this.responseId := responseId;
      status := Active;
      frames := [];
      pending := {};
      collected := "";
      phase := P.Opening(user);
      new;
      Append(Created(user));
      Append(OpenStep(StepId(responseId, "0"), 0, false));
    }

    method Append(frame: Frame)
      requires Valid()
      modifies this
      ensures View() == P.Appended(old(View()), frame) && Valid()
    {
      var seqNo := |frames| + 1;
      PendingAppend(streamId, frames, frame, 0);
      frames := frames + [frame];
      pending := Upsert(pending, {EventRow(streamId, seqNo, frame)});
    }

    /** A piece of answer text: the worker remembers it and streams it. */
    method Say(text: string)
      requires Valid()
      modifies this
      ensures View() == P.Said(old(View()), text) && Valid()
    {
      collected := collected + text;
      Append(MessageDeltaFrame(responseId, text));
    }
  }

  /** What a start answers. */
  datatype StartAnswer = Started(job: Job) | Conflict | StoreFailed

  class ChatTurns {
    const store: PlatformStore
    var jobs: map<StreamId, Job>

    ghost predicate Valid()
      reads this, jobs.Values, store
    {
      store.Valid() && forall s :: s in jobs ==> jobs[s].streamId == s && jobs[s].Valid()
    }

    constructor (store: PlatformStore)
      requires store.Valid()
      ensures Valid() && jobs == map[] && this.store == store
    {
      this.store := store;
      jobs := map[];
    }

    method EvictSettled() returns (ghost evicted: set<StreamId>)
      requires Valid()
      modifies this`jobs
      ensures Valid() && Evicts(old(jobs), SettledIn(old(jobs)), evicted)
      ensures jobs.Keys == old(jobs).Keys - evicted && forall s :: s in jobs ==> jobs[s] == old(jobs)[s]
      ensures |SettledIn(old(jobs)) - evicted| == if |SettledIn(old(jobs))| < 8 then |SettledIn(old(jobs))| else 8
    {
      var settled := set s | s in jobs && jobs[s].status != Active;
      assert settled == SettledIn(jobs);
      var stale := Stale(jobs, settled);
      jobs := jobs - stale;
      evicted := stale;
    }

    /** Reserve the stream, then commit the opening rows; a failed commit gives the slot back. The
        conflict check and the reservation are one step. */
    method StartTurn(streamId: StreamId, createdAt: int, user: Message, newId: string, commits: bool)
        returns (answer: StartAnswer, ghost evicted: set<StreamId>)
      requires Valid()
      modifies this`jobs, store
      ensures Valid()
      ensures answer.Conflict? <==> streamId in old(jobs) && old(jobs)[streamId].status == Active
      ensures answer.Conflict? ==> jobs == old(jobs) && store.documents == old(store.documents)
      ensures !answer.Conflict? ==> answer.Started? == commits
      ensures !answer.Conflict? ==>
                streamId !in evicted && Evicts(old(jobs), old(SettledIn(jobs)) - {streamId}, evicted)
      ensures !answer.Conflict? ==> old(AgreedEviction(jobs, P.NewJob(streamId, createdAt, user, newId), evicted))
      ensures answer.StoreFailed? ==>
                && store.documents == old(store.documents)
                && jobs.Keys == old(jobs).Keys - {streamId} - evicted
      ensures answer.Started? ==>
                var blank := P.NewJob(streamId, createdAt, user, newId);
                && fresh(answer.job) && answer.job.View() == blank.(phase := P.Running, pending := {})
                && store.documents == Commit(old(store.documents), {streamId}, P.OpeningRows(blank, user))
                && jobs.Keys == old(jobs).Keys + {streamId} - evicted && jobs[streamId] == answer.job
      ensures answer.Started? ==>
                && IsOpened(old(store.documents), store.documents, streamId, createdAt, user, newId)
                && answer.job.frames == [Created(user), OpenStep(StepId(newId, "0"), 0, false)]
                && answer.job.pending == {} && answer.job.status == Active
      ensures !answer.Conflict? ==>
                (forall s :: s in jobs && s != streamId ==> s in old(jobs) && jobs[s] == old(jobs)[s])
    {
      if streamId in jobs && jobs[streamId].status == Active {
        return Conflict, {};
      }
      EvictionsAgree(jobs, P.NewJob(streamId, createdAt, user, newId));
      answer, evicted := Admit(streamId, createdAt, user, newId, commits);
      OpeningRecord(old(store.documents), P.NewJob(streamId, createdAt, user, newId), user);
      OpeningPending(P.NewJob(streamId, createdAt, user, newId), user);
    }

    method Admit(streamId: StreamId, createdAt: int, user: Message, newId: string, commits: bool)
        returns (answer: StartAnswer, ghost evicted: set<StreamId>)
      requires Valid()
      modifies this`jobs, store
      ensures Valid() && streamId !in evicted
      ensures Evicts(old(jobs), old(SettledIn(jobs)) - {streamId}, evicted)
      ensures if commits then answer.Started? else answer == StoreFailed
      ensures answer.StoreFailed? ==>
                store.documents == old(store.documents) && jobs.Keys == old(jobs).Keys - {streamId} - evicted
      ensures answer.Started? ==>
                var blank := P.NewJob(streamId, createdAt, user, newId);
                && fresh(answer.job) && answer.job.View() == blank.(phase := P.Running, pending := {})
                && store.documents == Commit(old(store.documents), {streamId}, P.OpeningRows(blank, user))
                && jobs.Keys == old(jobs).Keys + {streamId} - evicted && jobs[streamId] == answer.job
      ensures forall s :: s in jobs && s != streamId ==> s in old(jobs) && jobs[s] == old(jobs)[s]
    {
      var job := new Job(streamId, createdAt, user, newId);
      evicted := Reserve(job);
      assert jobs[streamId] == job && job.View() == P.NewJob(streamId, createdAt, user, newId);
      var ok := OpenOrRelease(job, user, commits);
      answer := if ok then Started(job) else StoreFailed;
    }

    /** The opening commit; when it fails the stream's slot is given back. */
    method OpenOrRelease(job: Job, user: Message, commits: bool) returns (ok: bool)
      requires Valid() && job.streamId in jobs && jobs[job.streamId] == job
      requires job.phase == P.Opening(user) && job.userMessageId == user.id && job.status == Active
      modifies this`jobs, job, store
      ensures Valid() && ok == commits
      ensures job.View() == old(job.View()).(pending := {}, phase := if ok then P.Running else old(job.phase))
      ensures store.documents ==
              if ok then Commit(old(store.documents), {job.streamId}, P.OpeningRows(old(job.View()), user))
              else old(store.documents)
      ensures ok ==> jobs == old(jobs)
      ensures !ok ==> jobs.Keys == old(jobs).Keys - {job.streamId}
      ensures forall s :: s in jobs ==> jobs[s] == old(jobs)[s]
    {
      ok := Open(job, user, commits);
      assert job.Valid();
      if !ok {
        jobs := jobs - {job.streamId};
      }
    }

    /** The job takes its stream's slot. */
    method Enter(job: Job)
      requires Valid() && job.Valid()
      modifies this`jobs
      ensures Valid() && jobs == old(jobs)[job.streamId := job]
      ensures SettledIn(jobs) == old(SettledIn(jobs[job.streamId := job]))
    {
      jobs := jobs[job.streamId := job];
    }

    method Reserve(job: Job) returns (ghost evicted: set<StreamId>)
      requires Valid() && job.Valid() && job.status == Active
      modifies this`jobs
      ensures Valid() && job.streamId !in evicted
      ensures Evicts(old(jobs), old(SettledIn(jobs)) - {job.streamId}, evicted)
      ensures jobs.Keys == old(jobs).Keys + {job.streamId} - evicted && jobs[job.streamId] == job
      ensures forall s :: s in jobs && s != job.streamId ==> s in old(jobs) && jobs[s] == old(jobs)[s]
    {
      ReservedEvicts(jobs, jobs[job.streamId := job], job);
      Enter(job);
      evicted := EvictSettled();
    }

    method Open(job: Job, user: Message, commits: bool) returns (ok: bool)
      requires store.Valid() && job.Valid()
      requires job.phase == P.Opening(user) && job.userMessageId == user.id && job.status == Active
      modifies job, store
      ensures ok == commits && store.Valid() && job.Valid()
      ensures job.View() == old(job.View()).(pending := {}, phase := if ok then P.Running else old(job.phase))
      ensures store.documents ==
              if ok then Commit(old(store.documents), {job.streamId}, P.OpeningRows(old(job.View()), user))
              else old(store.documents)
    {
      var rows := job.pending;
      UniqueLedger(job.streamId, job.frames, rows);
      job.pending := {};
      var turn := TurnRow(job.streamId, job.status, job.createdAt, job.userMessageId, job.responseId);
      ok := store.PutManyMulti(Batch(Some(user), Some(turn), rows), {job.streamId}, commits);
      if ok {
        job.phase := P.Running;
      }
    }

    /** Take the pending batch when it is due and store it; a failed store call puts it back. */
    method FlushIfDue(job: Job, elapsed: bool, commits: bool)
      requires Valid() && job.Valid() && job.phase.Running?
      modifies job, store
      ensures store.Valid() && job.Valid()
      ensures var due := |old(job.pending)| >= 25 || elapsed;
              if !due then job.View() == old(job.View()) && store.documents == old(store.documents)
              else if commits then
                && job.View() == P.BatchSaved(P.BatchTaken(old(job.View())))
                && store.documents == Commit(old(store.documents), {}, Batch(None, None, old(job.pending)))
              else
                && job.View() == P.BatchReturned(P.BatchTaken(old(job.View())))
                && store.documents == old(store.documents)
    {
      var due := |job.pending| >= FLUSH_EVERY_FRAMES || elapsed;
      if !due {
        return;
      }
      var batch := job.pending;
      UniqueLedger(job.streamId, job.frames, batch);
      job.pending := {};
      var ok := store.PutManyMulti(Batch(None, None, batch), {}, commits);
      if !ok {
        job.pending := Upsert(batch, job.pending);
      } else {
        assert Upsert(batch, {}) == batch;
      }
    }

    /** Build the terminal tail without publishing it, commit, and only then publish; a failed
        commit publishes an error final in memory instead. */
    method Finish(job: Job, text: string, outcome: P.Outcome, commits: bool)
      requires Valid() && job.Valid() && job.phase.Running? && text == job.collected
      modifies job, store
      ensures store.Valid() && job.Valid()
      ensures var taken := P.FinishTaken(old(job.View()), outcome);
              if commits then
                && job.View() == P.Published(taken.(phase := P.Landed(outcome)))
                && store.documents == Commit(old(store.documents), {}, P.TerminalRows(taken, old(job.pending), outcome))
              else
                && job.View() == P.SettledUnsaved(taken)
                && store.documents == old(store.documents)
      ensures var full := text + NoteOf(outcome);
              if commits then IsEnded(store.documents, old(job.View()), job.View(), full, outcome)
              else IsLost(old(job.View()), job.View(), full, outcome)
    {
      EndRecord(store.documents, job.View(), outcome);
      LossRecord(job.View(), outcome);
      var reply, tail := BuildTail(job, text, outcome);
      var status := if outcome.aborted then Aborted else if outcome.error.Some? then Failed else Complete;
      assert status == P.StatusOf(outcome);
      Land(job, reply, tail, status, outcome, outcome.aborted, commits);
    }

    /** The reply and the frames that end the ledger, built but not published. */
    method BuildTail(job: Job, text: string, outcome: P.Outcome) returns (reply: Message, tail: seq<Frame>)
      requires text == job.collected
      ensures reply == P.ResponseOf(job.View(), outcome) && tail == P.Tail(job.View(), outcome)
    {
      var full := text + (if outcome.capNote.Some? then outcome.capNote.value else "");
      var content := if full != "" then [TextContent(full)] else [];
      content := content + outcome.extraParts;
      if outcome.error.Some? {
        content := content + [ErrorContent(outcome.error.value)];
      }
      reply := Message(job.responseId, job.userMessageId, job.streamId, full, content,
                       false, outcome.error.Some?, outcome.aborted);
      tail := [];
      if outcome.capNote.Some? {
        tail := tail + [MessageDeltaFrame(job.responseId, outcome.capNote.value)];
      }
      if outcome.usage.Some? {
        tail := tail + [TokenUsage(job.responseId, 0, outcome.usage.value.0, outcome.usage.value.1)];
      }
      tail := tail + [Final(reply, outcome.aborted)];
      ReplyIs(job.View(), outcome, reply, tail);
    }

    /** The final that says itself that the reply could not be saved. */
    static function NotSaved(reply: Message, aborted: bool): Frame {
      Final(reply.(error := true, content := reply.content + [ErrorContent(P.UNSAVED_NOTE)]), aborted)
    }

    /** The terminal commit, and what is published after it. */
    method Land(job: Job, reply: Message, tail: seq<Frame>, status: Status, ghost outcome: P.Outcome, aborted: bool,
                commits: bool)
      requires Valid() && job.Valid() && reply.id == job.responseId
      modifies job, store
      ensures store.Valid() && job.Valid()
      ensures if commits then
                && job.View() == old(job.View()).(pending := {}, frames := old(job.frames) + tail,
                                                  status := status, phase := P.Settled)
                && store.documents == Commit(old(store.documents), {}, Batch(Some(reply),
                     Some(TurnRow(job.streamId, status, job.createdAt, job.userMessageId, job.responseId)),
                     Upsert(old(job.pending), LedgerRows(job.streamId, old(job.frames) + tail, |old(job.frames)|))))
              else
                && job.View() == old(job.View()).(pending := Upsert({}, old(job.pending)), status := Failed,
                                                  phase := P.Unsaved(outcome),
                                                  frames := old(job.frames) + [NotSaved(reply, aborted)])
                && store.documents == old(store.documents)
    {
      var backup := job.pending;
      job.pending := {};
      var tailRows := LedgerRows(job.streamId, job.frames + tail, |job.frames|);
      var turn := TurnRow(job.streamId, status, job.createdAt, job.userMessageId, job.responseId);
      TerminalUnique(job.streamId, job.frames, tail, backup);
      var ok := store.PutManyMulti(Batch(Some(reply), Some(turn), Upsert(backup, tailRows)), {}, commits);
      if !ok {
        var final := NotSaved(reply, aborted);
        job.pending := Upsert(job.pending, backup);
        PendingAppend(job.streamId, job.frames, final, 0);
        job.frames := job.frames + [final];
        job.status := Failed;
        job.phase := P.Unsaved(outcome);
        return;
      }
      job.frames := job.frames + tail;
      job.status := status;
      job.phase := P.Settled;
    }

    /** The turn row claims liveness and no job of this process is behind it. */
    predicate Dead(docs: Documents, streamId: StreamId)
      reads this`jobs
    {
      streamId !in jobs && streamId in docs.turns && docs.turns[streamId].status == Active
    }

    /** The registered job, or None once a turn left open by a dead process has been settled.
        `commits` is the outcome of the settling transaction; when it fails the call does. */
    method JobOrReconcile(streamId: StreamId, commits: bool)
        returns (job: Option<Job>, ok: bool, ghost rows: seq<EventRow>)
      requires Valid()
      modifies store
      ensures Valid() && job == (if streamId in jobs then Some(jobs[streamId]) else None)
      ensures IsListing(old(store.documents).events, streamId, rows)
      ensures var docs := old(store.documents);
              && ok == (Dead(docs, streamId) ==> commits)
              && store.documents == if Dead(docs, streamId) && commits
                                    then Commit(docs, {}, P.ReconcileRows(docs.turns[streamId], rows)) else docs
      ensures var docs := old(store.documents);
              if streamId in jobs || !StillOpen(docs, streamId) then ok && store.documents == docs
              else if commits then ok && IsSettled(docs, store.documents, streamId, rows)
              else !ok && store.documents == docs
    {
      var docs := store.documents;
      var listed := store.FindEvents(streamId);
      rows := listed;
      job, ok := None, true;
      if streamId in jobs {
        return Some(jobs[streamId]), true, rows;
      }
      if streamId in docs.turns && docs.turns[streamId].status == Active {
        ReconcileRecord(docs, streamId, rows);
        var turn := docs.turns[streamId];
        var text, last := TextAndLast(listed);
        var reply := P.AbortedReply(turn, text);
        var row := EventRow(turn.streamId, 1 + last, Final(reply, true));
        ok := store.PutManyMulti(Batch(Some(reply), Some(turn.(status := Aborted)), {row}), {}, commits);
      }
    }

    /** One page of the stream past a cursor, from memory or from the store. `before` lists the
        stream's rows as they were, `rows` as they are served. */
    method EventsAfter(streamId: StreamId, after: int, commits: bool)
        returns (page: P.Page, ok: bool, ghost before: seq<EventRow>, ghost rows: seq<EventRow>)
      requires Valid()
      modifies store
      ensures Valid() && IsListing(old(store.documents).events, streamId, before)
      ensures var docs := old(store.documents);
              && ok == (Dead(docs, streamId) ==> commits)
              && store.documents == if Dead(docs, streamId) && commits
                                    then Commit(docs, {}, P.ReconcileRows(docs.turns[streamId], before)) else docs
      ensures var docs := old(store.documents);
              if streamId in jobs || !StillOpen(docs, streamId) then ok && store.documents == docs
              else if commits then ok && IsSettled(docs, store.documents, streamId, before)
              else !ok && store.documents == docs
      ensures ok && streamId in jobs ==> page == P.MemoryPage(jobs[streamId].View(), after)
      ensures ok && streamId !in jobs ==>
                && IsListing(store.documents.events, streamId, rows)
                && page == P.StorePage(store.documents, streamId, rows, after)
    {
      page := P.Page(P.Unknown, []);
      var from := if after < 0 then 0 else after;
      var job;
      job, ok, before := JobOrReconcile(streamId, commits);
      rows := before;
      if !ok {
        return;
      }
      if job.Some? {
        var n := |job.value.frames|;
        var events := Window(job.value.frames, if from > n then n else from, n);
        var out := CoalesceDeltas(events);
        return P.Page(P.Known(job.value.status), out), true, before, rows;
      }
      var listed := store.FindEvents(streamId);
      rows := listed;
      if streamId in store.documents.turns {
        var events := RowsPast(listed, from);
        var out := CoalesceDeltas(events);
        page := P.Page(P.Known(store.documents.turns[streamId].status), out);
      }
    }
  }

  method RowsPast(rows: seq<EventRow>, from: nat) returns (events: seq<Event>)
    ensures events == P.RowsAfter(rows, from)
  {
    events := [];
    for i := 0 to |rows|
      invariant events == P.RowsAfter(rows[..i], from)
    {
      assert rows[..i + 1][..i] == rows[..i];
      if rows[i].seqNo > from {
        events := events + [Event(rows[i].seqNo, rows[i].frame)];
      }
    }
    assert rows[..|rows|] == rows;
  }

  ghost function SettledIn(table: map<StreamId, Job>): set<StreamId>
    reads table.Values
  {
    set s | s in table && table[s].status != Active
  }

  /** `evicted` are the oldest of the settled jobs past the keep-window. */
  ghost predicate Evicts(table: map<StreamId, Job>, settled: set<StreamId>, evicted: set<StreamId>)
    requires settled <= table.Keys
  {
    && evicted <= settled
    && |evicted| == (if |settled| > P.SETTLED_JOBS_KEPT then |settled| - P.SETTLED_JOBS_KEPT else 0)
    && forall out, kept :: out in evicted && kept in settled - evicted ==>
         P.GoesFirst(table[out].createdAt, out, table[kept].createdAt, kept)
  }

  /** The table as the protocol has it: a heap of jobs and a registry of places in it. */
  ghost predicate Mirrors(table: map<StreamId, Job>, heap: seq<P.Job>, registry: map<StreamId, nat>)
    reads table.Values
  {
    registry.Keys == table.Keys && forall s :: s in table ==>
        registry[s] < |heap| && heap[registry[s]] == table[s].View()
  }

  /** The protocol's step that reserves the stream for `job` may evict these. */
  ghost predicate EvictsInProtocol(heap: seq<P.Job>, registry: map<StreamId, nat>, job: P.Job, evicted: set<StreamId>) {
    && (forall s :: s in registry ==> registry[s] < |heap|)
    && P.IsEviction(heap + [job], registry[job.streamId := |heap|], evicted)
  }

  /** With the new job in the table, the jobs that go are among the others. */
  lemma ReservedEvicts(was: map<StreamId, Job>, table: map<StreamId, Job>, job: Job)
    requires table.Keys == was.Keys + {job.streamId} && table[job.streamId] == job && job.status == Active
    requires forall s :: s in was && s != job.streamId ==> table[s] == was[s]
    ensures SettledIn(table) == SettledIn(was) - {job.streamId}
    ensures forall evicted :: Evicts(table, SettledIn(table), evicted) ==>
              Evicts(was, SettledIn(was) - {job.streamId}, evicted)
  {
    assert SettledIn(table) == SettledIn(was) - {job.streamId};
    forall evicted | Evicts(table, SettledIn(table), evicted)
      ensures Evicts(was, SettledIn(was) - {job.streamId}, evicted)
    {
      EvictsSame(table, was, SettledIn(table), evicted);
    }
  }

  /** Whatever heap and registry the table stands for, the protocol may evict the same. */
  ghost predicate AgreedEviction(table: map<StreamId, Job>, job: P.Job, evicted: set<StreamId>)
    reads table.Values
  {
    forall heap, registry :: Mirrors(table, heap, registry) ==> EvictsInProtocol(heap, registry, job, evicted)
  }

  lemma EvictionsAgree(table: map<StreamId, Job>, job: P.Job)
    requires job.status == Active
    ensures forall evicted :: Evicts(table, SettledIn(table) - {job.streamId}, evicted) ==>
              AgreedEviction(table, job, evicted)
  {
    forall evicted | Evicts(table, SettledIn(table) - {job.streamId}, evicted)
      ensures AgreedEviction(table, job, evicted)
    {
      EvictionAgrees(table, job, evicted);
    }
  }

  lemma EvictionAgrees(table: map<StreamId, Job>, job: P.Job, evicted: set<StreamId>)
    requires job.status == Active && Evicts(table, SettledIn(table) - {job.streamId}, evicted)
    ensures AgreedEviction(table, job, evicted)
  {
    forall heap, registry | Mirrors(table, heap, registry) ensures EvictsInProtocol(heap, registry, job, evicted) {
      TableEviction(table, SettledIn(table), heap, registry, job, evicted);
    }
  }

  lemma TableEviction(table: map<StreamId, Job>, settled: set<StreamId>, heap: seq<P.Job>, registry: map<StreamId, nat>,
                      job: P.Job, evicted: set<StreamId>)
    requires registry.Keys == table.Keys && settled <= table.Keys && job.status == Active
    requires forall s :: s in table ==> registry[s] < |heap| && heap[registry[s]].createdAt == table[s].createdAt
    requires forall s :: s in table ==> (s in settled <==> heap[registry[s]].status != Active)
    requires Evicts(table, settled - {job.streamId}, evicted)
    ensures EvictsInProtocol(heap, registry, job, evicted)
  {
    SettledAfter(settled, heap, registry, job);
    PlacesKept(heap, registry, job);
    OrderKept(table, settled - {job.streamId}, heap + [job], registry[job.streamId := |heap|], evicted);
  }

  lemma PlacesKept(heap: seq<P.Job>, registry: map<StreamId, nat>, job: P.Job)
    requires forall s :: s in registry ==> registry[s] < |heap|
    ensures var heap', registry' := heap + [job], registry[job.streamId := |heap|];
            && (forall s :: s in registry' ==> registry'[s] < |heap'|)
            && forall s :: s in registry && s != job.streamId ==> heap'[registry'[s]] == heap[registry[s]]
  {
  }

  lemma OrderKept(table: map<StreamId, Job>, settled: set<StreamId>, heap: seq<P.Job>, registry: map<StreamId, nat>,
                  evicted: set<StreamId>)
    requires settled <= table.Keys && Evicts(table, settled, evicted)
    requires forall s :: s in registry ==> registry[s] < |heap|
    requires P.SettledIn(heap, registry) == settled
    requires forall s :: s in settled ==> heap[registry[s]].createdAt == table[s].createdAt
    ensures P.IsEviction(heap, registry, evicted)
  {
  }

  lemma SettledAfter(settled: set<StreamId>, heap: seq<P.Job>, registry: map<StreamId, nat>, job: P.Job)
    requires settled <= registry.Keys && job.status == Active && forall s :: s in registry ==> registry[s] < |heap|
    requires forall s :: s in registry ==> (s in settled <==> heap[registry[s]].status != Active)
    ensures P.SettledIn(heap + [job], registry[job.streamId := |heap|]) == settled - {job.streamId}
  {
    var heap', registry' := heap + [job], registry[job.streamId := |heap|];
    forall s ensures s in P.SettledIn(heap', registry') <==> s in settled - {job.streamId} {
    }
  }

  /** Which jobs go depends on the settled ones only. */
  lemma EvictsSame(table: map<StreamId, Job>, table': map<StreamId, Job>, settled: set<StreamId>,
                   evicted: set<StreamId>)
    requires settled <= table.Keys && settled <= table'.Keys && forall s :: s in settled ==> table[s] == table'[s]
    requires Evicts(table, settled, evicted)
    ensures Evicts(table', settled, evicted)
  {
  }

  /** The jobs to evict, picked oldest first. */
  method Stale(jobs: map<StreamId, Job>, settled: set<StreamId>) returns (stale: set<StreamId>)
    requires settled <= jobs.Keys
    ensures Evicts(jobs, settled, stale)
  {
    stale := {};
    var left := settled;
    while |left| > P.SETTLED_JOBS_KEPT
      invariant left == settled - stale && stale <= settled && |left| + |stale| == |settled|
      invariant |stale| > 0 ==> |left| >= P.SETTLED_JOBS_KEPT
      invariant forall out, kept :: out in stale && kept in left ==>
                  P.GoesFirst(jobs[out].createdAt, out, jobs[kept].createdAt, kept)
      decreases |left|
    {
      var oldest := Oldest(jobs, left);
      left := left - {oldest};
      stale := stale + {oldest};
    }
  }

  method Oldest(jobs: map<StreamId, Job>, settled: set<StreamId>) returns (oldest: StreamId)
    requires settled != {} && settled <= jobs.Keys
    ensures oldest in settled
    ensures forall s :: s in settled && s != oldest ==>
              P.GoesFirst(jobs[oldest].createdAt, oldest, jobs[s].createdAt, s)
  {
    oldest :| oldest in settled;
    var unseen := settled - {oldest};
    while unseen != {}
      invariant oldest in settled && unseen <= settled && oldest !in unseen
      invariant forall s :: s in settled - unseen && s != oldest ==>
                  P.GoesFirst(jobs[oldest].createdAt, oldest, jobs[s].createdAt, s)
      decreases unseen
    {
      var s :| s in unseen;
      unseen := unseen - {s};
      BeforeTotal(oldest, s);
      if P.GoesFirst(jobs[s].createdAt, s, jobs[oldest].createdAt, oldest) {
        forall r | r in settled - unseen && r != s ensures P.GoesFirst(jobs[s].createdAt, s, jobs[r].createdAt, r) {
          if r != oldest {
            BeforeTransitive(s, oldest, r);
          }
        }
        oldest := s;
      }
    }
  }

  /** `a` is before `b` at place `k`: alike up to there, and then ended or smaller. */
  predicate BeforeAt(a: StreamId, b: StreamId, k: nat) {
    k <= |a| && k < |b| && a[..k] == b[..k] && (k == |a| || a[k] < b[k])
  }

  /** The order of stream ids is the order of strings. */
  lemma {:induction false} BeforeIsOrder(a: StreamId, b: StreamId)
    ensures P.Before(a, b) <==> exists k: nat :: BeforeAt(a, b, k)
  {
    if b != [] && (a == [] || a[0] < b[0]) {
      assert BeforeAt(a, b, 0);
    } else if b != [] && a[0] == b[0] {
      BeforeIsOrder(a[1..], b[1..]);
      if k: nat :| BeforeAt(a[1..], b[1..], k) {
        assert a[..k + 1] == [a[0]] + a[1..][..k] && b[..k + 1] == [b[0]] + b[1..][..k];
        assert BeforeAt(a, b, k + 1);
      }
      if k: nat :| BeforeAt(a, b, k) {
        assert k > 0 && a[1..][..k - 1] == a[..k][1..] && b[1..][..k - 1] == b[..k][1..];
        assert BeforeAt(a[1..], b[1..], k - 1);
      }
    } else if b != [] {
      assert a != [] && a[0] > b[0];
      assert forall k: nat :: 0 < k <= |a| && k < |b| ==> a[..k][0] == a[0] && b[..k][0] == b[0];
    }
  }

  lemma {:induction false} BeforeTotal(a: StreamId, b: StreamId)
    ensures a == b || P.Before(a, b) || P.Before(b, a)
  {
    if a != [] && b != [] && a[0] == b[0] {
      BeforeTotal(a[1..], b[1..]);
      assert a == [a[0]] + a[1..] && b == [b[0]] + b[1..];
    }
  }

  lemma {:induction false} BeforeTransitive(a: StreamId, b: StreamId, c: StreamId)
    ensures P.Before(a, b) && P.Before(b, c) ==> P.Before(a, c)
  {
    if a != [] && b != [] && c != [] {
      BeforeTransitive(a[1..], b[1..], c[1..]);
    }
  }

  /** The joined answer text and the highest number of a listing. */
  method TextAndLast(rows: seq<EventRow>) returns (text: string, last: nat)
    ensures text == P.RowsText(rows) && last == P.MaxSeq(rows)
  {
    text, last := "", 0;
    for i := 0 to |rows|
      invariant text == P.RowsText(rows[..i]) && last == P.MaxSeq(rows[..i])
    {
      assert rows[..i + 1][..i] == rows[..i];
      text := text + FrameText(rows[i].frame);
      if rows[i].seqNo > last {
        last := rows[i].seqNo;
      }
    }
    assert rows[..|rows|] == rows;
  }

  lemma UniqueLedger(streamId: StreamId, frames: seq<Frame>, rows: set<EventRow>)
    requires rows <= LedgerRows(streamId, frames, 0)
    ensures Unique(rows)
  {
  }

  lemma TerminalUnique(streamId: StreamId, frames: seq<Frame>, tail: seq<Frame>, backup: set<EventRow>)
    requires backup <= LedgerRows(streamId, frames, 0)
    ensures Unique(Upsert(backup, LedgerRows(streamId, frames + tail, |frames|)))
  {
    LedgerRowsSplit(streamId, frames, tail, 0);
    UniqueLedger(streamId, frames + tail, Upsert(backup, LedgerRows(streamId, frames + tail, |frames|)));
  }

  lemma ReplyIs(job: P.Job, outcome: P.Outcome, reply: Message, tail: seq<Frame>)
    requires var full := job.collected + (if outcome.capNote.Some? then outcome.capNote.value else "");
             reply == Message(job.responseId, job.userMessageId, job.streamId, full,
                              ((if full != "" then [TextContent(full)] else []) + outcome.extraParts)
                              + (if outcome.error.Some? then [ErrorContent(outcome.error.value)] else []),
                              false, outcome.error.Some?, outcome.aborted)
    requires tail == (if outcome.capNote.Some? then [MessageDeltaFrame(job.responseId, outcome.capNote.value)] else [])
                   + (if outcome.usage.Some?
                      then [TokenUsage(job.responseId, 0, outcome.usage.value.0, outcome.usage.value.1)] else [])
                   + [Final(reply, outcome.aborted)]
    ensures reply == P.ResponseOf(job, outcome) && tail == P.Tail(job, outcome)
  {
  }
}
