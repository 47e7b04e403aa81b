/** The streamed chat turn as a state machine: the jobs of one process, the registry that names
    them, and the document store they commit to. */
module TurnProtocol {
  import opened Options
  import opened Wire
  import opened Coalesce
  import opened PlatformStore

  const UNSAVED_NOTE := "the reply could not be saved — it may be missing after a reload"
  const SETTLED_JOBS_KEPT: nat := 8

  /** How a worker's run ended. */
  datatype Outcome = Outcome(
    aborted: bool, error: Option<string>, capNote: Option<string>, usage: Option<(int, int)>,
    extraParts: seq<ContentPart>)

  /** Where a job is between two atomic steps. `Flushing` and `Finishing` hold the rows taken out of
      the pending batch while the store call is under way; `Landed` is the terminal commit done but
      not yet published. `Dropped` is a start whose opening commit failed, `Lost` a job of a process
      that died. */
  datatype Phase =
    | Opening(userMessage: Message)
    | Running
    | Flushing(batch: set<EventRow>)
    | Finishing(backup: set<EventRow>, outcome: Outcome)
    | Landed(outcome: Outcome)
    | Settled
    | Unsaved(outcome: Outcome)
    | Dropped
    | Lost

  datatype Job = Job(
    streamId: StreamId, createdAt: int, userMessageId: string, responseId: string,
    status: Status, frames: seq<Frame>, pending: set<EventRow>, collected: string, phase: Phase)

  // ---- steps of one job ------------------------------------------------------------------

  /** A frame joins the memory ledger and the pending batch. */
  function Appended(job: Job, frame: Frame): Job {
    job.(frames := job.frames + [frame],
         pending := Upsert(job.pending, {EventRow(job.streamId, |job.frames| + 1, frame)}))
  }

  /** A piece of answer text is streamed and remembered for the persisted message. */
  function Said(job: Job, text: string): Job {
    Appended(job.(collected := job.collected + text), MessageDeltaFrame(job.responseId, text))
  }

  function NewJob(streamId: StreamId, createdAt: int, user: Message, responseId: string): Job {
    var blank := Job(streamId, createdAt, user.id, responseId, Active, [], {}, "", Opening(user));
    Appended(Appended(blank, Created(user)), OpenStep(StepId(responseId, "0"), 0, false))
  }

  function BatchTaken(job: Job): Job {
    job.(phase := Flushing(job.pending), pending := {})
  }

  function BatchSaved(job: Job): Job {
    job.(phase := Running)
  }

  /** A failed flush puts its rows back; rows appended meanwhile win. */
  function BatchReturned(job: Job): Job
    requires job.phase.Flushing?
  {
    job.(phase := Running, pending := Upsert(job.phase.batch, job.pending))
  }

  function FinishTaken(job: Job, outcome: Outcome): Job {
    job.(phase := Finishing(job.pending, outcome), pending := {})
  }

  function StatusOf(outcome: Outcome): Status {
    if outcome.aborted then Aborted else if outcome.error.Some? then Failed else Complete
  }

  /** The persisted reply: the collected text, the worker's other parts, the error if any. */
  function ResponseOf(job: Job, outcome: Outcome): Message {
    var text := job.collected + (if outcome.capNote.Some? then outcome.capNote.value else "");
    var content := (if text != "" then [TextContent(text)] else []) + outcome.extraParts
                 + (if outcome.error.Some? then [ErrorContent(outcome.error.value)] else []);
    Message(job.responseId, job.userMessageId, job.streamId, text, content,
            false, outcome.error.Some?, outcome.aborted)
  }

  /** The frames that end the ledger, built but not yet published. */
  function Tail(job: Job, outcome: Outcome): seq<Frame> {
    (if outcome.capNote.Some? then [MessageDeltaFrame(job.responseId, outcome.capNote.value)] else [])
    + (if outcome.usage.Some?
       then [TokenUsage(job.responseId, 0, outcome.usage.value.0, outcome.usage.value.1)] else [])
    + [Final(ResponseOf(job, outcome), outcome.aborted)]
  }

  function TurnRowOf(job: Job, status: Status): TurnRow {
    TurnRow(job.streamId, status, job.createdAt, job.userMessageId, job.responseId)
  }

  /** The rows of the opening commit. */
  function OpeningRows(job: Job, user: Message): Batch {
    Batch(Some(user), Some(TurnRowOf(job, Active)), job.pending)
  }

  /** The rows of the terminal commit. */
  function TerminalRows(job: Job, backup: set<EventRow>, outcome: Outcome): Batch {
    Batch(Some(ResponseOf(job, outcome)), Some(TurnRowOf(job, StatusOf(outcome))),
          Upsert(backup, LedgerRows(job.streamId, job.frames + Tail(job, outcome), |job.frames|)))
  }

  /** The terminal commit is durable: only now are the tail and the status published. */
  function Published(job: Job): Job
    requires job.phase.Landed?
  {
    job.(frames := job.frames + Tail(job, job.phase.outcome), status := StatusOf(job.phase.outcome), phase := Settled)
  }

  function UnsavedFinal(job: Job, outcome: Outcome): Frame {
    var r := ResponseOf(job, outcome);
    Final(r.(error := true, content := r.content + [ErrorContent(UNSAVED_NOTE)]), outcome.aborted)
  }

  /** The terminal commit failed: an error final is published in memory only. */
  function SettledUnsaved(job: Job): Job
    requires job.phase.Finishing?
  {
    job.(pending := Upsert(job.pending, job.phase.backup),
         frames := job.frames + [UnsavedFinal(job, job.phase.outcome)], status := Failed,
         phase := Unsaved(job.phase.outcome))
  }

  // ---- reconciling a turn of a dead process ----------------------------------------------

  function RowsText(rows: seq<EventRow>): string {
    if rows == [] then "" else RowsText(rows[..|rows| - 1]) + FrameText(rows[|rows| - 1].frame)
  }

  function MaxSeq(rows: seq<EventRow>): nat {
    if rows == [] then 0
    else
      var m, last := MaxSeq(rows[..|rows| - 1]), rows[|rows| - 1].seqNo;
      if last > m then last else m
  }

  function AbortedReply(turn: TurnRow, text: string): Message {
    Message(turn.responseId, turn.userMessageId, turn.streamId, text,
            if text != "" then [TextContent(text)] else [], false, false, true)
  }

  /** The rows that settle a dead turn, given the stored ledger. */
  function ReconcileRows(turn: TurnRow, rows: seq<EventRow>): Batch {
    var reply := AbortedReply(turn, RowsText(rows));
    Batch(Some(reply), Some(turn.(status := Aborted)),
          {EventRow(turn.streamId, 1 + MaxSeq(rows), Final(reply, true))})
  }

  // ---- reads -----------------------------------------------------------------------------

  datatype PageStatus = Unknown | Known(status: Status)

  datatype Page = Page(status: PageStatus, events: seq<Event>)

  function Clamp(after: int, n: nat): (lo: nat)
    ensures lo <= n
  {
    if after < 0 then 0 else if after > n then n else after
  }

  /** The page a live or settled job serves from memory. */
  function MemoryPage(job: Job, after: int): Page {
    var n := |job.frames|;
    Page(Known(job.status), Coalesced(Window(job.frames, Clamp(after, n), n)))
  }

  function RowsAfter(rows: seq<EventRow>, after: int): seq<Event> {
    if rows == [] then []
    else
      var last := rows[|rows| - 1];
      RowsAfter(rows[..|rows| - 1], after) + (if last.seqNo > after then [Event(last.seqNo, last.frame)] else [])
  }

  /** The page the store serves. */
  function StorePage(docs: Documents, streamId: StreamId, rows: seq<EventRow>, after: int): Page {
    if streamId !in docs.turns then Page(Unknown, [])
    else Page(Known(docs.turns[streamId].status), Coalesced(RowsAfter(rows, if after < 0 then 0 else after)))
  }

  // ---- the process -----------------------------------------------------------------------

  /** `heap` lists every job ever created, dead processes included; `registry` is the live process's
      table; `owner` remembers whose opening commit a stream's rows come from. No code reads the
      frames of dead jobs or `owner`: they are the history the properties speak of. */
  datatype State = State(
    docs: Documents, heap: seq<Job>, registry: map<StreamId, nat>, owner: map<StreamId, nat>)

  datatype Step =
    | Reserve(streamId: StreamId, createdAt: int, user: Message, newId: string, evicted: set<StreamId>)
    | OpenCommit(j: nat)
    | OpenFail(j: nat)
    | Say(j: nat, text: string)
    | Show(j: nat, frame: Frame)
    | TakeBatch(j: nat)
    | CommitBatch(j: nat)
    | FailBatch(j: nat)
    | TakeFinish(j: nat, outcome: Outcome)
    | CommitFinish(j: nat)
    | Publish(j: nat)
    | FailFinish(j: nat)
    | Reconcile(deadStream: StreamId, rows: seq<EventRow>)
    | Crash

  /** One stream id comes before another, character by character. */
  predicate Before(a: StreamId, b: StreamId) {
    b != [] && (a == [] || a[0] < b[0] || (a[0] == b[0] && Before(a[1..], b[1..])))
  }

  /** A job is evicted before another: the older first, ties by stream id. */
  predicate GoesFirst(createdAt: int, streamId: StreamId, createdAt': int, streamId': StreamId) {
    createdAt < createdAt' || (createdAt == createdAt' && Before(streamId, streamId'))
  }

  ghost function SettledIn(heap: seq<Job>, registry: map<StreamId, nat>): set<StreamId>
    requires forall s :: s in registry ==> registry[s] < |heap|
  {
    set s | s in registry && heap[registry[s]].status != Active
  }

  /** The settled jobs past the keep-window, oldest first, leave the registry. */
  ghost predicate IsEviction(heap: seq<Job>, registry: map<StreamId, nat>, evicted: set<StreamId>)
    requires forall s :: s in registry ==> registry[s] < |heap|
  {
    var settled := SettledIn(heap, registry);
    && evicted <= settled
    && |evicted| == (if |settled| > SETTLED_JOBS_KEPT then |settled| - SETTLED_JOBS_KEPT else 0)
    && forall out, kept :: out in evicted && kept in settled - evicted ==>
         GoesFirst(heap[registry[out]].createdAt, out, heap[registry[kept]].createdAt, kept)
  }

  ghost predicate Registered(s: State) {
    forall sid :: sid in s.registry ==> s.registry[sid] < |s.heap|
  }

  /** Message ids are fresh: the reply's id is new, and no user message reuses a reply's id. */
  ghost predicate FreshIds(s: State, user: Message, newId: string) {
    && user.id != newId
    && forall k :: 0 <= k < |s.heap| ==>
         s.heap[k].responseId != newId && s.heap[k].userMessageId != newId && s.heap[k].responseId != user.id
  }

  predicate CanStart(s: State, streamId: StreamId)
    requires streamId in s.registry ==> s.registry[streamId] < |s.heap|
  {
    streamId in s.registry ==> s.heap[s.registry[streamId]].status != Active
  }

  ghost predicate Enabled(s: State, step: Step) {
    match step
    case Reserve(sid, createdAt, user, newId, evicted) =>
      && Registered(s) && CanStart(s, sid) && FreshIds(s, user, newId)
      && IsEviction(s.heap + [NewJob(sid, createdAt, user, newId)], s.registry[sid := |s.heap|], evicted)
    case OpenCommit(j) => j < |s.heap| && s.heap[j].phase.Opening?
    case OpenFail(j) => j < |s.heap| && s.heap[j].phase.Opening?
    case Say(j, _) => j < |s.heap| && s.heap[j].phase.Running?
    case Show(j, f) => j < |s.heap| && s.heap[j].phase.Running? && !f.Final? && !(f.Delta? && f.channel == MessageDelta)
    case TakeBatch(j) => j < |s.heap| && s.heap[j].phase.Running?
    case CommitBatch(j) => j < |s.heap| && s.heap[j].phase.Flushing?
    case FailBatch(j) => j < |s.heap| && s.heap[j].phase.Flushing?
    case TakeFinish(j, _) => j < |s.heap| && s.heap[j].phase.Running?
    case CommitFinish(j) => j < |s.heap| && s.heap[j].phase.Finishing?
    case Publish(j) => j < |s.heap| && s.heap[j].phase.Landed?
    case FailFinish(j) => j < |s.heap| && s.heap[j].phase.Finishing?
    case Reconcile(sid, rows) =>
      && sid !in s.registry && sid in s.docs.turns && s.docs.turns[sid].status == Active
      && IsListing(s.docs.events, sid, rows)
    case Crash => true
  }

  /** A live job is one whose worker, or whose start, still has steps to take. */
  predicate Live(phase: Phase) {
    phase.Opening? || phase.Running? || phase.Flushing? || phase.Finishing? || phase.Landed?
  }

  function Died(job: Job): Job {
    if Live(job.phase) then job.(phase := Lost) else job
  }

  function SetJob(s: State, j: nat, job: Job): State
    requires j < |s.heap|
  {
    s.(heap := s.heap[j := job])
  }

  ghost function Apply(s: State, step: Step): State
    requires Enabled(s, step)
  {
    match step
    case Reserve(sid, createdAt, user, newId, evicted) =>
      s.(heap := s.heap + [NewJob(sid, createdAt, user, newId)],
         registry := s.registry[sid := |s.heap|] - evicted)
    case OpenCommit(j) =>
      var job := s.heap[j];
      SetJob(s, j, job.(phase := Running, pending := {}))
        .(docs := Commit(s.docs, {job.streamId}, OpeningRows(job, job.phase.userMessage)),
          owner := s.owner[job.streamId := j])
    case OpenFail(j) =>
      SetJob(s, j, s.heap[j].(phase := Dropped)).(registry := s.registry - {s.heap[j].streamId})
    case Say(j, text) => SetJob(s, j, Said(s.heap[j], text))
    case Show(j, f) => SetJob(s, j, Appended(s.heap[j], f))
    case TakeBatch(j) => SetJob(s, j, BatchTaken(s.heap[j]))
    case CommitBatch(j) =>
      SetJob(s, j, BatchSaved(s.heap[j])).(docs := Commit(s.docs, {}, Batch(None, None, s.heap[j].phase.batch)))
    case FailBatch(j) => SetJob(s, j, BatchReturned(s.heap[j]))
    case TakeFinish(j, o) => SetJob(s, j, FinishTaken(s.heap[j], o))
    case CommitFinish(j) =>
      var job := s.heap[j];
      SetJob(s, j, job.(phase := Landed(job.phase.outcome)))
        .(docs := Commit(s.docs, {}, TerminalRows(job, job.phase.backup, job.phase.outcome)))
    case Publish(j) => SetJob(s, j, Published(s.heap[j]))
    case FailFinish(j) => SetJob(s, j, SettledUnsaved(s.heap[j]))
    case Reconcile(sid, rows) => s.(docs := Commit(s.docs, {}, ReconcileRows(s.docs.turns[sid], rows)))
    case Crash =>
      s.(heap := seq(|s.heap|, i requires 0 <= i < |s.heap| => Died(s.heap[i])), registry := map[])
  }

  const INITIAL := State(Documents(map[], map[], {}), [], map[], map[])

  /** `steps` is a run from `s`: every step is enabled where it is taken. */
  ghost predicate IsRun(s: State, steps: seq<Step>)
    decreases |steps|
  {
    steps == [] || (Enabled(s, steps[0]) && IsRun(Apply(s, steps[0]), steps[1..]))
  }

  ghost function After(s: State, steps: seq<Step>): State
    requires IsRun(s, steps)
    decreases |steps|
  {
    if steps == [] then s else After(Apply(s, steps[0]), steps[1..])
  }
}
