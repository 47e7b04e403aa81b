/** What holds in every state the turn protocol can reach: any interleaving of starts, streaming,
    flush failures, terminal commits, evictions, crashes and reconciling reads. */
module TurnSafety {
  import opened Options
  import opened Wire
  import opened Coalesce
  import opened PlatformStore
  import opened TurnProtocol
  import opened TurnRecords
  import opened TurnInvariant

  // ---- prefix durability -----------------------------------------------------------------

  /** Rows taken out of the pending batch by a store call under way. */
  function InFlight(job: Job): set<EventRow> {
    match job.phase
    case Flushing(batch) => batch
    case Finishing(backup, _) => backup
    case _ => {}
  }

  /** While a turn streams, under any pattern of flush failures, the store holds exactly frames
      1..k, and the pending batch with the batch in flight is exactly frames k+1..n. */
  lemma PrefixDurability(s: State, j: nat) returns (k: nat)
    requires Reachable(s) && j < |s.heap|
    requires s.heap[j].phase.Running? || s.heap[j].phase.Flushing? || s.heap[j].phase.Finishing?
    ensures var job := s.heap[j];
            && k <= |job.frames|
            && EventsOf(s.docs.events, job.streamId) == LedgerRows(job.streamId, job.frames[..k], 0)
            && job.pending + InFlight(job) == LedgerRows(job.streamId, job.frames, k)
            && job.pending !! InFlight(job)
            && job.streamId in s.docs.turns && s.docs.turns[job.streamId] == TurnRowOf(job, Active)
  {
    ReachableHolds(s);
    var job := s.heap[j];
    var ledger := LiveStored(s, j);
    k := |ledger|;
    assert job.frames[..k] == ledger;
    assert job.pending + InFlight(job) == if job.phase.Running? then job.pending else InFlight(job);
  }

  // ---- terminal receipts -----------------------------------------------------------------

  /** The turn row stops claiming liveness exactly when the stored ledger ends in its final; the
      reply is then stored, is the one the final carries, and its text is what the ledger streamed. */
  lemma TerminalReceipt(s: State, sid: StreamId) returns (ledger: seq<Frame>)
    requires Reachable(s) && sid in s.docs.turns
    ensures EventsOf(s.docs.events, sid) == LedgerRows(sid, ledger, 0)
    ensures s.docs.turns[sid].status != Active <==> ledger != [] && ledger[|ledger| - 1].Final?
    ensures forall i :: 0 <= i < |ledger| - 1 ==> !ledger[i].Final?
    ensures s.docs.turns[sid].status != Active ==>
              var reply := ledger[|ledger| - 1].response;
              && reply.id == s.docs.turns[sid].responseId
              && reply.id in s.docs.messages && s.docs.messages[reply.id] == reply
              && reply.parentId == s.docs.turns[sid].userMessageId && reply.streamId == sid && !reply.byUser
              && reply.text == LedgerText(ledger)
              && (reply.unfinished <==> s.docs.turns[sid].status == Aborted)
  {
    ReachableHolds(s);
    assert StreamOk(s, sid);
    ledger :| Stored(s.docs, s.heap[s.owner[sid]], ledger);
    if s.docs.turns[sid].status != Active {
      assert forall i :: 0 <= i < |ledger| - 1 ==> ledger[i] == DropLast(ledger)[i];
    }
  }

  lemma FinalIsLast(frames: seq<Frame>, i: nat)
    requires i < |frames| && frames[i].Final? && NoFinal(DropLast(frames))
    ensures i == |frames| - 1
  {
    var body := DropLast(frames);
    assert forall k :: 0 <= k < |body| ==> frames[k] == body[k];
  }

  /** A reader of the live table sees a final only when it is durable with its status and reply, or
      when it carries the whole reply all the same and says behind it that it could not be saved. */
  lemma VisibleFinal(s: State, sid: StreamId, i: nat)
    requires Reachable(s) && sid in s.registry && s.registry[sid] < |s.heap|
    requires i < |s.heap[s.registry[sid]].frames| && s.heap[s.registry[sid]].frames[i].Final?
    ensures var job := s.heap[s.registry[sid]];
            var reply := job.frames[i].response;
            && i == |job.frames| - 1 && job.status != Active
            && (|| (EventsOf(s.docs.events, sid) == LedgerRows(sid, job.frames, 0)
                    && sid in s.docs.turns && s.docs.turns[sid] == TurnRowOf(job, job.status)
                    && reply.id in s.docs.messages && s.docs.messages[reply.id] == reply)
                || (job.phase.Unsaved? && job.status == Failed
                    && IsUnsavedReply(reply, job, LedgerText(DropLast(job.frames)) + NoteOf(job.phase.outcome),
                                      job.phase.outcome)))
  {
    ReachableHolds(s);
    var job := s.heap[s.registry[sid]];
    assert RegistryOk(s, sid) && JobOk(s, s.registry[sid]) && StreamOk(s, sid);
    if job.phase.Settled? || job.phase.Unsaved? {
      var ledger :| Stored(s.docs, job, ledger);
      FinalIsLast(job.frames, i);
    }
  }

  // ---- reads and eviction ----------------------------------------------------------------

  /** The page any reader gets over a visible ledger. */
  function PageOf(status: Status, ledger: seq<Frame>, after: int): Page {
    Page(Known(status), Coalesced(Window(ledger, Clamp(after, |ledger|), |ledger|)))
  }

  lemma {:induction false} RowsAfterWindow(sid: StreamId, ledger: seq<Frame>, rows: seq<EventRow>, after: nat)
    requires |rows| == |ledger| && forall i :: 0 <= i < |rows| ==> rows[i] == EventRow(sid, i + 1, ledger[i])
    ensures RowsAfter(rows, after) == Window(ledger, Clamp(after, |ledger|), |ledger|)
  {
    if rows != [] {
      var n := |rows| - 1;
      RowsAfterWindow(sid, ledger[..n], rows[..n], after);
      var init := Window(ledger[..n], Clamp(after, n), n);
      if n >= after {
        assert Window(ledger, after, n + 1) == init + [Event(n + 1, ledger[n])];
      } else {
        assert init == [] && Window(ledger, n + 1, n + 1) == [];
      }
    }
  }

  /** The store path serves the page the memory path would serve over the same ledger. */
  lemma StorePageIs(docs: Documents, sid: StreamId, ledger: seq<Frame>, rows: seq<EventRow>, after: int)
    requires sid in docs.turns && EventsOf(docs.events, sid) == LedgerRows(sid, ledger, 0)
    requires IsListing(docs.events, sid, rows)
    ensures StorePage(docs, sid, rows, after) == PageOf(docs.turns[sid].status, ledger, after)
  {
    ListingIsLedger(docs.events, sid, ledger, rows);
    RowsAfterWindow(sid, ledger, rows, if after < 0 then 0 else after);
  }

  /** Dropping a finished job from memory goes unnoticed at every cursor if and only if its terminal
      commit succeeded. */
  lemma EvictionUnnoticed(s: State, sid: StreamId, rows: seq<EventRow>)
    requires Reachable(s) && sid in s.registry && s.registry[sid] < |s.heap|
    requires !Live(s.heap[s.registry[sid]].phase) && IsListing(s.docs.events, sid, rows)
    ensures s.heap[s.registry[sid]].phase.Settled? <==>
            forall after :: StorePage(s.docs, sid, rows, after) == MemoryPage(s.heap[s.registry[sid]], after)
  {
    ReachableHolds(s);
    var job := s.heap[s.registry[sid]];
    assert RegistryOk(s, sid) && JobOk(s, s.registry[sid]) && StreamOk(s, sid);
    var ledger :| Stored(s.docs, job, ledger);
    forall after ensures StorePage(s.docs, sid, rows, after) == PageOf(s.docs.turns[sid].status, ledger, after) {
      StorePageIs(s.docs, sid, ledger, rows, after);
    }
    if !job.phase.Settled? {
      assert StorePage(s.docs, sid, rows, 0) != MemoryPage(job, 0);
    }
  }

  /** Nor does settling what the store still holds hide the loss: when a start evicts a job whose
      terminal commit failed, the next read settles its stream, and the page then reports another status
      than memory did. */
  lemma UnsavedEvictionShows(s: State, start: Step, sid: StreamId, rows: seq<EventRow>, rows': seq<EventRow>,
                             after: int)
    requires Reachable(s) && start.Reserve? && Enabled(s, start) && sid in start.evicted
    requires sid in s.registry && s.registry[sid] < |s.heap| && s.heap[s.registry[sid]].phase.Unsaved?
    requires IsListing(s.docs.events, sid, rows)
    ensures Enabled(Apply(s, start), Reconcile(sid, rows))
    ensures var settled := Apply(Apply(s, start), Reconcile(sid, rows));
            IsListing(settled.docs.events, sid, rows') ==>
              && StorePage(settled.docs, sid, rows', after).status == Known(Aborted)
              && MemoryPage(s.heap[s.registry[sid]], after).status == Known(Failed)
  {
    ReachableHolds(s);
    assert RegistryOk(s, sid) && JobOk(s, s.registry[sid]) && StreamOk(s, sid);
    var job := s.heap[s.registry[sid]];
    var ledger :| Stored(s.docs, job, ledger);
    EvictionLeaves(s, start, sid);
    ReconciledStored(s.docs, job, ledger, rows);
  }

  /** An eviction takes the stream out of the registry and leaves the documents alone. */
  lemma EvictionLeaves(s: State, start: Step, sid: StreamId)
    requires start.Reserve? && Enabled(s, start) && sid in start.evicted
    ensures sid !in Apply(s, start).registry && Apply(s, start).docs == s.docs
    ensures Apply(s, start).heap == s.heap + [NewJob(start.streamId, start.createdAt, start.user, start.newId)]
  {
  }

  // ---- one generation at a time ----------------------------------------------------------

  /** The rows stored for a stream belong to one generation, the one whose opening commit came last:
      up to the final frame, they and its frames extend one another. */
  lemma OneGeneration(s: State, sid: StreamId) returns (ledger: seq<Frame>)
    requires Reachable(s) && (sid in s.owner || sid in s.docs.turns)
    ensures EventsOf(s.docs.events, sid) == LedgerRows(sid, ledger, 0)
    ensures sid in s.owner && s.owner[sid] < |s.heap| && s.heap[s.owner[sid]].streamId == sid
    ensures var frames := s.heap[s.owner[sid]].frames;
            ledger <= frames || frames <= ledger || (ledger != [] && DropLast(ledger) <= frames)
    ensures var job := s.heap[s.owner[sid]];
            && sid in s.docs.turns && s.docs.turns[sid].streamId == sid
            && s.docs.turns[sid].createdAt == job.createdAt
            && s.docs.turns[sid].userMessageId == job.userMessageId
            && s.docs.turns[sid].responseId == job.responseId
  {
    ReachableHolds(s);
    assert StreamOk(s, sid);
    ledger :| Stored(s.docs, s.heap[s.owner[sid]], ledger);
  }

  /** At most one job of a stream has steps left to take, whatever starts were attempted. */
  lemma OneLiveJob(s: State, j: nat, k: nat)
    requires Reachable(s) && j < |s.heap| && k < |s.heap|
    requires Live(s.heap[j].phase) && Live(s.heap[k].phase) && s.heap[j].streamId == s.heap[k].streamId
    ensures j == k
  {
    ReachableHolds(s);
    assert JobOk(s, j) && JobOk(s, k);
  }

  /** Of two starts of one stream that are both admissible, accepting one refuses the other. */
  lemma ConcurrentStartsConflict(s: State, first: Step, second: Step)
    requires Reachable(s) && first.Reserve? && second.Reserve? && first.streamId == second.streamId
    requires Enabled(s, first)
    ensures !Enabled(Apply(s, first), second)
  {
    ReachableHolds(s);
    var s' := Apply(s, first);
    StepKeeps(s, first);
    assert JobOk(s', |s.heap|);
  }

  /** A turn with a living job is never reconciled as dead. */
  lemma LivingNeverReconciled(s: State, sid: StreamId, rows: seq<EventRow>, j: nat)
    requires Reachable(s) && j < |s.heap| && Live(s.heap[j].phase) && s.heap[j].streamId == sid
    ensures !Enabled(s, Reconcile(sid, rows))
  {
    ReachableHolds(s);
    assert JobOk(s, j);
  }

  /** The job whose worker writes rows in this step, if any. */
  function Writer(step: Step): Option<nat> {
    match step
    case OpenCommit(j) => Some(j)
    case CommitBatch(j) => Some(j)
    case CommitFinish(j) => Some(j)
    case _ => None
  }

  lemma StaysDead(s: State, step: Step, k: nat)
    requires Enabled(s, step) && k < |s.heap| && !Live(s.heap[k].phase)
    ensures k < |Apply(s, step).heap| && !Live(Apply(s, step).heap[k].phase)
    ensures Apply(s, step).heap[k].streamId == s.heap[k].streamId
  {
  }

  /** No step of a run is a write by `k`. */
  ghost predicate NeverWrites(steps: seq<Step>, k: nat) {
    forall i :: 0 <= i < |steps| ==> Writer(steps[i]) != Some(k)
  }

  lemma {:induction false} DeadNeverWrites(s: State, steps: seq<Step>, k: nat)
    requires IsRun(s, steps) && k < |s.heap| && !Live(s.heap[k].phase)
    ensures NeverWrites(steps, k)
    decreases |steps|
  {
    if steps != [] {
      StaysDead(s, steps[0], k);
      DeadNeverWrites(Apply(s, steps[0]), steps[1..], k);
      assert forall i :: 0 < i < |steps| ==> steps[i] == steps[1..][i - 1];
    }
  }

  /** Once a generation's opening commit is durable, no earlier worker of the stream ever writes
      again, in any continuation. */
  lemma NoLateWrites(s: State, j: nat, k: nat, steps: seq<Step>)
    requires Reachable(s) && Enabled(s, OpenCommit(j)) && k < |s.heap| && k != j
    requires s.heap[k].streamId == s.heap[j].streamId
    requires IsRun(Apply(s, OpenCommit(j)), steps)
    ensures NeverWrites(steps, k)
  {
    ReachableHolds(s);
    assert JobOk(s, j) && JobOk(s, k);
    StaysDead(s, OpenCommit(j), k);
    DeadNeverWrites(Apply(s, OpenCommit(j)), steps, k);
  }

  // ---- crash recovery --------------------------------------------------------------------

  /** The stream's ledger is these durable frames closed by one aborted final, which carries what is
      stored under the turn's reply id: the partial reply with their text. */
  ghost predicate SettledAs(docs: Documents, sid: StreamId, turn: TurnRow, durable: seq<Frame>) {
    && turn.responseId in docs.messages
    && IsPartialReply(docs.messages[turn.responseId], turn, LedgerText(durable))
    && EventsOf(docs.events, sid) == LedgerRows(sid, durable + [Final(docs.messages[turn.responseId], true)], 0)
    && sid in docs.turns && docs.turns[sid] == turn.(status := Aborted)
  }

  /** Reconciling keeps the durable frames, all of one generation, and closes the ledger with one
      aborted final whose text is their text; the reply is stored with it. */
  lemma ReconcileCloses(s: State, sid: StreamId, rows: seq<EventRow>) returns (durable: seq<Frame>)
    requires Inv(s) && Enabled(s, Reconcile(sid, rows))
    ensures EventsOf(s.docs.events, sid) == LedgerRows(sid, durable, 0) && NoFinal(durable)
    ensures sid in s.owner && s.owner[sid] < |s.heap| && durable <= s.heap[s.owner[sid]].frames
    ensures var s' := Apply(s, Reconcile(sid, rows));
            && SettledAs(s'.docs, sid, s.docs.turns[sid], durable)
  {
    durable := DeadStored(s, sid);
    var job := s.heap[s.owner[sid]];
    ReconciledStored(s.docs, job, durable, rows);
    PartialRecord(s.docs.turns[sid], LedgerText(durable));
  }

  /** A crash at any point: a turn left open is settled by the next read, from exactly what was
      durable before the crash, and is not settled a second time. */
  lemma CrashRecovery(s: State, sid: StreamId, rows: seq<EventRow>) returns (durable: seq<Frame>)
    requires Reachable(s) && StillOpen(s.docs, sid) && IsListing(s.docs.events, sid, rows)
    ensures Enabled(Apply(s, Crash), Reconcile(sid, rows))
    ensures EventsOf(s.docs.events, sid) == LedgerRows(sid, durable, 0) && NoFinal(durable)
    ensures sid in s.owner && s.owner[sid] < |s.heap| && durable <= s.heap[s.owner[sid]].frames
    ensures var s' := Apply(Apply(s, Crash), Reconcile(sid, rows));
            && SettledAs(s'.docs, sid, s.docs.turns[sid], durable)
            && forall again :: !Enabled(s', Reconcile(sid, again))
  {
    ReachableHolds(s);
    CrashKeeps(s);
    var dead := Apply(s, Crash);
    assert dead.docs == s.docs && dead.owner == s.owner && sid !in dead.registry;
    durable := ReconcileCloses(dead, sid, rows);
    SettledOnce(Apply(dead, Reconcile(sid, rows)), sid);
    assert dead.heap[s.owner[sid]] == Died(s.heap[s.owner[sid]]);
  }

  lemma SettledOnce(s: State, sid: StreamId)
    requires sid in s.docs.turns && s.docs.turns[sid].status != Active
    ensures forall rows :: !Enabled(s, Reconcile(sid, rows))
  {
  }
}
