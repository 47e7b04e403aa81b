/** What every step of the turn protocol keeps. */
module TurnInvariant {
  import opened Options
  import opened Wire
  import opened PlatformStore
  import opened TurnProtocol
  import opened TurnRecords

  // ---- the invariant ---------------------------------------------------------------------

  function DropLast(frames: seq<Frame>): seq<Frame>
    requires frames != []
  {
    frames[..|frames| - 1]
  }

  /** The stored ledger ends in its one final, and the reply the final carries is stored under the
      job's reply id, holds the text of the ledger, and agrees with the turn row's status. */
  ghost predicate Receipt(docs: Documents, job: Job, ledger: seq<Frame>, status: Status) {
    && ledger != [] && NoFinal(DropLast(ledger)) && ledger[|ledger| - 1].Final?
    && var final := ledger[|ledger| - 1];
       && Answers(final.response, job)
       && job.responseId in docs.messages && docs.messages[job.responseId] == final.response
       && final.response.text == LedgerText(ledger)
       && final.aborted == final.response.unfinished == (status == Aborted)
       && (status == Failed <==> final.response.error && !final.aborted)
  }

  /** The stored ledger and the job's frames come from one generation: one extends the other, up
      to the final frame. */
  ghost predicate SameLineage(ledger: seq<Frame>, frames: seq<Frame>)
    requires ledger != []
  {
    DropLast(ledger) <= frames || frames <= ledger
  }

  /** While the turn row claims liveness, the store holds a prefix of the job's frames, and the rows
      the store lacks are pending or in flight. */
  ghost predicate StoredOpen(job: Job, ledger: seq<Frame>) {
    && NoFinal(ledger) && ledger <= job.frames
    && match job.phase
       case Running => job.pending == LedgerRows(job.streamId, job.frames, |ledger|)
       case Flushing(batch) => batch == LedgerRows(job.streamId, job.frames, |ledger|) && job.pending == {}
       case Finishing(backup, _) => backup == LedgerRows(job.streamId, job.frames, |ledger|) && job.pending == {}
       case Unsaved(_) => true
       case Lost => true
       case _ => false
  }

  /** Once the turn row is settled, the store holds the whole ledger with its receipt. */
  ghost predicate StoredClosed(docs: Documents, job: Job, ledger: seq<Frame>, status: Status) {
    && Receipt(docs, job, ledger, status)
    && match job.phase
       case Landed(o) => ledger == job.frames + Tail(job, o) && status == StatusOf(o)
       case Settled => ledger == job.frames && status == job.status
       case Unsaved(_) => SameLineage(ledger, job.frames)
       case Lost => SameLineage(ledger, job.frames)
       case _ => false
  }

  /** `ledger` is what the store holds for the stream `job` owns. */
  ghost predicate Stored(docs: Documents, job: Job, ledger: seq<Frame>) {
    var sid := job.streamId;
    && EventsOf(docs.events, sid) == LedgerRows(sid, ledger, 0)
    && sid in docs.turns && docs.turns[sid] == TurnRowOf(job, docs.turns[sid].status)
    && if docs.turns[sid].status == Active then StoredOpen(job, ledger)
       else StoredClosed(docs, job, ledger, docs.turns[sid].status)
  }

  /** What the job's own fields satisfy in each phase. */
  ghost predicate JobShape(job: Job) {
    match job.phase
    case Opening(user) =>
      && job.frames == [Created(user), OpenStep(StepId(job.responseId, "0"), 0, false)]
      && job.pending == LedgerRows(job.streamId, job.frames, 0)
      && user.id == job.userMessageId && job.collected == LedgerText(job.frames) && job.status == Active
    case Settled => job.status != Active
    case Unsaved(o) =>
      && job.status == Failed && job.frames != [] && NoFinal(DropLast(job.frames))
      && job.frames[|job.frames| - 1].Final? && (job.frames[|job.frames| - 1].aborted <==> o.aborted)
      && IsUnsavedReply(job.frames[|job.frames| - 1].response, job, LedgerText(DropLast(job.frames)) + NoteOf(o), o)
    case Dropped => true
    case Lost => NoFinal(job.frames)
    case _ => NoFinal(job.frames) && job.collected == LedgerText(job.frames) && job.status == Active
  }

  ghost predicate JobOk(s: State, k: nat)
    requires k < |s.heap|
  {
    var job := s.heap[k];
    && JobShape(job)
    && (Live(job.phase) ==> job.streamId in s.registry && s.registry[job.streamId] == k)
    && (forall m :: 0 <= m < |s.heap| ==> s.heap[m].userMessageId != job.responseId)
    && (forall m :: 0 <= m < |s.heap| && m != k ==> s.heap[m].responseId != job.responseId)
  }

  /** The turn row claims liveness. */
  predicate StillOpen(docs: Documents, sid: StreamId) {
    sid in docs.turns && docs.turns[sid].status == Active
  }

  ghost predicate RegistryOk(s: State, sid: StreamId)
    requires sid in s.registry
  {
    var k := s.registry[sid];
    && k < |s.heap| && s.heap[k].streamId == sid
    && !s.heap[k].phase.Dropped? && !s.heap[k].phase.Lost?
    && (!s.heap[k].phase.Opening? ==> sid in s.owner && s.owner[sid] == k)
    && (s.heap[k].phase.Unsaved? ==> StillOpen(s.docs, sid))
  }

  ghost predicate StreamOk(s: State, sid: StreamId) {
    if sid !in s.owner then EventsOf(s.docs.events, sid) == {} && sid !in s.docs.turns
    else
      && s.owner[sid] < |s.heap| && s.heap[s.owner[sid]].streamId == sid
      && exists ledger :: Stored(s.docs, s.heap[s.owner[sid]], ledger)
  }

  ghost predicate Inv(s: State) {
    && (forall k :: 0 <= k < |s.heap| ==> JobOk(s, k))
    && (forall sid :: sid in s.registry ==> RegistryOk(s, sid))
    && (forall sid :: StreamOk(s, sid))
  }

  // ---- frames of reasoning ---------------------------------------------------------------

  /** Neither the stream's rows nor the reply's row differ. */
  ghost predicate SameFor(docs: Documents, docs': Documents, sid: StreamId, replyId: string) {
    && EventsOf(docs.events, sid) == EventsOf(docs'.events, sid)
    && (sid in docs.turns <==> sid in docs'.turns)
    && (sid in docs.turns ==> docs.turns[sid] == docs'.turns[sid])
    && (replyId in docs.messages <==> replyId in docs'.messages)
    && (replyId in docs.messages ==> docs.messages[replyId] == docs'.messages[replyId])
  }

  /** `rows` belong to one stream, and its message, if any, is `id`. */
  ghost predicate RowsOf(rows: Batch, sid: StreamId, id: string) {
    && (rows.message.Some? ==> rows.message.value.id == id)
    && (rows.turn.Some? ==> rows.turn.value.streamId == sid)
    && (forall r :: r in rows.events ==> r.streamId == sid)
  }

  /** A transaction on one stream leaves every other stream and message alone. */
  lemma CommitSpares(docs: Documents, retired: set<StreamId>, rows: Batch, sid: StreamId, id: string, other: StreamId,
                     replyId: string)
    requires RowsOf(rows, sid, id) && retired <= {sid} && other != sid && replyId != id
    ensures SameFor(docs, Commit(docs, retired, rows), other, replyId)
  {
    forall e: EventRow | e.streamId == other ensures !Shadowed(e, rows.events) {
    }
    forall e ensures e in EventsOf(docs.events, other) <==> e in EventsOf(Commit(docs, retired, rows).events, other) {
    }
  }

  /** Rows above a stored ledger extend it. */
  lemma CommitExtends(events: set<EventRow>, sid: StreamId, ledger: seq<Frame>, grown: seq<Frame>)
    requires EventsOf(events, sid) == LedgerRows(sid, ledger, 0) && ledger <= grown
    ensures EventsOf(Upsert(Without(events, {}), LedgerRows(sid, grown, |ledger|)), sid) == LedgerRows(sid, grown, 0)
  {
    var rows := LedgerRows(sid, grown, |ledger|);
    assert ledger + grown[|ledger|..] == grown;
    LedgerRowsSplit(sid, ledger, grown[|ledger|..], 0);
    forall e | e in EventsOf(events, sid) ensures !Shadowed(e, rows) {
      assert e in LedgerRows(sid, ledger, 0);
    }
    forall e ensures e in EventsOf(Upsert(Without(events, {}), rows), sid) <==> e in EventsOf(events, sid) + rows {
    }
  }

  /** A job other than the stepping one keeps its stored ledger. */
  lemma StoredStable(docs: Documents, docs': Documents, job: Job, ledger: seq<Frame>)
    requires Stored(docs, job, ledger) && SameFor(docs, docs', job.streamId, job.responseId)
    ensures Stored(docs', job, ledger)
  {
  }

  /** A step of one live, opened job that touches only its own stream and reply keeps the
      invariant when it keeps that job's part of it. */
  lemma LocalStep(s: State, j: nat, job': Job, docs': Documents, ledger: seq<Frame>)
    requires Inv(s) && j < |s.heap|
    requires Live(s.heap[j].phase) && !s.heap[j].phase.Opening?
    requires job'.streamId == s.heap[j].streamId && job'.responseId == s.heap[j].responseId
    requires job'.userMessageId == s.heap[j].userMessageId
    requires !job'.phase.Opening? && !job'.phase.Dropped? && !job'.phase.Lost? && JobShape(job')
    requires job'.phase.Unsaved? ==> StillOpen(docs', job'.streamId)
    requires Stored(docs', job', ledger)
    requires forall other, replyId :: other != job'.streamId && replyId != job'.responseId ==>
              SameFor(s.docs, docs', other, replyId)
    ensures Inv(SetJob(s, j, job').(docs := docs'))
  {
    var s' := SetJob(s, j, job').(docs := docs');
    var sid := job'.streamId;
    assert JobOk(s, j) && RegistryOk(s, sid);
    forall k | 0 <= k < |s'.heap| ensures JobOk(s', k) {
      assert JobOk(s, k);
    }
    forall r | r in s'.registry ensures RegistryOk(s', r) {
      assert RegistryOk(s, r);
      assert r != sid ==> SameFor(s.docs, docs', r, job'.responseId + "x");
    }
    forall other ensures StreamOk(s', other) {
      assert StreamOk(s, other);
      if other == sid {
        assert Stored(s'.docs, s'.heap[s'.owner[sid]], ledger);
      } else if other in s.owner {
        var o := s.owner[other];
        assert JobOk(s, o) && s.heap[o].responseId != job'.responseId;
        assert SameFor(s.docs, docs', other, s.heap[o].responseId);
        var l :| Stored(s.docs, s.heap[o], l);
        StoredStable(s.docs, docs', s.heap[o], l);
        assert Stored(s'.docs, s'.heap[s'.owner[other]], l);
      } else {
        assert SameFor(s.docs, docs', other, job'.responseId + "x");
      }
    }
  }

  /** The ledger the store holds for a live, opened job. */
  lemma LiveStored(s: State, j: nat) returns (ledger: seq<Frame>)
    requires Inv(s) && j < |s.heap| && Live(s.heap[j].phase) && !s.heap[j].phase.Opening?
    ensures JobShape(s.heap[j])
    ensures s.heap[j].streamId in s.registry && s.registry[s.heap[j].streamId] == j
    ensures s.heap[j].streamId in s.owner && s.owner[s.heap[j].streamId] == j
    ensures Stored(s.docs, s.heap[j], ledger)
  {
    var sid := s.heap[j].streamId;
    assert JobOk(s, j) && RegistryOk(s, sid) && StreamOk(s, sid);
    ledger :| Stored(s.docs, s.heap[j], ledger);
  }

  // ---- the steps of a worker -------------------------------------------------------------

  /** Appending a frame keeps the pending rows exactly the frames the store lacks. */
  lemma PendingAppend(sid: StreamId, frames: seq<Frame>, f: Frame, lo: nat)
    requires lo <= |frames|
    ensures Upsert(LedgerRows(sid, frames, lo), {EventRow(sid, |frames| + 1, f)}) == LedgerRows(sid, frames + [f], lo)
    ensures LedgerRows(sid, frames, lo) + {EventRow(sid, |frames| + 1, f)} == LedgerRows(sid, frames + [f], lo)
  {
    var row := EventRow(sid, |frames| + 1, f);
    LedgerRowsSplit(sid, frames, [f], lo);
    assert LedgerRows(sid, frames + [f], |frames|) == {row} by {
      assert (frames + [f])[|frames|] == f;
    }
    forall e | e in LedgerRows(sid, frames, lo) ensures !Shadowed(e, {row}) {
    }
  }

  lemma SayKeeps(s: State, j: nat, text: string)
    requires Inv(s) && Enabled(s, Say(j, text))
    ensures Inv(Apply(s, Say(j, text)))
  {
    var job := s.heap[j];
    var f := MessageDeltaFrame(job.responseId, text);
    var ledger := LiveStored(s, j);
    LedgerTextOne(job.frames, f);
    assert JoinText([TextDelta(text)]) == text + JoinText([]);
    PendingAppend(job.streamId, job.frames, f, |ledger|);
    LocalStep(s, j, Said(job, text), s.docs, ledger);
  }

  lemma ShowKeeps(s: State, j: nat, f: Frame)
    requires Inv(s) && Enabled(s, Show(j, f))
    ensures Inv(Apply(s, Show(j, f)))
  {
    var job := s.heap[j];
    var ledger := LiveStored(s, j);
    LedgerTextOne(job.frames, f);
    PendingAppend(job.streamId, job.frames, f, |ledger|);
    LocalStep(s, j, Appended(job, f), s.docs, ledger);
  }

  lemma TakeBatchKeeps(s: State, j: nat)
    requires Inv(s) && Enabled(s, TakeBatch(j))
    ensures Inv(Apply(s, TakeBatch(j)))
  {
    var ledger := LiveStored(s, j);
    LocalStep(s, j, BatchTaken(s.heap[j]), s.docs, ledger);
  }

  lemma FailBatchKeeps(s: State, j: nat)
    requires Inv(s) && Enabled(s, FailBatch(j))
    ensures Inv(Apply(s, FailBatch(j)))
  {
    var ledger := LiveStored(s, j);
    var batch := s.heap[j].phase.batch;
    assert Upsert(batch, {}) == batch;
    LocalStep(s, j, BatchReturned(s.heap[j]), s.docs, ledger);
  }

  lemma CommitBatchKeeps(s: State, j: nat)
    requires Inv(s) && Enabled(s, CommitBatch(j))
    ensures Inv(Apply(s, CommitBatch(j)))
  {
    var job := s.heap[j];
    var rows := Batch(None, None, job.phase.batch);
    var docs' := Commit(s.docs, {}, rows);
    var ledger := LiveStored(s, j);
    CommitExtends(s.docs.events, job.streamId, ledger, job.frames);
    forall other, replyId | other != job.streamId && replyId != job.responseId
      ensures SameFor(s.docs, docs', other, replyId)
    {
      CommitSpares(s.docs, {}, rows, job.streamId, job.responseId, other, replyId);
    }
    assert LedgerRows(job.streamId, job.frames, |job.frames|) == {};
    LocalStep(s, j, BatchSaved(job), docs', job.frames);
  }

  lemma TakeFinishKeeps(s: State, j: nat, o: Outcome)
    requires Inv(s) && Enabled(s, TakeFinish(j, o))
    ensures Inv(Apply(s, TakeFinish(j, o)))
  {
    var ledger := LiveStored(s, j);
    LocalStep(s, j, FinishTaken(s.heap[j], o), s.docs, ledger);
  }

  lemma FailFinishKeeps(s: State, j: nat)
    requires Inv(s) && Enabled(s, FailFinish(j))
    ensures Inv(Apply(s, FailFinish(j)))
  {
    var job := s.heap[j];
    var ledger := LiveStored(s, j);
    var job' := SettledUnsaved(job);
    assert DropLast(job'.frames) == job.frames;
    UnsavedRecord(job, job.phase.outcome);
    LocalStep(s, j, job', s.docs, ledger);
  }

  /** An optional frame that carries `text` adds it to the ledger's text. */
  lemma OptionalText(frames: seq<Frame>, more: seq<Frame>, text: string)
    requires (more == [] && text == "") || (|more| == 1 && FrameText(more[0]) == text)
    ensures LedgerText(frames + more) == LedgerText(frames) + text
  {
    if more == [] {
      assert frames + more == frames;
    } else {
      LedgerTextOne(frames, more[0]);
      assert more == [more[0]];
    }
  }

  /** The tail closes the ledger: one final, at the end, whose text is all the text streamed. */
  lemma TailCloses(job: Job, o: Outcome)
    requires NoFinal(job.frames) && job.collected == LedgerText(job.frames)
    ensures Tail(job, o) != []
    ensures var ledger := job.frames + Tail(job, o);
            && NoFinal(DropLast(ledger)) && ledger[|ledger| - 1] == Final(ResponseOf(job, o), o.aborted)
            && LedgerText(ledger) == ResponseOf(job, o).text
  {
    var capText := if o.capNote.Some? then o.capNote.value else "";
    var cap := if o.capNote.Some? then [MessageDeltaFrame(job.responseId, capText)] else [];
    var usage := if o.usage.Some? then [TokenUsage(job.responseId, 0, o.usage.value.0, o.usage.value.1)] else [];
    assert JoinText([TextDelta(capText)]) == capText + JoinText([]) == capText;
    ClosedBy(job.frames, cap, usage, Final(ResponseOf(job, o), o.aborted), capText);
  }

  lemma ClosedBy(frames: seq<Frame>, cap: seq<Frame>, usage: seq<Frame>, final: Frame, capText: string)
    requires NoFinal(frames) && NoFinal(cap) && NoFinal(usage) && final.Final?
    requires (cap == [] && capText == "") || (|cap| == 1 && FrameText(cap[0]) == capText)
    requires usage == [] || (|usage| == 1 && FrameText(usage[0]) == "")
    ensures var ledger := frames + (cap + usage + [final]);
            && NoFinal(DropLast(ledger)) && ledger[|ledger| - 1] == final
            && LedgerText(ledger) == LedgerText(frames) + capText
  {
    var body := (frames + cap) + usage;
    assert frames + (cap + usage + [final]) == body + [final];
    assert DropLast(body + [final]) == body;
    ClosedText(frames, cap, usage, final, capText);
  }

  lemma ClosedText(frames: seq<Frame>, cap: seq<Frame>, usage: seq<Frame>, final: Frame, capText: string)
    requires (cap == [] && capText == "") || (|cap| == 1 && FrameText(cap[0]) == capText)
    requires usage == [] || (|usage| == 1 && FrameText(usage[0]) == "")
    requires final.Final?
    ensures LedgerText(((frames + cap) + usage) + [final]) == LedgerText(frames) + capText
  {
    var text := LedgerText(frames) + capText;
    OptionalText(frames, cap, capText);
    OptionalText(frames + cap, usage, "");
    OptionalText((frames + cap) + usage, [final], "");
    assert text + "" == text;
  }

  /** The rows of the terminal commit are the ledger rows the store lacks, tail included. */
  lemma TerminalRowsAre(job: Job, o: Outcome, lo: nat)
    requires lo <= |job.frames|
    ensures TerminalRows(job, LedgerRows(job.streamId, job.frames, lo), o).events
         == LedgerRows(job.streamId, job.frames + Tail(job, o), lo)
  {
    var tailRows := LedgerRows(job.streamId, job.frames + Tail(job, o), |job.frames|);
    LedgerRowsSplit(job.streamId, job.frames, Tail(job, o), lo);
    forall e | e in LedgerRows(job.streamId, job.frames, lo) ensures !Shadowed(e, tailRows) {
    }
  }

  /** After the terminal commit the store holds the frames and the whole tail, with its receipt. */
  lemma LandedStored(docs: Documents, job: Job, ledger: seq<Frame>)
    requires job.phase.Finishing? && Stored(docs, job, ledger) && JobShape(job)
    ensures Stored(Commit(docs, {}, TerminalRows(job, job.phase.backup, job.phase.outcome)),
                   job.(phase := Landed(job.phase.outcome)), job.frames + Tail(job, job.phase.outcome))
  {
    var o := job.phase.outcome;
    var closed, rows := job.frames + Tail(job, o), TerminalRows(job, job.phase.backup, o);
    var docs', job' := Commit(docs, {}, rows), job.(phase := Landed(o));
    TailCloses(job, o);
    if docs.turns[job.streamId].status == Active {
      TerminalRowsAre(job, o, |ledger|);
      CommitExtends(docs.events, job.streamId, ledger, closed);
      assert ResponseOf(job', o) == ResponseOf(job, o) && Tail(job', o) == Tail(job, o);
      assert Receipt(docs', job', closed, StatusOf(o));
    }
  }

  lemma CommitFinishKeeps(s: State, j: nat)
    requires Inv(s) && Enabled(s, CommitFinish(j))
    ensures Inv(Apply(s, CommitFinish(j)))
  {
    var job := s.heap[j];
    var o := job.phase.outcome;
    var rows := TerminalRows(job, job.phase.backup, o);
    var docs' := Commit(s.docs, {}, rows);
    var ledger := LiveStored(s, j);
    LandedStored(s.docs, job, ledger);
    forall r | r in rows.events ensures r.streamId == job.streamId {
      assert r in job.phase.backup ==> r in LedgerRows(job.streamId, job.frames, |ledger|);
    }
    forall other, replyId | other != job.streamId && replyId != job.responseId
      ensures SameFor(s.docs, docs', other, replyId)
    {
      CommitSpares(s.docs, {}, rows, job.streamId, job.responseId, other, replyId);
    }
    LocalStep(s, j, job.(phase := Landed(o)), docs', job.frames + Tail(job, o));
  }

  lemma PublishKeeps(s: State, j: nat)
    requires Inv(s) && Enabled(s, Publish(j))
    ensures Inv(Apply(s, Publish(j)))
  {
    var ledger := LiveStored(s, j);
    LocalStep(s, j, Published(s.heap[j]), s.docs, ledger);
  }

  // ---- starting a turn -------------------------------------------------------------------

  lemma NewJobShape(sid: StreamId, createdAt: int, user: Message, newId: string)
    ensures JobShape(NewJob(sid, createdAt, user, newId))
  {
    var job := NewJob(sid, createdAt, user, newId);
    var slot := OpenStep(StepId(newId, "0"), 0, false);
    LedgerTextOne([], Created(user));
    LedgerTextOne([Created(user)], slot);
    assert [Created(user)] + [slot] == [Created(user), slot] == job.frames;
    assert [] + [Created(user)] == [Created(user)];
    assert LedgerRows(sid, [], 0) == {};
    PendingAppend(sid, [], Created(user), 0);
    PendingAppend(sid, [Created(user)], slot, 0);
  }

  lemma ReserveKeeps(s: State, step: Step)
    requires Inv(s) && step.Reserve? && Enabled(s, step)
    ensures Inv(Apply(s, step))
  {
    var Reserve(sid, createdAt, user, newId, evicted) := step;
    var n, job, s' := |s.heap|, NewJob(sid, createdAt, user, newId), Apply(s, step);
    NewJobShape(sid, createdAt, user, newId);
    assert s'.heap[n] == job && s.registry[sid := n][sid] == n;
    assert sid !in evicted;
    forall k | 0 <= k < n && Live(s.heap[k].phase) ensures s.heap[k].streamId != sid && s.heap[k].streamId !in evicted {
      assert JobOk(s, k);
      assert s.registry[s.heap[k].streamId] == k;
    }
    forall k | 0 <= k < |s'.heap| ensures JobOk(s', k) {
      if k < n {
        assert JobOk(s, k);
        assert s'.heap[k] == s.heap[k];
      }
    }
    forall r | r in s'.registry ensures RegistryOk(s', r) {
      if r != sid { assert RegistryOk(s, r); }
    }
    forall r ensures StreamOk(s', r) {
      assert StreamOk(s, r);
      if r in s.owner {
        assert s'.heap[s.owner[r]] == s.heap[s.owner[r]];
        var l :| Stored(s.docs, s.heap[s.owner[r]], l);
        assert Stored(s'.docs, s'.heap[s'.owner[r]], l);
      }
    }
  }

  /** The opening commit retires the previous ledger and stores the new one whole. */
  lemma OpeningStored(docs: Documents, job: Job, user: Message)
    requires JobShape(job) && job.phase == Opening(user)
    ensures var job' := job.(phase := Running, pending := {});
            Stored(Commit(docs, {job.streamId}, OpeningRows(job, user)), job', job.frames)
  {
    assert EventsOf(Upsert(Without(docs.events, {job.streamId}), job.pending), job.streamId) == job.pending;
    assert LedgerRows(job.streamId, job.frames, |job.frames|) == {};
  }

  lemma OpenCommitKeeps(s: State, j: nat)
    requires Inv(s) && Enabled(s, OpenCommit(j))
    ensures Inv(Apply(s, OpenCommit(j)))
  {
    var job, s' := s.heap[j], Apply(s, OpenCommit(j));
    var sid, user := job.streamId, job.phase.userMessage;
    assert JobOk(s, j);
    OpeningStored(s.docs, job, user);
    forall r, replyId | r != sid && replyId != user.id ensures SameFor(s.docs, s'.docs, r, replyId) {
      CommitSpares(s.docs, {sid}, OpeningRows(job, user), sid, user.id, r, replyId);
    }
    forall k | 0 <= k < |s'.heap| ensures JobOk(s', k) {
      assert JobOk(s, k);
    }
    forall r | r in s'.registry ensures RegistryOk(s', r) {
      assert RegistryOk(s, r);
      assert r != sid ==> SameFor(s.docs, s'.docs, r, user.id + "x");
    }
    forall r ensures StreamOk(s', r) {
      assert StreamOk(s, r);
      if r == sid {
        assert Stored(s'.docs, s'.heap[s'.owner[sid]], job.frames);
      } else if r in s.owner {
        var o := s.owner[r];
        assert JobOk(s, o) && SameFor(s.docs, s'.docs, r, s.heap[o].responseId);
        var l :| Stored(s.docs, s.heap[o], l);
        StoredStable(s.docs, s'.docs, s.heap[o], l);
        assert Stored(s'.docs, s'.heap[s'.owner[r]], l);
      } else {
        assert SameFor(s.docs, s'.docs, r, user.id + "x");
      }
    }
  }

  lemma OpenFailKeeps(s: State, j: nat)
    requires Inv(s) && Enabled(s, OpenFail(j))
    ensures Inv(Apply(s, OpenFail(j)))
  {
    var s' := Apply(s, OpenFail(j));
    assert JobOk(s, j);
    forall k | 0 <= k < |s'.heap| ensures JobOk(s', k) {
      assert JobOk(s, k);
    }
    forall r | r in s'.registry ensures RegistryOk(s', r) {
      assert RegistryOk(s, r);
    }
    forall r ensures StreamOk(s', r) {
      assert StreamOk(s, r);
      if r in s.owner {
        var l :| Stored(s.docs, s.heap[s.owner[r]], l);
        assert Stored(s'.docs, s'.heap[s'.owner[r]], l);
      }
    }
  }

  // ---- death and reconciliation ----------------------------------------------------------

  lemma CrashKeeps(s: State)
    requires Inv(s)
    ensures Inv(Apply(s, Crash))
  {
    var s' := Apply(s, Crash);
    forall k | 0 <= k < |s'.heap| ensures JobOk(s', k) {
      assert JobOk(s, k) && s'.heap[k] == Died(s.heap[k]);
    }
    forall r ensures StreamOk(s', r) {
      assert StreamOk(s, r);
      if r in s.owner {
        var o := s.owner[r];
        assert JobOk(s, o) && s'.heap[o] == Died(s.heap[o]);
        var l :| Stored(s.docs, s.heap[o], l);
        assert Stored(s'.docs, s'.heap[s'.owner[r]], l);
      }
    }
  }

  /** What the query's answer yields over a stored ledger. */
  lemma {:induction false} RowsOfLedger(sid: StreamId, ledger: seq<Frame>, rows: seq<EventRow>)
    requires |rows| == |ledger| && forall i :: 0 <= i < |rows| ==> rows[i] == EventRow(sid, i + 1, ledger[i])
    ensures RowsText(rows) == LedgerText(ledger) && MaxSeq(rows) == |ledger|
  {
    if rows != [] {
      var n := |rows| - 1;
      RowsOfLedger(sid, ledger[..n], rows[..n]);
    }
  }

  /** The stream of a dead turn: its owner is dead or unsaved and its ledger is still open. */
  lemma DeadStored(s: State, sid: StreamId) returns (ledger: seq<Frame>)
    requires Inv(s) && sid !in s.registry && StillOpen(s.docs, sid)
    ensures sid in s.owner && s.owner[sid] < |s.heap|
    ensures s.heap[s.owner[sid]].streamId == sid
    ensures s.heap[s.owner[sid]].phase.Lost? || s.heap[s.owner[sid]].phase.Unsaved?
    ensures Stored(s.docs, s.heap[s.owner[sid]], ledger)
  {
    assert StreamOk(s, sid);
    assert JobOk(s, s.owner[sid]);
    ledger :| Stored(s.docs, s.heap[s.owner[sid]], ledger);
  }

  lemma AbortedReceipt(docs: Documents, job: Job, turn: TurnRow, ledger: seq<Frame>)
    requires turn == TurnRowOf(job, turn.status) && NoFinal(ledger)
    requires job.responseId in docs.messages && docs.messages[job.responseId] == AbortedReply(turn, LedgerText(ledger))
    ensures Receipt(docs, job, ledger + [Final(AbortedReply(turn, LedgerText(ledger)), true)], Aborted)
  {
    var final := Final(AbortedReply(turn, LedgerText(ledger)), true);
    LedgerTextOne(ledger, final);
    assert DropLast(ledger + [final]) == ledger;
  }

  /** The rows a reconcile writes, in terms of the stored ledger. */
  lemma ReconcileRowsAre(events: set<EventRow>, turn: TurnRow, ledger: seq<Frame>, rows: seq<EventRow>)
    requires EventsOf(events, turn.streamId) == LedgerRows(turn.streamId, ledger, 0)
    requires IsListing(events, turn.streamId, rows)
    ensures var reply := AbortedReply(turn, LedgerText(ledger));
            ReconcileRows(turn, rows) == Batch(Some(reply), Some(turn.(status := Aborted)),
                                               LedgerRows(turn.streamId, ledger + [Final(reply, true)], |ledger|))
  {
    ListingIsLedger(events, turn.streamId, ledger, rows);
    LedgerReconciles(turn, ledger, rows);
  }

  lemma LedgerReconciles(turn: TurnRow, ledger: seq<Frame>, rows: seq<EventRow>)
    requires |rows| == |ledger| && forall i :: 0 <= i < |rows| ==> rows[i] == EventRow(turn.streamId, i + 1, ledger[i])
    ensures var reply := AbortedReply(turn, LedgerText(ledger));
            ReconcileRows(turn, rows) == Batch(Some(reply), Some(turn.(status := Aborted)),
                                               LedgerRows(turn.streamId, ledger + [Final(reply, true)], |ledger|))
  {
    RowsOfLedger(turn.streamId, ledger, rows);
    LastRow(turn.streamId, ledger, Final(AbortedReply(turn, LedgerText(ledger)), true));
  }

  lemma LastRow(sid: StreamId, ledger: seq<Frame>, f: Frame)
    ensures LedgerRows(sid, ledger + [f], |ledger|) == {EventRow(sid, |ledger| + 1, f)}
  {
    assert (ledger + [f])[|ledger|] == f;
  }

  /** Reconciling closes the stored ledger with one aborted final holding its text. */
  lemma ReconciledStored(docs: Documents, job: Job, ledger: seq<Frame>, rows: seq<EventRow>)
    requires Stored(docs, job, ledger) && (job.phase.Lost? || job.phase.Unsaved?)
    requires StillOpen(docs, job.streamId) && IsListing(docs.events, job.streamId, rows)
    ensures var turn := docs.turns[job.streamId];
            var docs' := Commit(docs, {}, ReconcileRows(turn, rows));
            && docs'.turns[job.streamId].status == Aborted
            && docs'.messages[turn.responseId] == AbortedReply(turn, LedgerText(ledger))
            && Stored(docs', job, ledger + [Final(AbortedReply(turn, LedgerText(ledger)), true)])
  {
    var sid, turn := job.streamId, docs.turns[job.streamId];
    ReconcileRowsAre(docs.events, turn, ledger, rows);
    var closed := ledger + [Final(AbortedReply(turn, LedgerText(ledger)), true)];
    var docs' := Commit(docs, {}, ReconcileRows(turn, rows));
    CommitExtends(docs.events, sid, ledger, closed);
    AbortedReceipt(docs', job, turn, ledger);
    assert DropLast(closed) == ledger;
    assert StoredClosed(docs', job, closed, Aborted);
  }

  lemma ReconcileKeeps(s: State, sid: StreamId, rows: seq<EventRow>)
    requires Inv(s) && Enabled(s, Reconcile(sid, rows))
    ensures Inv(Apply(s, Reconcile(sid, rows)))
  {
    var s' := Apply(s, Reconcile(sid, rows));
    forall k | 0 <= k < |s'.heap| ensures JobOk(s', k) {
      assert JobOk(s, k);
    }
    forall r | r in s'.registry ensures RegistryOk(s', r) {
      assert RegistryOk(s, r);
      ReconcileSpares(s, sid, rows, r, s.docs.turns[sid].responseId + "x");
    }
    forall r ensures StreamOk(s', r) {
      ReconcileStream(s, sid, rows, r);
    }
  }

  lemma ReconcileSpares(s: State, sid: StreamId, rows: seq<EventRow>, r: StreamId, replyId: string)
    requires Inv(s) && Enabled(s, Reconcile(sid, rows)) && r != sid && replyId != s.docs.turns[sid].responseId
    ensures SameFor(s.docs, Apply(s, Reconcile(sid, rows)).docs, r, replyId)
  {
    var ledger := DeadStored(s, sid);
    CommitSpares(s.docs, {}, ReconcileRows(s.docs.turns[sid], rows), sid, s.docs.turns[sid].responseId, r, replyId);
  }

  lemma ReconcileStream(s: State, sid: StreamId, rows: seq<EventRow>, r: StreamId)
    requires Inv(s) && Enabled(s, Reconcile(sid, rows))
    ensures StreamOk(Apply(s, Reconcile(sid, rows)), r)
  {
    var s' := Apply(s, Reconcile(sid, rows));
    var ledger := DeadStored(s, sid);
    var o, turn := s.owner[sid], s.docs.turns[sid];
    assert StreamOk(s, r);
    if r == sid {
      ReconciledStored(s.docs, s.heap[o], ledger, rows);
      assert Stored(s'.docs, s'.heap[o], ledger + [Final(AbortedReply(turn, LedgerText(ledger)), true)]);
    } else if r in s.owner {
      var p := s.owner[r];
      assert JobOk(s, p) && s.heap[p].responseId != s.heap[o].responseId;
      ReconcileSpares(s, sid, rows, r, s.heap[p].responseId);
      var l :| Stored(s.docs, s.heap[p], l);
      StoredStable(s.docs, s'.docs, s.heap[p], l);
      assert Stored(s'.docs, s'.heap[s'.owner[r]], l);
    } else {
      ReconcileSpares(s, sid, rows, r, turn.responseId + "x");
    }
  }

  // ---- every run -------------------------------------------------------------------------

  lemma StepKeeps(s: State, step: Step)
    requires Inv(s) && Enabled(s, step)
    ensures Inv(Apply(s, step))
  {
    match step
    case Reserve(_, _, _, _, _) => ReserveKeeps(s, step);
    case OpenCommit(j) => OpenCommitKeeps(s, j);
    case OpenFail(j) => OpenFailKeeps(s, j);
    case Say(j, text) => SayKeeps(s, j, text);
    case Show(j, f) => ShowKeeps(s, j, f);
    case TakeBatch(j) => TakeBatchKeeps(s, j);
    case CommitBatch(j) => CommitBatchKeeps(s, j);
    case FailBatch(j) => FailBatchKeeps(s, j);
    case TakeFinish(j, o) => TakeFinishKeeps(s, j, o);
    case CommitFinish(j) => CommitFinishKeeps(s, j);
    case Publish(j) => PublishKeeps(s, j);
    case FailFinish(j) => FailFinishKeeps(s, j);
    case Reconcile(sid, rows) => ReconcileKeeps(s, sid, rows);
    case Crash => CrashKeeps(s);
  }

  lemma InitialHolds()
    ensures Inv(INITIAL)
  {
    forall sid ensures StreamOk(INITIAL, sid) {
      assert EventsOf(INITIAL.docs.events, sid) == {};
    }
  }

  lemma {:induction false} RunKeeps(s: State, steps: seq<Step>)
    requires Inv(s) && IsRun(s, steps)
    ensures Inv(After(s, steps))
    decreases |steps|
  {
    if steps != [] {
      StepKeeps(s, steps[0]);
      RunKeeps(Apply(s, steps[0]), steps[1..]);
    }
  }

  /** The states some run of the system reaches from the empty store. */
  ghost predicate Reachable(s: State) {
    exists steps :: IsRun(INITIAL, steps) && s == After(INITIAL, steps)
  }

  lemma ReachableHolds(s: State)
    requires Reachable(s)
    ensures Inv(s)
  {
    var steps :| IsRun(INITIAL, steps) && s == After(INITIAL, steps);
    InitialHolds();
    RunKeeps(INITIAL, steps);
  }
}
