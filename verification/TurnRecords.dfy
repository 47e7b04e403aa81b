/** What a turn's stored and published records hold, field by field and part by part. */
module TurnRecords {
  import opened Options
  import opened Wire
  import opened PlatformStore
  import opened TurnProtocol

  /** The text if there is any, then the other parts, then the error if there is one. */
  predicate Carries(content: seq<ContentPart>, text: string, parts: seq<ContentPart>, error: Option<string>) {
    var lead := if text == "" then 0 else 1;
    && |content| == lead + |parts| + (if error.Some? then 1 else 0)
    && (text != "" ==> content[0] == TextContent(text))
    && (forall i :: 0 <= i < |parts| ==> content[lead + i] == parts[i])
    && (error.Some? ==> content[|content| - 1] == ErrorContent(error.value))
  }

  /** The message answers the turn's user message under the turn's reply id. */
  predicate Answers(m: Message, job: Job) {
    && m.id == job.responseId && m.parentId == job.userMessageId && m.streamId == job.streamId && !m.byUser
  }

  /** The note of a refused charge, which ends the text. */
  function NoteOf(o: Outcome): string {
    if o.capNote.Some? then o.capNote.value else ""
  }

  /** The reply of a turn that streamed `text` and ended so. */
  predicate IsReply(m: Message, job: Job, text: string, o: Outcome) {
    && Answers(m, job) && m.text == text && Carries(m.content, text, o.extraParts, o.error)
    && (m.error <==> o.error.Some?) && (m.unfinished <==> o.aborted)
  }

  /** The same reply, saying behind everything else that it could not be saved. */
  predicate IsUnsavedReply(m: Message, job: Job, text: string, o: Outcome) {
    && Answers(m, job) && m.text == text && m.error && (m.unfinished <==> o.aborted)
    && m.content != [] && m.content[|m.content| - 1] == ErrorContent(UNSAVED_NOTE)
    && Carries(m.content[..|m.content| - 1], text, o.extraParts, o.error)
  }

  /** The partial reply of a turn whose process died: its text and nothing else, no error. */
  predicate IsPartialReply(m: Message, turn: TurnRow, text: string) {
    && m.id == turn.responseId && m.parentId == turn.userMessageId && m.streamId == turn.streamId
    && !m.byUser && !m.error && m.unfinished && m.text == text
    && (text == "" ==> m.content == []) && (text != "" ==> m.content == [TextContent(text)])
  }

  /** `ended` is `frames` closed: the note if any as a last piece of text, the usage if any was
      reported, and the final with its reply. */
  predicate ClosesWith(frames: seq<Frame>, ended: seq<Frame>, job: Job, text: string, o: Outcome) {
    var noted, used := if o.capNote.Some? then 1 else 0, if o.usage.Some? then 1 else 0;
    && frames <= ended && |ended| == |frames| + noted + used + 1
    && (o.capNote.Some? ==>
          ended[|frames|] == Delta(MessageDelta, StepId(job.responseId, "0"), [TextDelta(o.capNote.value)]))
    && (o.usage.Some? ==>
          var report := ended[|ended| - 2];
          && report.TokenUsage? && report.runId == job.responseId && report.seqNo == 0
          && report.inputTokens == o.usage.value.0 && report.outputTokens == o.usage.value.1)
    && var final := ended[|ended| - 1];
       final.Final? && (final.aborted <==> o.aborted) && IsReply(final.response, job, text, o)
  }

  lemma ReplyRecord(job: Job, o: Outcome)
    ensures IsReply(ResponseOf(job, o), job, job.collected + NoteOf(o), o)
  {
  }

  lemma TailRecord(job: Job, o: Outcome)
    ensures ClosesWith(job.frames, job.frames + Tail(job, o), job, job.collected + NoteOf(o), o)
  {
    ReplyRecord(job, o);
    TailEnds(job.frames, Tail(job, o));
  }

  lemma TailEnds(frames: seq<Frame>, tail: seq<Frame>)
    ensures forall i :: 0 <= i < |tail| ==> (frames + tail)[|frames| + i] == tail[i]
    ensures frames <= frames + tail
  {
  }

  lemma UnsavedRecord(job: Job, o: Outcome)
    ensures var final := UnsavedFinal(job, o);
            && final.Final? && (final.aborted <==> o.aborted)
            && IsUnsavedReply(final.response, job, job.collected + NoteOf(o), o)
  {
    var content := ResponseOf(job, o).content;
    ReplyRecord(job, o);
    assert (content + [ErrorContent(UNSAVED_NOTE)])[..|content|] == content;
  }

  lemma PartialRecord(turn: TurnRow, text: string)
    ensures IsPartialReply(AbortedReply(turn, text), turn, text)
  {
  }

  // ---- what a settling read writes -------------------------------------------------------

  function FramesOf(rows: seq<EventRow>): (frames: seq<Frame>)
    ensures |frames| == |rows| && forall i :: 0 <= i < |frames| ==> frames[i] == rows[i].frame
  {
    seq(|rows|, i requires 0 <= i < |rows| => rows[i].frame)
  }

  /** The number that follows all of the listed ones, 1 if there is none. */
  predicate IsNext(rows: seq<EventRow>, n: nat) {
    && n >= 1 && (forall i :: 0 <= i < |rows| ==> rows[i].seqNo < n)
    && (n == 1 || exists i :: 0 <= i < |rows| && rows[i].seqNo == n - 1)
  }

  /** The dead turn of the stream is settled: its partial reply is stored, its row is aborted and its
      ledger goes on with one aborted final; nothing else is touched. */
  ghost predicate IsSettled(docs: Documents, docs': Documents, sid: StreamId, rows: seq<EventRow>) {
    && sid in docs.turns && sid in docs'.turns && docs'.turns[sid] == docs.turns[sid].(status := Aborted)
    && (forall other :: other != sid ==> (other in docs.turns <==> other in docs'.turns))
    && (forall other :: other != sid && other in docs.turns ==> docs'.turns[other] == docs.turns[other])
    && var turn := docs.turns[sid];
       && turn.responseId in docs'.messages
       && IsPartialReply(docs'.messages[turn.responseId], turn, LedgerText(FramesOf(rows)))
       && (forall id :: id != turn.responseId ==> (id in docs.messages <==> id in docs'.messages))
       && (forall id :: id != turn.responseId && id in docs.messages ==> docs'.messages[id] == docs.messages[id])
       && exists n :: IsNext(rows, n)
                      && docs'.events == docs.events + {EventRow(sid, n, Final(docs'.messages[turn.responseId], true))}
  }

  lemma {:induction false} RowsTextIs(rows: seq<EventRow>)
    ensures RowsText(rows) == LedgerText(FramesOf(rows))
  {
    if rows != [] {
      RowsTextIs(rows[..|rows| - 1]);
      assert FramesOf(rows)[..|rows| - 1] == FramesOf(rows[..|rows| - 1]);
    }
  }

  lemma {:induction false} MaxIsNext(rows: seq<EventRow>)
    ensures IsNext(rows, 1 + MaxSeq(rows))
  {
    if rows != [] {
      var init, last := rows[..|rows| - 1], rows[|rows| - 1];
      MaxIsNext(init);
      var n := 1 + MaxSeq(init);
      if last.seqNo + 1 > n {
        assert rows[|rows| - 1].seqNo == last.seqNo;
      } else if n > 1 {
        var i :| 0 <= i < |init| && init[i].seqNo == n - 1;
        assert rows[i].seqNo == n - 1;
      }
    }
  }

  /** The protocol's rows for a settling read do exactly that. */
  lemma ReconcileRecord(docs: Documents, sid: StreamId, rows: seq<EventRow>)
    requires sid in docs.turns && docs.turns[sid].streamId == sid && IsListing(docs.events, sid, rows)
    ensures IsSettled(docs, Commit(docs, {}, ReconcileRows(docs.turns[sid], rows)), sid, rows)
  {
    var turn, docs' := docs.turns[sid], Commit(docs, {}, ReconcileRows(docs.turns[sid], rows));
    RowsTextIs(rows);
    PartialRecord(turn, RowsText(rows));
    MaxIsNext(rows);
    var row := EventRow(sid, 1 + MaxSeq(rows), Final(AbortedReply(turn, RowsText(rows)), true));
    OneRowMore(docs.events, sid, rows, row);
    assert docs'.events == docs.events + {row};
  }

  lemma OneRowMore(events: set<EventRow>, sid: StreamId, rows: seq<EventRow>, row: EventRow)
    requires IsListing(events, sid, rows) && row.streamId == sid && IsNext(rows, row.seqNo)
    ensures Upsert(Without(events, {}), {row}) == events + {row}
  {
    forall e | e in events ensures !Shadowed(e, {row}) {
      if e.streamId == sid {
        assert e in EventsOf(events, sid);
        assert e in rows;
      }
    }
  }

  // ---- what an accepted start writes -----------------------------------------------------

  /** The stream's turn is opened: the user's message is stored, the turn row claims liveness, and the
      ledger is the new generation's two frames; nothing else is touched. */
  ghost predicate IsOpened(docs: Documents, docs': Documents, sid: StreamId, createdAt: int, user: Message,
                           newId: string) {
    && user.id in docs'.messages && docs'.messages[user.id] == user
    && (forall id :: id != user.id ==> (id in docs.messages <==> id in docs'.messages))
    && (forall id :: id != user.id && id in docs.messages ==> docs'.messages[id] == docs.messages[id])
    && sid in docs'.turns && docs'.turns[sid] == TurnRow(sid, Active, createdAt, user.id, newId)
    && (forall other :: other != sid ==> (other in docs.turns <==> other in docs'.turns))
    && (forall other :: other != sid && other in docs.turns ==> docs'.turns[other] == docs.turns[other])
    && docs'.events == (set e | e in docs.events && e.streamId != sid)
                       + {EventRow(sid, 1, Created(user)), EventRow(sid, 2, OpenStep(StepId(newId, "0"), 0, false))}
  }

  lemma OpeningRecord(docs: Documents, job: Job, user: Message)
    requires job == NewJob(job.streamId, job.createdAt, user, job.responseId)
    ensures IsOpened(docs, Commit(docs, {job.streamId}, OpeningRows(job, user)), job.streamId, job.createdAt, user,
                     job.responseId)
  {
    var sid, first := job.streamId, EventRow(job.streamId, 1, Created(user));
    var second := EventRow(sid, 2, OpenStep(StepId(job.responseId, "0"), 0, false));
    OpeningPending(job, user);
    forall e | e in Without(docs.events, {sid}) ensures !Shadowed(e, {first, second}) {
    }
    assert Commit(docs, {sid}, OpeningRows(job, user)).events == Without(docs.events, {sid}) + {first, second};
  }

  lemma OpeningPending(job: Job, user: Message)
    requires job == NewJob(job.streamId, job.createdAt, user, job.responseId)
    ensures job.pending == {EventRow(job.streamId, 1, Created(user)),
                            EventRow(job.streamId, 2, OpenStep(StepId(job.responseId, "0"), 0, false))}
    ensures job.frames == [Created(user), OpenStep(StepId(job.responseId, "0"), 0, false)]
  {
    assert [] + [Created(user)] == [Created(user)];
  }

  // ---- what the end of a turn writes -----------------------------------------------------

  function StatusFor(o: Outcome): Status {
    if o.aborted then Aborted else if o.error.Some? then Failed else Complete
  }

  /** The turn ended and everything about it is durable: the frames that close its ledger, those that
      were pending, its reply and its row. */
  ghost predicate IsEnded(docs: Documents, was: Job, now: Job, text: string, o: Outcome) {
    && ClosesWith(was.frames, now.frames, was, text, o) && now.status == StatusFor(o)
    && was.responseId in docs.messages
    && docs.messages[was.responseId] == now.frames[|now.frames| - 1].response
    && was.streamId in docs.turns
    && docs.turns[was.streamId] ==
         TurnRow(was.streamId, StatusFor(o), was.createdAt, was.userMessageId, was.responseId)
    && was.pending <= docs.events
    && forall i :: |was.frames| <= i < |now.frames| ==> EventRow(was.streamId, i + 1, now.frames[i]) in docs.events
  }

  /** The turn ended and could not be stored: its last frame carries the whole reply and says so. */
  ghost predicate IsLost(was: Job, now: Job, text: string, o: Outcome) {
    && |now.frames| == |was.frames| + 1 && was.frames <= now.frames && now.status == Failed
    && var final := now.frames[|was.frames|];
       final.Final? && (final.aborted <==> o.aborted) && IsUnsavedReply(final.response, was, text, o)
  }

  lemma EndRecord(docs: Documents, job: Job, o: Outcome)
    requires job.pending <= LedgerRows(job.streamId, job.frames, 0)
    ensures var taken := FinishTaken(job, o);
            IsEnded(Commit(docs, {}, TerminalRows(taken, job.pending, o)), job, Published(taken.(phase := Landed(o))),
                    job.collected + NoteOf(o), o)
  {
    var taken := FinishTaken(job, o);
    var tail := Tail(job, o);
    TailRecord(job, o);
    assert Tail(taken, o) == tail && ResponseOf(taken, o) == ResponseOf(job, o);
    var rows := LedgerRows(job.streamId, job.frames + tail, |job.frames|);
    forall e | e in job.pending ensures !Shadowed(e, rows) {
    }
    assert Tail(taken.(phase := Landed(o)), o) == tail;
  }

  lemma LossRecord(job: Job, o: Outcome)
    ensures IsLost(job, SettledUnsaved(FinishTaken(job, o)), job.collected + NoteOf(o), o)
  {
    UnsavedRecord(FinishTaken(job, o), o);
  }
}
