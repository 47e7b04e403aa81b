/** The messages of the turn protocol: the user's message of every opened turn is stored, and so is the
    parent of every stored reply. */
module TurnMessages {
  import opened Wire
  import opened PlatformStore
  import opened TurnProtocol
  import opened TurnRecords
  import opened TurnInvariant

  /** A job's ledger starts with the user's message. */
  predicate OpensWithUser(job: Job) {
    job.frames != [] && job.frames[0].Created? && job.frames[0].message.id == job.userMessageId
  }

  ghost predicate OpenedBy(s: State, j: nat, m: Message) {
    j < |s.heap| && s.heap[j].frames != [] && s.heap[j].frames[0] == Created(m)
  }

  /** A user message is stored under the id, the one some job's ledger starts with. */
  ghost predicate UserStored(s: State, id: string) {
    && id in s.docs.messages && s.docs.messages[id].id == id
    && exists j: nat :: OpenedBy(s, j, s.docs.messages[id])
  }

  ghost predicate NamesMessage(s: State, j: nat, id: string) {
    j < |s.heap| && (id == s.heap[j].userMessageId || id == s.heap[j].responseId)
  }

  ghost predicate ReplyDelivered(s: State, k: nat)
    requires k < |s.heap|
  {
    s.heap[k].responseId in s.docs.messages ==>
      Answers(s.docs.messages[s.heap[k].responseId], s.heap[k]) && UserStored(s, s.heap[k].userMessageId)
  }

  ghost predicate OwnerDelivered(s: State, sid: StreamId)
    requires sid in s.owner
  {
    s.owner[sid] < |s.heap| && UserStored(s, s.heap[s.owner[sid]].userMessageId)
  }

  ghost predicate AllOpen(s: State) {
    forall k :: 0 <= k < |s.heap| ==> OpensWithUser(s.heap[k])
  }

  /** Every stored message is some job's user message or reply. */
  ghost predicate AllNamed(s: State) {
    forall id :: id in s.docs.messages ==> exists j: nat :: NamesMessage(s, j, id)
  }

  ghost predicate OwnersDelivered(s: State) {
    forall sid :: sid in s.owner ==> OwnerDelivered(s, sid)
  }

  ghost predicate RepliesDelivered(s: State) {
    forall k :: 0 <= k < |s.heap| ==> ReplyDelivered(s, k)
  }

  ghost predicate Delivered(s: State) {
    AllOpen(s) && AllNamed(s) && OwnersDelivered(s) && RepliesDelivered(s)
  }

  /** Jobs keep their ids and the first frame of their ledgers. */
  ghost predicate SameOpenings(s: State, s': State) {
    && |s.heap| <= |s'.heap|
    && forall k :: 0 <= k < |s.heap| ==>
         && s'.heap[k].responseId == s.heap[k].responseId && s'.heap[k].userMessageId == s.heap[k].userMessageId
         && s'.heap[k].streamId == s.heap[k].streamId
         && (s.heap[k].frames != [] ==> s'.heap[k].frames != [] && s'.heap[k].frames[0] == s.heap[k].frames[0])
  }

  lemma Openings(s: State, step: Step)
    requires Enabled(s, step)
    ensures SameOpenings(s, Apply(s, step))
  {
  }

  lemma StoredOn(s: State, s': State, id: string)
    requires UserStored(s, id) && SameOpenings(s, s')
    requires id in s'.docs.messages && s'.docs.messages[id] == s.docs.messages[id]
    ensures UserStored(s', id)
  {
    var j: nat :| OpenedBy(s, j, s.docs.messages[id]);
    assert OpenedBy(s', j, s'.docs.messages[id]);
  }

  /** A step that leaves the messages and the owners alone. */
  lemma QuietStep(s: State, s': State)
    requires Delivered(s) && SameOpenings(s, s') && |s'.heap| == |s.heap|
    requires s'.docs.messages == s.docs.messages && s'.owner == s.owner
    ensures Delivered(s')
  {
    KnownOn(s, s', s.docs.messages.Keys);
    forall sid | sid in s'.owner ensures OwnerDelivered(s', sid) {
      assert OwnerDelivered(s, sid);
      StoredOn(s, s', s.heap[s.owner[sid]].userMessageId);
    }
    forall k | 0 <= k < |s'.heap| ensures ReplyDelivered(s', k) {
      assert ReplyDelivered(s, k);
      if s'.heap[k].responseId in s'.docs.messages {
        StoredOn(s, s', s.heap[k].userMessageId);
      }
    }
  }

  lemma KnownOn(s: State, s': State, ids: set<string>)
    requires SameOpenings(s, s') && forall id :: id in ids ==> exists j: nat :: NamesMessage(s, j, id)
    ensures forall id :: id in ids ==> exists j: nat :: NamesMessage(s', j, id)
  {
    forall id | id in ids ensures exists j: nat :: NamesMessage(s', j, id) {
      var j: nat :| NamesMessage(s, j, id);
      assert NamesMessage(s', j, id);
    }
  }

  lemma ReserveDelivers(s: State, step: Step)
    requires Inv(s) && Delivered(s) && step.Reserve? && Enabled(s, step)
    ensures Delivered(Apply(s, step))
  {
    var s', n := Apply(s, step), |s.heap|;
    Openings(s, step);
    KnownOn(s, s', s.docs.messages.Keys);
    NewJobShape(step.streamId, step.createdAt, step.user, step.newId);
    assert s'.heap[n] == NewJob(step.streamId, step.createdAt, step.user, step.newId);
    assert forall j: nat :: !NamesMessage(s, j, step.newId);
    assert step.newId !in s.docs.messages;
    forall sid | sid in s'.owner ensures OwnerDelivered(s', sid) {
      assert OwnerDelivered(s, sid);
      StoredOn(s, s', s.heap[s.owner[sid]].userMessageId);
    }
    forall k | 0 <= k < |s'.heap| ensures ReplyDelivered(s', k) {
      if k < n && s.heap[k].responseId in s.docs.messages {
        assert ReplyDelivered(s, k);
        StoredOn(s, s', s.heap[k].userMessageId);
      }
    }
  }

  /** A user message stays stored when another id is written. */
  lemma OwnersOn(s: State, s': State, id: string)
    requires OwnersDelivered(s) && SameOpenings(s, s') && s'.owner == s.owner
    requires forall k :: 0 <= k < |s.heap| ==> s.heap[k].userMessageId != id
    requires forall i :: i in s.docs.messages && i != id ==>
               i in s'.docs.messages && s'.docs.messages[i] == s.docs.messages[i]
    ensures OwnersDelivered(s')
  {
    forall sid | sid in s'.owner ensures OwnerDelivered(s', sid) {
      assert OwnerDelivered(s, sid);
      StoredOn(s, s', s.heap[s.owner[sid]].userMessageId);
    }
  }

  lemma RepliesOn(s: State, s': State, j: nat, reply: Message)
    requires RepliesDelivered(s) && SameOpenings(s, s') && |s'.heap| == |s.heap|
    requires j < |s.heap| && Answers(reply, s.heap[j]) && UserStored(s, s.heap[j].userMessageId)
    requires s'.docs.messages == s.docs.messages[s.heap[j].responseId := reply]
    requires forall k :: 0 <= k < |s.heap| ==> s.heap[k].userMessageId != s.heap[j].responseId
    requires forall k :: 0 <= k < |s.heap| && k != j ==> s.heap[k].responseId != s.heap[j].responseId
    ensures RepliesDelivered(s')
  {
    forall k | 0 <= k < |s'.heap| ensures ReplyDelivered(s', k) {
      assert ReplyDelivered(s, k);
      if s'.heap[k].responseId in s'.docs.messages {
        StoredOn(s, s', s.heap[k].userMessageId);
      }
    }
  }

  lemma ReplyNamed(s: State, s': State, j: nat, reply: Message)
    requires AllNamed(s) && SameOpenings(s, s') && j < |s.heap|
    requires s'.docs.messages == s.docs.messages[s.heap[j].responseId := reply]
    ensures AllNamed(s')
  {
    assert NamesMessage(s, j, s.heap[j].responseId);
    KnownOn(s, s', s'.docs.messages.Keys);
  }

  /** A reply is stored for job `j`, whose user message is there. */
  lemma ReplyStep(s: State, s': State, j: nat, reply: Message)
    requires Delivered(s) && SameOpenings(s, s') && |s'.heap| == |s.heap| && s'.owner == s.owner
    requires j < |s.heap| && Answers(reply, s.heap[j]) && UserStored(s, s.heap[j].userMessageId)
    requires s'.docs.messages == s.docs.messages[s.heap[j].responseId := reply]
    requires forall k :: 0 <= k < |s.heap| ==> s.heap[k].userMessageId != s.heap[j].responseId
    requires forall k :: 0 <= k < |s.heap| && k != j ==> s.heap[k].responseId != s.heap[j].responseId
    ensures Delivered(s')
  {
    ReplyNamed(s, s', j, reply);
    OwnersOn(s, s', s.heap[j].responseId);
    RepliesOn(s, s', j, reply);
  }

  /** The user message `user` is stored for a ledger that starts with it. */
  lemma UserStep(s: State, s': State, j: nat, user: Message, id: string)
    requires SameOpenings(s, s') && s'.docs.messages == s.docs.messages[user.id := user] && OpenedBy(s', j, user)
    requires id == user.id || UserStored(s, id)
    ensures UserStored(s', id)
  {
    if id != user.id {
      StoredOn(s, s', id);
    }
  }

  lemma OpenedOwners(s: State, s': State, j: nat, user: Message)
    requires OwnersDelivered(s) && SameOpenings(s, s') && j < |s.heap| && s.heap[j].userMessageId == user.id
    requires s'.docs.messages == s.docs.messages[user.id := user] && OpenedBy(s', j, user)
    requires s'.owner == s.owner[s.heap[j].streamId := j]
    ensures OwnersDelivered(s')
  {
    forall sid | sid in s'.owner ensures OwnerDelivered(s', sid) {
      if sid == s.heap[j].streamId {
        UserStep(s, s', j, user, user.id);
      } else {
        assert OwnerDelivered(s, sid);
        UserStep(s, s', j, user, s.heap[s.owner[sid]].userMessageId);
      }
    }
  }

  lemma OpenedReplies(s: State, s': State, j: nat, user: Message)
    requires RepliesDelivered(s) && SameOpenings(s, s') && |s'.heap| == |s.heap|
    requires s'.docs.messages == s.docs.messages[user.id := user] && OpenedBy(s', j, user)
    requires forall k :: 0 <= k < |s.heap| ==> s.heap[k].responseId != user.id
    ensures RepliesDelivered(s')
  {
    forall k | 0 <= k < |s'.heap| ensures ReplyDelivered(s', k) {
      assert ReplyDelivered(s, k);
      if s'.heap[k].responseId in s'.docs.messages {
        UserStep(s, s', j, user, s.heap[k].userMessageId);
      }
    }
  }

  lemma OpenCommitDelivers(s: State, j: nat)
    requires Inv(s) && Delivered(s) && Enabled(s, OpenCommit(j))
    ensures Delivered(Apply(s, OpenCommit(j)))
  {
    var s', user := Apply(s, OpenCommit(j)), s.heap[j].phase.userMessage;
    Openings(s, OpenCommit(j));
    assert JobOk(s, j);
    assert NamesMessage(s, j, user.id);
    KnownOn(s, s', s'.docs.messages.Keys);
    assert OpenedBy(s', j, user);
    forall k | 0 <= k < |s.heap| ensures s.heap[k].responseId != user.id {
      assert JobOk(s, k);
    }
    OpenedOwners(s, s', j, user);
    OpenedReplies(s, s', j, user);
  }

  lemma CommitFinishDelivers(s: State, j: nat)
    requires Inv(s) && Delivered(s) && Enabled(s, CommitFinish(j))
    ensures Delivered(Apply(s, CommitFinish(j)))
  {
    var ledger := LiveStored(s, j);
    Openings(s, CommitFinish(j));
    assert JobOk(s, j);
    ReplyRecord(s.heap[j], s.heap[j].phase.outcome);
    assert OwnerDelivered(s, s.heap[j].streamId);
    ReplyStep(s, Apply(s, CommitFinish(j)), j, ResponseOf(s.heap[j], s.heap[j].phase.outcome));
  }

  lemma ReconcileDelivers(s: State, sid: StreamId, rows: seq<EventRow>)
    requires Inv(s) && Delivered(s) && Enabled(s, Reconcile(sid, rows))
    ensures Delivered(Apply(s, Reconcile(sid, rows)))
  {
    var ledger := DeadStored(s, sid);
    var turn, o := s.docs.turns[sid], s.owner[sid];
    Openings(s, Reconcile(sid, rows));
    assert JobOk(s, o) && OwnerDelivered(s, sid);
    PartialRecord(turn, RowsText(rows));
    ReplyStep(s, Apply(s, Reconcile(sid, rows)), o, AbortedReply(turn, RowsText(rows)));
  }

  lemma StepDelivers(s: State, step: Step)
    requires Inv(s) && Delivered(s) && Enabled(s, step)
    ensures Delivered(Apply(s, step))
  {
    match step
    case Reserve(_, _, _, _, _) => ReserveDelivers(s, step);
    case OpenCommit(j) => OpenCommitDelivers(s, j);
    case CommitFinish(j) => CommitFinishDelivers(s, j);
    case Reconcile(sid, rows) => ReconcileDelivers(s, sid, rows);
    case _ => QuietDelivers(s, step);
  }

  lemma QuietDelivers(s: State, step: Step)
    requires Delivered(s) && Enabled(s, step)
    requires !step.Reserve? && !step.OpenCommit? && !step.CommitFinish? && !step.Reconcile?
    ensures Delivered(Apply(s, step))
  {
    Openings(s, step);
    QuietStep(s, Apply(s, step));
  }

  lemma {:induction false} RunDelivers(s: State, steps: seq<Step>)
    requires Inv(s) && Delivered(s) && IsRun(s, steps)
    ensures Delivered(After(s, steps))
    decreases |steps|
  {
    if steps != [] {
      StepDelivers(s, steps[0]);
      StepKeeps(s, steps[0]);
      RunDelivers(Apply(s, steps[0]), steps[1..]);
    }
  }

  lemma {:induction false} ReachableDelivers(s: State)
    requires Reachable(s)
    ensures Delivered(s)
  {
    var steps :| IsRun(INITIAL, steps) && s == After(INITIAL, steps);
    InitialHolds();
    RunDelivers(INITIAL, steps);
  }

  /** In every state the system can reach: the user's message of a stream's turn is stored, and is the
      one its ledger starts with unless another turn was started under the same message id; a stored
      reply answers its own job's user message, which is stored. */
  lemma MessagesDelivered(s: State, sid: StreamId, k: nat)
    requires Reachable(s)
    ensures sid in s.docs.turns ==> s.docs.turns[sid].userMessageId in s.docs.messages
    ensures sid in s.docs.turns ==> sid in s.owner && s.owner[sid] < |s.heap|
    ensures sid in s.docs.turns && OnlyUse(s, s.owner[sid]) ==>
              s.heap[s.owner[sid]].frames != []
              && s.heap[s.owner[sid]].frames[0] == Created(s.docs.messages[s.docs.turns[sid].userMessageId])
    ensures k < |s.heap| && s.heap[k].responseId in s.docs.messages ==>
              var reply := s.docs.messages[s.heap[k].responseId];
              reply.parentId == s.heap[k].userMessageId && reply.parentId in s.docs.messages
  {
    ReachableDelivers(s);
    ReachableHolds(s);
    assert k < |s.heap| ==> ReplyDelivered(s, k);
    assert StreamOk(s, sid);
    if sid in s.docs.turns {
      assert OwnerDelivered(s, sid);
      OwnMessage(s, s.owner[sid]);
    }
  }

  /** No other job was started under this job's user message id. */
  ghost predicate OnlyUse(s: State, j: nat)
    requires j < |s.heap|
  {
    forall k :: 0 <= k < |s.heap| && k != j ==> s.heap[k].userMessageId != s.heap[j].userMessageId
  }

  lemma OwnMessage(s: State, j: nat)
    requires AllOpen(s) && j < |s.heap| && UserStored(s, s.heap[j].userMessageId)
    ensures OnlyUse(s, j) ==>
              s.heap[j].frames != [] && s.heap[j].frames[0] == Created(s.docs.messages[s.heap[j].userMessageId])
  {
    var i: nat :| OpenedBy(s, i, s.docs.messages[s.heap[j].userMessageId]);
    assert OpensWithUser(s.heap[i]);
  }
}
