/** The two workers inside the turn protocol: whatever they append is a run of its steps, and the
    reply the turn then persists is theirs. */
module WorkerRuns {
  import opened Options
  import opened Sequences
  import opened Wire
  import opened PlatformStore
  import opened TurnProtocol
  import opened TurnRecords
  import opened TurnInvariant
  import A = AgentTurn
  import C = ChatWorker
  import Steers

  /** The protocol step that appends a worker's frame. */
  function StepOf(j: nat, f: Frame): Step {
    if f.Delta? && f.channel == MessageDelta then Say(j, FrameText(f)) else Show(j, f)
  }

  function StepsOf(j: nat, frames: seq<Frame>): (steps: seq<Step>)
    ensures |steps| == |frames|
  {
    if frames == [] then [] else [StepOf(j, frames[0])] + StepsOf(j, frames[1..])
  }

  /** The job after its worker has appended `frames`, apart from the batch those rows wait in. */
  ghost predicate Advanced(job: Job, frames: seq<Frame>, job': Job) {
    && job'.frames == job.frames + frames && job'.collected == job.collected + LedgerText(frames)
    && job'.phase == job.phase && job'.responseId == job.responseId && job'.streamId == job.streamId
    && job'.userMessageId == job.userMessageId
  }

  lemma OneStep(s: State, j: nat, f: Frame)
    requires j < |s.heap| && s.heap[j].phase.Running? && WorkerFrame(s.heap[j].responseId, f)
    ensures Enabled(s, StepOf(j, f))
    ensures Advanced(s.heap[j], [f], Apply(s, StepOf(j, f)).heap[j])
    ensures |Apply(s, StepOf(j, f)).heap| == |s.heap|
  {
    assert [f] == [] + [f];
    LedgerTextOne([], f);
    assert LedgerText([f]) == FrameText(f);
    var job := s.heap[j];
    if f.Delta? && f.channel == MessageDelta {
      assert MessageDeltaFrame(job.responseId, FrameText(f)) == f;
    } else {
      assert job.collected + "" == job.collected;
    }
  }

  // ---- every run the worker is in --------------------------------------------------------

  predicate IsOwn(step: Step, j: nat) {
    (step.Say? || step.Show?) && step.j == j
  }

  /** The frames job `j` shows in a run, as the steps that append them. */
  function OwnSteps(steps: seq<Step>, j: nat): seq<Step> {
    if steps == [] then [] else (if IsOwn(steps[0], j) then [steps[0]] else []) + OwnSteps(steps[1..], j)
  }

  /** Whenever job `j` starts to finish in the run, it is with this outcome. */
  ghost predicate FinishesAs(steps: seq<Step>, j: nat, outcome: Outcome) {
    forall i :: 0 <= i < |steps| && steps[i].TakeFinish? && steps[i].j == j ==> steps[i].outcome == outcome
  }

  /** How far a job is: opening, streaming, finishing, landed, or out without its terminal commit. */
  function Stage(phase: Phase): nat {
    match phase
    case Opening(_) => 0
    case Running => 1
    case Flushing(_) => 1
    case Finishing(_, _) => 2
    case Landed(_) => 3
    case Settled => 3
    case _ => 4
  }

  predicate SameIds(a: Job, b: Job) {
    a.responseId == b.responseId && a.streamId == b.streamId && a.userMessageId == b.userMessageId
  }

  /** What any step, of whatever job, does to job `j`. */
  lemma StepMoves(s: State, step: Step, j: nat)
    requires Enabled(s, step) && j < |s.heap|
    ensures var s' := Apply(s, step);
            && j < |s'.heap| && SameIds(s.heap[j], s'.heap[j])
            && Stage(s.heap[j].phase) <= Stage(s'.heap[j].phase)
            && (IsOwn(step, j) ==> s.heap[j].phase.Running? && s'.heap[j].phase.Running?)
            && (!IsOwn(step, j) ==> s'.heap[j].collected == s.heap[j].collected)
            && (!IsOwn(step, j) && Stage(s'.heap[j].phase) <= 2 ==> s'.heap[j].frames == s.heap[j].frames)
            && (s'.heap[j].phase.Finishing? ==>
                  step == TakeFinish(j, s'.heap[j].phase.outcome) || s.heap[j].phase == s'.heap[j].phase)
  {
  }

  lemma {:induction false} StageGrows(s: State, steps: seq<Step>, j: nat)
    requires IsRun(s, steps) && j < |s.heap|
    ensures j < |After(s, steps).heap| && Stage(s.heap[j].phase) <= Stage(After(s, steps).heap[j].phase)
    decreases |steps|
  {
    if steps != [] {
      StepMoves(s, steps[0], j);
      StageGrows(Apply(s, steps[0]), steps[1..], j);
    }
  }

  lemma OwnHead(steps: seq<Step>, j: nat, frames: seq<Frame>)
    requires steps != [] && OwnSteps(steps, j) == StepsOf(j, frames)
    ensures IsOwn(steps[0], j) ==>
              frames != [] && steps[0] == StepOf(j, frames[0]) && OwnSteps(steps[1..], j) == StepsOf(j, frames[1..])
    ensures !IsOwn(steps[0], j) ==> OwnSteps(steps[1..], j) == StepsOf(j, frames)
  {
    var more := OwnSteps(steps[1..], j);
    if IsOwn(steps[0], j) {
      assert ([steps[0]] + more)[0] == steps[0] && ([steps[0]] + more)[1..] == more;
      assert frames != [];
      assert StepsOf(j, frames)[1..] == StepsOf(j, frames[1..]);
    } else {
      assert [] + more == more;
    }
  }

  /** In every run, whatever else happens in it, a job that streams and is not beyond finishing at the
      end carries exactly the frames its worker appended. */
  lemma {:induction false} RunShows(s: State, steps: seq<Step>, j: nat, frames: seq<Frame>)
    requires IsRun(s, steps) && j < |s.heap| && 1 <= Stage(s.heap[j].phase)
    requires j < |After(s, steps).heap| && Stage(After(s, steps).heap[j].phase) <= 2
    requires WorkerFrames(s.heap[j].responseId, frames) && OwnSteps(steps, j) == StepsOf(j, frames)
    ensures var job' := After(s, steps).heap[j];
            && SameIds(s.heap[j], job') && job'.frames == s.heap[j].frames + frames
            && job'.collected == s.heap[j].collected + LedgerText(frames)
    decreases |steps|
  {
    var job := s.heap[j];
    if steps == [] {
      assert frames == [];
      assert job.frames + [] == job.frames && job.collected + "" == job.collected;
    } else {
      var next := Apply(s, steps[0]);
      StepMoves(s, steps[0], j);
      StageGrows(next, steps[1..], j);
      OwnHead(steps, j, frames);
      if IsOwn(steps[0], j) {
        OneStep(s, j, frames[0]);
        assert forall i :: 0 <= i < |frames[1..]| ==> frames[1..][i] == frames[i + 1];
        RunShows(next, steps[1..], j, frames[1..]);
        FirstThenMore(job, frames, next.heap[j], After(s, steps).heap[j]);
      } else {
        RunShows(next, steps[1..], j, frames);
      }
    }
  }

  lemma FirstThenMore(a: Job, frames: seq<Frame>, b: Job, c: Job)
    requires frames != [] && Advanced(a, [frames[0]], b)
    requires c.frames == b.frames + frames[1..] && c.collected == b.collected + LedgerText(frames[1..])
    ensures c.frames == a.frames + frames && c.collected == a.collected + LedgerText(frames)
  {
    var f, more := frames[0], frames[1..];
    assert frames == [f] + more;
    LedgerTextAppend([f], more);
    ConcatAssoc(a.collected, LedgerText([f]), LedgerText(more));
    ConcatAssoc(a.frames, [f], more);
  }

  /** A job beyond streaming shows nothing more, and one beyond finishing commits nothing more. */
  lemma {:induction false} Silent(s: State, steps: seq<Step>, j: nat)
    requires IsRun(s, steps) && j < |s.heap| && 2 <= Stage(s.heap[j].phase)
    ensures OwnSteps(steps, j) == []
    ensures 3 <= Stage(s.heap[j].phase) ==> CommitFinish(j) !in steps
    decreases |steps|
  {
    if steps != [] {
      StepMoves(s, steps[0], j);
      Silent(Apply(s, steps[0]), steps[1..], j);
      assert steps == [steps[0]] + steps[1..];
    }
  }

  // ---- a stored reply stays --------------------------------------------------------------

  /** The reply of job `k` is stored, and no step is left that would store another under its id. */
  ghost predicate Kept(s: State, k: nat, reply: Message) {
    && k < |s.heap| && 3 <= Stage(s.heap[k].phase)
    && s.heap[k].responseId in s.docs.messages && s.docs.messages[s.heap[k].responseId] == reply
    && (s.heap[k].streamId in s.owner && s.owner[s.heap[k].streamId] == k ==> !StillOpen(s.docs, s.heap[k].streamId))
  }

  lemma ReplyStays(s: State, step: Step, k: nat, reply: Message)
    requires Inv(s) && Enabled(s, step) && Kept(s, k, reply)
    ensures Kept(Apply(s, step), k, reply)
  {
    StepMoves(s, step, k);
    var sid, id := s.heap[k].streamId, s.heap[k].responseId;
    assert JobOk(s, k);
    match step
    case OpenCommit(j) => assert JobOk(s, j);
    case CommitBatch(j) =>
    case CommitFinish(j) =>
      assert JobOk(s, j);
      var ledger := LiveStored(s, j);
    case Reconcile(dead, rows) =>
      var ledger := DeadStored(s, dead);
      assert JobOk(s, s.owner[dead]);
    case _ =>
  }

  lemma {:induction false} ReplyKept(s: State, steps: seq<Step>, k: nat, reply: Message)
    requires Inv(s) && IsRun(s, steps) && Kept(s, k, reply)
    ensures Kept(After(s, steps), k, reply)
    decreases |steps|
  {
    if steps != [] {
      ReplyStays(s, steps[0], k, reply);
      StepKeeps(s, steps[0]);
      ReplyKept(Apply(s, steps[0]), steps[1..], k, reply);
    }
  }

  /** The reply of a job that has `frames` left to show. */
  function ReplyTo(job: Job, frames: seq<Frame>, outcome: Outcome): Message {
    ResponseOf(job.(collected := job.collected + LedgerText(frames)), outcome)
  }

  lemma Landing(s: State, j: nat, outcome: Outcome)
    requires Inv(s) && j < |s.heap| && s.heap[j].phase.Finishing? && s.heap[j].phase.outcome == outcome
    ensures Kept(Apply(s, CommitFinish(j)), j, ReplyTo(s.heap[j], [], outcome))
  {
    var ledger := LiveStored(s, j);
    assert s.heap[j].collected + "" == s.heap[j].collected;
  }

  /** In every run in which job `j` streams those frames, finishes with that outcome and has its
      terminal commit, the reply stored at the end under its id is the one built from them. */
  lemma {:induction false} RunStores(s: State, steps: seq<Step>, j: nat, frames: seq<Frame>, outcome: Outcome)
    requires Inv(s) && IsRun(s, steps) && j < |s.heap| && 1 <= Stage(s.heap[j].phase) <= 2
    requires s.heap[j].phase.Finishing? ==> s.heap[j].phase.outcome == outcome
    requires WorkerFrames(s.heap[j].responseId, frames) && OwnSteps(steps, j) == StepsOf(j, frames)
    requires FinishesAs(steps, j, outcome) && CommitFinish(j) in steps
    ensures Kept(After(s, steps), j, ReplyTo(s.heap[j], frames, outcome))
    ensures SameIds(s.heap[j], After(s, steps).heap[j])
    decreases |steps|
  {
    var job, next, rest := s.heap[j], Apply(s, steps[0]), steps[1..];
    assert steps == [steps[0]] + rest;
    StepMoves(s, steps[0], j);
    StepKeeps(s, steps[0]);
    OwnHead(steps, j, frames);
    assert FinishesAs(rest, j, outcome) by {
      assert forall i :: 0 <= i < |rest| ==> rest[i] == steps[i + 1];
    }
    if steps[0] == CommitFinish(j) {
      Landing(s, j, outcome);
      Silent(next, rest, j);
      assert frames == [];
      ReplyKept(next, rest, j, ReplyTo(job, [], outcome));
      IdsKept(next, rest, j);
    } else if IsOwn(steps[0], j) {
      OneStep(s, j, frames[0]);
      assert forall i :: 0 <= i < |frames[1..]| ==> frames[1..][i] == frames[i + 1];
      RunStores(next, rest, j, frames[1..], outcome);
      SameReply(job, frames, next.heap[j], outcome);
    } else {
      if 3 <= Stage(next.heap[j].phase) {
        Silent(next, rest, j);
      }
      RunStores(next, rest, j, frames, outcome);
    }
  }

  lemma SameReply(job: Job, frames: seq<Frame>, next: Job, outcome: Outcome)
    requires frames != [] && Advanced(job, [frames[0]], next)
    ensures ReplyTo(next, frames[1..], outcome) == ReplyTo(job, frames, outcome)
  {
    var more := next.(frames := next.frames + frames[1..], collected := next.collected + LedgerText(frames[1..]));
    FirstThenMore(job, frames, next, more);
  }

  lemma {:induction false} IdsKept(s: State, steps: seq<Step>, j: nat)
    requires IsRun(s, steps) && j < |s.heap|
    ensures j < |After(s, steps).heap| && SameIds(s.heap[j], After(s, steps).heap[j])
    decreases |steps|
  {
    if steps != [] {
      StepMoves(s, steps[0], j);
      IdsKept(Apply(s, steps[0]), steps[1..], j);
    }
  }

  // ---- such runs exist -------------------------------------------------------------------

  lemma RunCons(s: State, step: Step, steps: seq<Step>)
    requires Enabled(s, step) && IsRun(Apply(s, step), steps)
    ensures IsRun(s, [step] + steps)
  {
    assert ([step] + steps)[1..] == steps;
  }

  lemma {:induction false} ShowThenEnd(s: State, j: nat, frames: seq<Frame>, outcome: Outcome)
    requires j < |s.heap| && s.heap[j].phase.Running? && WorkerFrames(s.heap[j].responseId, frames)
    ensures IsRun(s, StepsOf(j, frames) + [TakeFinish(j, outcome), CommitFinish(j)])
    decreases |frames|
  {
    var ending := [TakeFinish(j, outcome), CommitFinish(j)];
    if frames == [] {
      EndingRun(s, j, outcome);
      assert StepsOf(j, frames) + ending == ending;
    } else {
      var step, more := StepOf(j, frames[0]), frames[1..];
      OneStep(s, j, frames[0]);
      ShowThenEnd(Apply(s, step), j, more, outcome);
      RunCons(s, step, StepsOf(j, more) + ending);
      ConcatAssoc([step], StepsOf(j, more), ending);
    }
  }

  lemma OwnCons(step: Step, steps: seq<Step>, j: nat)
    ensures OwnSteps([step] + steps, j) == (if IsOwn(step, j) then [step] else []) + OwnSteps(steps, j)
  {
    assert ([step] + steps)[1..] == steps;
  }

  lemma {:induction false} OwnJoin(a: seq<Step>, b: seq<Step>, j: nat)
    ensures OwnSteps(a + b, j) == OwnSteps(a, j) + OwnSteps(b, j)
  {
    if a == [] {
      assert a + b == b;
    } else {
      var head, tail := if IsOwn(a[0], j) then [a[0]] else [], a[1..];
      OwnJoin(tail, b, j);
      OwnCons(a[0], tail, j);
      OwnCons(a[0], tail + b, j);
      assert a == [a[0]] + tail && a + b == [a[0]] + (tail + b);
      ConcatAssoc(head, OwnSteps(tail, j), OwnSteps(b, j));
    }
  }

  lemma {:induction false} AllOwn(j: nat, frames: seq<Frame>)
    ensures OwnSteps(StepsOf(j, frames), j) == StepsOf(j, frames)
    ensures forall i :: 0 <= i < |StepsOf(j, frames)| ==> IsOwn(StepsOf(j, frames)[i], j)
  {
    if frames != [] {
      AllOwn(j, frames[1..]);
      assert StepsOf(j, frames)[1..] == StepsOf(j, frames[1..]);
    }
  }

  /** From every state with a streaming job, whatever its worker is to show and however it is to end,
      there is a run in which it shows that, finishes so and has its terminal commit. */
  lemma WorkerCanFinish(s: State, j: nat, frames: seq<Frame>, outcome: Outcome) returns (steps: seq<Step>)
    requires j < |s.heap| && s.heap[j].phase.Running? && WorkerFrames(s.heap[j].responseId, frames)
    ensures IsRun(s, steps) && OwnSteps(steps, j) == StepsOf(j, frames)
    ensures FinishesAs(steps, j, outcome) && CommitFinish(j) in steps
  {
    steps := StepsOf(j, frames) + [TakeFinish(j, outcome), CommitFinish(j)];
    ShowThenEnd(s, j, frames, outcome);
    EndingOwns(j, frames, outcome);
  }

  lemma EndingOwns(j: nat, frames: seq<Frame>, outcome: Outcome)
    ensures var steps := StepsOf(j, frames) + [TakeFinish(j, outcome), CommitFinish(j)];
            OwnSteps(steps, j) == StepsOf(j, frames) && FinishesAs(steps, j, outcome) && CommitFinish(j) in steps
  {
    var shown, ending := StepsOf(j, frames), [TakeFinish(j, outcome), CommitFinish(j)];
    var steps := shown + ending;
    AllOwn(j, frames);
    OwnJoin(shown, ending, j);
    assert ending[1..] == [CommitFinish(j)] && ending[1..][1..] == [];
    assert OwnSteps(ending, j) == [] by {
      assert OwnSteps([CommitFinish(j)], j) == [] + OwnSteps([], j);
    }
    assert steps[|shown|] == TakeFinish(j, outcome) && steps[|shown| + 1] == CommitFinish(j);
    assert forall i :: 0 <= i < |shown| ==> steps[i] == shown[i] && IsOwn(steps[i], j);
  }

  lemma EndingRun(s: State, j: nat, outcome: Outcome)
    requires j < |s.heap| && s.heap[j].phase.Running?
    ensures IsRun(s, [TakeFinish(j, outcome), CommitFinish(j)])
  {
    var ending := [TakeFinish(j, outcome), CommitFinish(j)];
    var taken := Apply(s, TakeFinish(j, outcome));
    assert ending[1..] == [CommitFinish(j)] && ending[1..][1..] == [];
    assert Enabled(taken, CommitFinish(j));
    assert IsRun(Apply(taken, CommitFinish(j)), []);
    assert IsRun(taken, ending[1..]);
  }

  // ---- the two workers -------------------------------------------------------------------

  /** Under the job's reply id the reply of a turn is stored that streamed `text` and ended so. */
  ghost predicate StoredReply(docs: Documents, job: Job, text: string, o: Outcome) {
    job.responseId in docs.messages && IsReply(docs.messages[job.responseId], job, text, o)
  }

  lemma ReplyHolds(s: State, j: nat, frames: seq<Frame>, outcome: Outcome, docs: Documents)
    requires j < |s.heap| && s.heap[j].collected == LedgerText(s.heap[j].frames)
    requires var reply := ReplyTo(s.heap[j], frames, outcome);
             reply.id in docs.messages && docs.messages[reply.id] == reply
    ensures StoredReply(docs, s.heap[j], LedgerText(s.heap[j].frames + frames) + NoteOf(outcome), outcome)
  {
    var job := s.heap[j];
    LedgerTextAppend(job.frames, frames);
    ReplyRecord(job.(collected := job.collected + LedgerText(frames)), outcome);
  }

  /** An agent turn inside the protocol. In every run from a streaming job, with flushes that commit or
      fail, other jobs, readers, evictions and crashes in between: if the job's frames are its worker's,
      it finishes with the exit's parts and its terminal commit succeeds, then at the end the message
      under its reply id answers the user's message and has the text of its ledger, then those parts, in
      order, then the error if any. */
  lemma AgentTurnPersists(s: State, steps: seq<Step>, j: nat, events: seq<A.Event>, parts: seq<ContentPart>,
                          aborted: bool, error: Option<string>)
    requires Reachable(s) && IsRun(s, steps) && j < |s.heap| && s.heap[j].phase.Running?
    requires A.IsExit(A.After(s.heap[j].responseId, events), parts)
    requires OwnSteps(steps, j) == StepsOf(j, A.BatchClosed(A.After(s.heap[j].responseId, events)).frames)
    requires FinishesAs(steps, j, Outcome(aborted, error, None, None, parts)) && CommitFinish(j) in steps
    ensures var job, shown := s.heap[j], A.BatchClosed(A.After(s.heap[j].responseId, events)).frames;
            StoredReply(After(s, steps).docs, job, LedgerText(job.frames + shown),
                        Outcome(aborted, error, None, None, parts))
  {
    ReachableHolds(s);
    assert JobOk(s, j);
    var rid, outcome := s.heap[j].responseId, Outcome(aborted, error, None, None, parts);
    var shown := A.BatchClosed(A.After(rid, events)).frames;
    A.TextEqualsStreamed(rid, events);
    AgentIdKept(rid, events);
    RunStores(s, steps, j, shown, outcome);
    ReplyHolds(s, j, shown, outcome, After(s, steps).docs);
    assert LedgerText(s.heap[j].frames + shown) + "" == LedgerText(s.heap[j].frames + shown);
  }

  lemma {:induction false} AgentIdKept(responseId: string, events: seq<A.Event>)
    ensures A.After(responseId, events).responseId == responseId
    ensures A.BatchClosed(A.After(responseId, events)).responseId == responseId
  {
    if events != [] {
      AgentIdKept(responseId, events[..|events| - 1]);
      EventKeepsId(A.After(responseId, events[..|events| - 1]), events[|events| - 1]);
    }
  }

  lemma EventKeepsId(t: A.Turn, e: A.Event)
    ensures A.OnEvent(t, e).responseId == t.responseId
  {
    if e.Steered? {
      SteersKeepId(t, e.rows);
    }
  }

  lemma {:induction false} SteersKeepId(t: A.Turn, rows: seq<Steers.Steer>)
    ensures A.SteersShown(t, rows).responseId == t.responseId
  {
    if rows != [] {
      SteersKeepId(t, rows[..|rows| - 1]);
    }
  }

  lemma {:induction false} ChatIdKept(responseId: string, events: seq<C.Event>)
    ensures C.After(responseId, events).responseId == responseId
  {
    if events != [] {
      ChatIdKept(responseId, events[..|events| - 1]);
    }
  }

  /** The same of a plain turn: the streamed text with the note of a refused charge, if any, then the
      streamed thinking, then the error. */
  lemma ChatTurnPersists(s: State, steps: seq<Step>, j: nat, events: seq<C.Event>, end: C.End, note: Option<string>)
    requires Reachable(s) && IsRun(s, steps) && j < |s.heap| && s.heap[j].phase.Running?
    requires var shown := C.Closed(C.After(s.heap[j].responseId, events), end);
             && OwnSteps(steps, j) == StepsOf(j, shown.frames)
             && FinishesAs(steps, j, C.OutcomeOf(shown, end).(capNote := note))
    requires CommitFinish(j) in steps
    ensures var job, shown := s.heap[j], C.Closed(C.After(s.heap[j].responseId, events), end);
            var thoughts := if C.HasThought(shown.frames) then [ThinkContent(C.ThoughtText(shown.frames))] else [];
            StoredReply(After(s, steps).docs, job,
                        LedgerText(job.frames + shown.frames) + (if note.Some? then note.value else ""),
                        Outcome(end.Cancelled?, if end.Failed? then Some(end.message) else None, note, None, thoughts))
  {
    ReachableHolds(s);
    assert JobOk(s, j);
    var rid := s.heap[j].responseId;
    var shown := C.Closed(C.After(rid, events), end);
    var outcome := C.OutcomeOf(shown, end).(capNote := note);
    C.PersistedEqualsStreamed(rid, events, end);
    ChatIdKept(rid, events);
    RunStores(s, steps, j, shown.frames, outcome);
    ReplyHolds(s, j, shown.frames, outcome, After(s, steps).docs);
  }
}
