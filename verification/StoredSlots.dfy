/** The content an agent turn stores, slot by slot, against what its ledger shows there. */
module StoredSlots {
  import opened Options
  import opened Wire
  import opened TurnProtocol
  import opened TurnRecords
  import opened TurnInvariant
  import opened WorkerRuns
  import opened Delivery
  import A = AgentTurn
  import Steers

  /** No frame shows a part beside the text. */
  predicate NoSlots(frames: seq<Frame>) {
    forall i :: 0 <= i < |frames| ==> A.SlotOf(frames[i]) == None
  }

  lemma {:induction false} ShownBehind(before: seq<Frame>, frames: seq<Frame>, i: nat)
    requires NoSlots(before)
    ensures A.ShownAt(before + frames, i) == A.ShownAt(frames, i)
  {
    if frames != [] {
      var init, last := frames[..|frames| - 1], frames[|frames| - 1];
      ShownBehind(before, init, i);
      assert before + frames == (before + init) + [last];
      A.ShownOne(before + init, last, i);
    } else if before != [] {
      ShownBehind(before[..|before| - 1], [], i);
      assert before + [] == before && before[..|before| - 1] + [] == before[..|before| - 1];
    }
  }

  // ---- the stream shows no error part ----------------------------------------------------

  predicate ShowsError(f: Frame) {
    A.SlotOf(f).Some? && A.SlotOf(f).value.1.ErrorContent?
  }

  predicate Errorless(frames: seq<Frame>) {
    forall i :: 0 <= i < |frames| ==> !ShowsError(frames[i])
  }

  lemma BatchErrorless(t: A.Turn)
    requires Errorless(t.frames)
    ensures Errorless(A.BatchClosed(t).frames)
  {
  }

  lemma {:induction false} SteersErrorless(t: A.Turn, rows: seq<Steers.Steer>)
    requires Errorless(t.frames)
    ensures Errorless(A.SteersShown(t, rows).frames)
  {
    if rows != [] {
      SteersErrorless(t, rows[..|rows| - 1]);
    }
  }

  lemma {:induction false} TurnErrorless(responseId: string, events: seq<A.Event>)
    ensures Errorless(A.After(responseId, events).frames)
  {
    if events != [] {
      var t, e := A.After(responseId, events[..|events| - 1]), events[|events| - 1];
      TurnErrorless(responseId, events[..|events| - 1]);
      match e
      case Steered(rows) => SteersErrorless(t, rows);
      case CallFinished(callId, detail) =>
        if A.IsOpenCall(t, callId) {
          var o :| o in t.open && o.call.callId == callId && A.Completed(t, callId, detail) == A.Returned(t, o, detail);
        }
      case _ => BatchErrorless(t);
    }
  }

  lemma {:induction false} NoErrorShown(frames: seq<Frame>, i: nat)
    requires Errorless(frames)
    ensures A.ShownAt(frames, i).Some? ==> !A.ShownAt(frames, i).value.ErrorContent?
  {
    if frames != [] {
      NoErrorShown(frames[..|frames| - 1], i);
    }
  }

  // ---- slot by slot ----------------------------------------------------------------------

  /** Each of the first `n` parts stored behind the text is what the ledger shows at its index. */
  predicate SlotsMatch(ledger: seq<Frame>, content: seq<ContentPart>, n: nat) {
    forall i :: 1 <= i <= n ==> i < |content| && A.ShownAt(ledger, i) == Some(content[i])
  }

  /** The same with every part one place lower. */
  predicate OneLower(ledger: seq<Frame>, content: seq<ContentPart>, n: nat) {
    forall i :: 1 <= i <= n ==> i <= |content| && A.ShownAt(ledger, i) == Some(content[i - 1])
  }

  function ContentOf(text: string, parts: seq<ContentPart>, error: Option<string>): seq<ContentPart> {
    (if text != "" then [TextContent(text)] else []) + parts
    + (if error.Some? then [ErrorContent(error.value)] else [])
  }

  lemma CarriedContent(content: seq<ContentPart>, text: string, parts: seq<ContentPart>, error: Option<string>)
    requires Carries(content, text, parts, error)
    ensures content == ContentOf(text, parts, error)
  {
    var whole, lead := ContentOf(text, parts, error), if text == "" then 0 else 1;
    forall i | 0 <= i < |content| ensures content[i] == whole[i] {
      assert lead <= i < lead + |parts| ==> content[i] == parts[i - lead];
    }
  }

  lemma ContentAt(text: string, parts: seq<ContentPart>, error: Option<string>, i: nat)
    requires 1 <= i <= |parts|
    ensures var content := ContentOf(text, parts, error);
            if text != "" then i < |content| && content[i] == parts[i - 1]
            else i <= |content| && content[i - 1] == parts[i - 1]
    ensures text == "" && i == |parts| < |ContentOf(text, parts, error)| ==>
              ContentOf(text, parts, error)[i].ErrorContent?
  {
  }

  lemma PartsMatch(ledger: seq<Frame>, text: string, parts: seq<ContentPart>, error: Option<string>)
    requires forall i: nat :: A.ShownAt(ledger, i).Some? ==> !A.ShownAt(ledger, i).value.ErrorContent?
    ensures var content := ContentOf(text, parts, error);
            var shown := forall i :: 0 <= i < |parts| ==> A.ShownAt(ledger, i + 1) == Some(parts[i]);
            && (SlotsMatch(ledger, content, |parts|) <==> parts == [] || (text != "" && shown))
            && (text == "" && shown ==> OneLower(ledger, content, |parts|))
  {
    var content := ContentOf(text, parts, error);
    forall i | 1 <= i <= |parts|
      ensures if text != "" then i < |content| && content[i] == parts[i - 1]
              else i <= |content| && content[i - 1] == parts[i - 1]
    {
      ContentAt(text, parts, error, i);
    }
    if text == "" && parts != [] {
      ContentAt(text, parts, error, |parts|);
    } else if SlotsMatch(ledger, content, |parts|) {
      forall i | 0 <= i < |parts| ensures A.ShownAt(ledger, i + 1) == Some(parts[i]) {
        assert A.ShownAt(ledger, i + 1) == Some(content[i + 1]);
      }
    }
  }

  /** The ledger of a whole turn: what stood on it, what the worker showed, the final frame. */
  function WholeLedger(before: seq<Frame>, shown: seq<Frame>, final: Message, aborted: bool): seq<Frame> {
    before + shown + [Final(final, aborted)]
  }

  lemma LedgerShows(before: seq<Frame>, shown: seq<Frame>, final: Message, aborted: bool, i: nat)
    requires NoSlots(before) && Errorless(shown)
    ensures var at := A.ShownAt(WholeLedger(before, shown, final, aborted), i);
            at == A.ShownAt(shown, i) && (at.Some? ==> !at.value.ErrorContent?)
  {
    ShownBehind(before, shown, i);
    A.ShownOne(before + shown, Final(final, aborted), i);
    NoErrorShown(shown, i);
  }

  /** An agent turn inside the protocol, in any run that has its terminal commit: the stored content is
      index by index what its ledger shows if and only if the turn has no part beside its text, or it
      has text and restarted no open call. Without any text everything is stored one index lower. */
  lemma StoredSlotsExactly(s: State, steps: seq<Step>, j: nat, events: seq<A.Event>, parts: seq<ContentPart>,
                           aborted: bool, error: Option<string>)
    requires Reachable(s) && IsRun(s, steps) && j < |s.heap| && s.heap[j].phase.Running?
    requires A.IsExit(A.After(s.heap[j].responseId, events), parts)
    requires OwnSteps(steps, j) == StepsOf(j, A.BatchClosed(A.After(s.heap[j].responseId, events)).frames)
    requires FinishesAs(steps, j, Outcome(aborted, error, None, None, parts)) && CommitFinish(j) in steps
    requires NoSlots(s.heap[j].frames)
    ensures s.heap[j].responseId in After(s, steps).docs.messages
    ensures var job, shown := s.heap[j], A.BatchClosed(A.After(s.heap[j].responseId, events)).frames;
            var text, reply := LedgerText(job.frames + shown), After(s, steps).docs.messages[job.responseId];
            var ledger := WholeLedger(job.frames, shown, reply, aborted);
            && (SlotsMatch(ledger, reply.content, |parts|) <==> parts == [] || (text != "" && A.NoRestart(events)))
            && (text == "" && A.NoRestart(events) ==> OneLower(ledger, reply.content, |parts|))
  {
    var job := s.heap[j];
    var shown := A.BatchClosed(A.After(job.responseId, events)).frames;
    AgentTurnPersists(s, steps, j, events, parts, aborted, error);
    var reply := After(s, steps).docs.messages[job.responseId];
    var text := LedgerText(job.frames + shown);
    CarriedContent(reply.content, text, parts, error);
    SlotsOf(job, events, parts, text, error, reply, aborted);
  }

  lemma SlotsOf(job: Job, events: seq<A.Event>, parts: seq<ContentPart>, text: string, error: Option<string>,
                reply: Message, aborted: bool)
    requires A.IsExit(A.After(job.responseId, events), parts) && NoSlots(job.frames)
    requires reply.content == ContentOf(text, parts, error)
    ensures var shown := A.BatchClosed(A.After(job.responseId, events)).frames;
            var ledger := WholeLedger(job.frames, shown, reply, aborted);
            && (SlotsMatch(ledger, reply.content, |parts|) <==> parts == [] || (text != "" && A.NoRestart(events)))
            && (text == "" && A.NoRestart(events) ==> OneLower(ledger, reply.content, |parts|))
  {
    var shown := A.BatchClosed(A.After(job.responseId, events)).frames;
    var ledger := WholeLedger(job.frames, shown, reply, aborted);
    TurnErrorless(job.responseId, events);
    BatchErrorless(A.After(job.responseId, events));
    forall i: nat
      ensures A.ShownAt(ledger, i) == A.ShownAt(shown, i)
      ensures A.ShownAt(ledger, i).Some? ==> !A.ShownAt(ledger, i).value.ErrorContent?
    {
      LedgerShows(job.frames, shown, reply, aborted, i);
    }
    A.PersistedEqualsStreamed(job.responseId, events, parts);
    PartsMatch(ledger, text, parts, error);
  }

  // ---- a turn without a word -------------------------------------------------------------

  lemma ProvingTurn(responseId: string)
    ensures var t := A.After(responseId, [A.Proving]);
            && A.BatchClosed(t).frames == [LabelShown(1, A.PROVING)] && A.IsExit(t, [A.PROVING])
  {
    assert [A.Proving][..0] == [];
    assert A.After(responseId, []) == A.NewTurn(responseId);
    assert A.After(responseId, [A.Proving]) == A.PhaseShown(A.NewTurn(responseId));
  }

  lemma UnsaidReply(s: State, steps: seq<Step>, shown: seq<Frame>)
    requires Reachable(s) && IsRun(s, steps) && |s.heap| == 1 && s.heap[0].phase.Running?
    requires shown == [LabelShown(1, A.PROVING)] && OwnSteps(steps, 0) == StepsOf(0, shown)
    requires FinishesAs(steps, 0, Outcome(false, None, None, None, [A.PROVING])) && CommitFinish(0) in steps
    requires LedgerText(s.heap[0].frames + shown) == ""
    ensures var docs := After(s, steps).docs;
            s.heap[0].responseId in docs.messages && docs.messages[s.heap[0].responseId].content == [A.PROVING]
  {
    ProvingTurn(s.heap[0].responseId);
    AgentTurnPersists(s, steps, 0, [A.Proving], [A.PROVING], false, None);
    CarriedContent(After(s, steps).docs.messages[s.heap[0].responseId].content, "", [A.PROVING], None);
  }

  lemma ProvingRun(s: State) returns (steps: seq<Step>)
    requires |s.heap| == 1 && s.heap[0].phase.Running?
    ensures IsRun(s, steps) && OwnSteps(steps, 0) == StepsOf(0, [LabelShown(1, A.PROVING)])
    ensures FinishesAs(steps, 0, Outcome(false, None, None, None, [A.PROVING])) && CommitFinish(0) in steps
  {
    steps := WorkerCanFinish(s, 0, [LabelShown(1, A.PROVING)], Outcome(false, None, None, None, [A.PROVING]));
  }

  /** For every first turn of a fresh process there is a run in which it shows one phase at index 1,
      says nothing, and stores that phase at index 0. */
  lemma UnsaidTurn(sid: StreamId, createdAt: int, user: Message, newId: string)
      returns (s: State, steps: seq<Step>)
    requires user.id != newId
    ensures Reachable(s) && IsRun(s, steps) && |s.heap| == 1 && s.heap[0].responseId == newId
    ensures OwnSteps(steps, 0) == [Show(0, LabelShown(1, A.PROVING))]
    ensures newId in After(s, steps).docs.messages && After(s, steps).docs.messages[newId].content == [A.PROVING]
    ensures var reply := After(s, steps).docs.messages[newId];
            A.ShownAt(WholeLedger(s.heap[0].frames, [LabelShown(1, A.PROVING)], reply, false), 1) == Some(A.PROVING)
  {
    s := FirstTurn(sid, createdAt, user, newId);
    var opening, shown := s.heap[0].frames, [LabelShown(1, A.PROVING)];
    steps := ProvingRun(s);
    SilentLedger(opening, shown);
    UnsaidReply(s, steps, shown);
    PhaseShownAt(opening, After(s, steps).docs.messages[newId]);
  }

  lemma PhaseShownAt(opening: seq<Frame>, reply: Message)
    requires NoSlots(opening)
    ensures A.ShownAt(WholeLedger(opening, [LabelShown(1, A.PROVING)], reply, false), 1) == Some(A.PROVING)
  {
    var shown := [LabelShown(1, A.PROVING)];
    LedgerShows(opening, shown, reply, false, 1);
    assert shown == [] + shown;
    A.ShownOne([], shown[0], 1);
  }

  lemma SilentLedger(opening: seq<Frame>, shown: seq<Frame>)
    requires |opening| == 2 && opening[0].Created? && opening[1].OpenStep? && |shown| == 1 && shown[0].LabelShown?
    ensures LedgerText(opening + shown) == "" && StepsOf(0, shown) == [Show(0, shown[0])]
  {
    var all := opening + shown;
    assert all[..2] == opening && opening[..1] == [opening[0]] && [opening[0]][..0] == [];
    assert LedgerText(opening[..1]) == "";
    assert LedgerText(opening) == "";
    assert shown[1..] == [];
  }
}
