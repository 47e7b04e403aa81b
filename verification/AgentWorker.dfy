/** The worker thread's closures over their shared state, each one an update in place. */
module AgentWorker {
  import opened Options
  import opened Wire
  import opened Decimal
  import opened Steers
  import A = AgentTurn

  class Worker {
    const responseId: string
    var nextIndex: nat
    var usageSeq: nat
    var openSteps: map<string, A.Opened>
    var heading: string
    var ids: seq<string>
    var collected: seq<string>
    var extraParts: seq<ContentPart>
    var frames: seq<Frame>

    ghost function OpenCalls(): set<A.Opened>
      reads this`openSteps
    {
      CallsIn(openSteps)
    }

    ghost function View(): A.Turn
      reads this
    {
      A.Turn(responseId, nextIndex, usageSeq, OpenCalls(), heading, ids, collected, extraParts, frames)
    }

    ghost predicate Keyed()
      reads this`openSteps
    {
      KeyedById(openSteps)
    }

    ghost predicate Valid()
      reads this
    {
      A.Mirror(View()) && Keyed()
    }

    constructor (responseId: string)
      ensures Valid() && View() == A.NewTurn(responseId)
    {
      this.responseId := responseId;
      nextIndex := 1;
      usageSeq := 0;
      openSteps := map[];
      heading := "";
      ids := [];
      collected := [];
      extraParts := [];
      frames := [];
    }

    method Append(frame: Frame)
      modifies this`frames
      ensures frames == old(frames) + [frame]
    {
      frames := frames + [frame];
    }

    method Allocate(part: ContentPart) returns (index: nat)
      modifies this`nextIndex, this`extraParts
      ensures index == old(nextIndex) && nextIndex == index + 1 && extraParts == old(extraParts) + [part]
    {
      index := nextIndex;
      nextIndex := nextIndex + 1;
      extraParts := extraParts + [part];
    }

    /** Publish the finished batch's header, after the calls it covers. */
    method CloseBatch()
      modifies this`nextIndex, this`extraParts, this`frames, this`heading, this`ids
      ensures View() == A.BatchClosed(old(View()))
    {
      if heading == "" {
        return;
      }
      var part := BatchLabel(heading, ids);
      var index := Allocate(part);
      Append(LabelShown(index, part));
      heading := "";
      ids := [];
    }

    method NoteCall(kind: string, callId: string)
      modifies this`nextIndex, this`extraParts, this`frames, this`heading, this`ids
      ensures View() == A.CallNoted(old(View()), kind, callId)
    {
      if heading != "" && kind != heading {
        CloseBatch();
      }
      heading := kind;
      ids := ids + [callId];
    }

    method Say(text: string)
      modifies this`collected, this`frames
      ensures View() == A.Spoken(old(View()), text)
    {
      var chunk := if collected == [] then text else "\n\n" + text;
      collected := collected + [chunk];
      Append(MessageDeltaFrame(responseId, chunk));
    }

    method Start(call: ToolCall)
      requires Keyed()
      modifies this
      ensures Keyed() && View() == A.Started(old(View()), call)
    {
      NoteCall(A.ActivityLabel(call.name), call.callId);
      var index := Allocate(ToolSlot);
      var stepId := StepId(responseId, Print(index));
      PutCall(openSteps, A.Opened(stepId, index, call));
      openSteps := openSteps[call.callId := A.Opened(stepId, index, call)];
      Append(ToolStep(stepId, index, call));
    }

    method FinishCall(callId: string, detail: string)
      requires Valid()
      modifies this
      ensures Keyed() && View() == A.Completed(old(View()), callId, detail)
    {
      if callId !in openSteps {
        assert !A.IsOpenCall(View(), callId);
        return;
      }
      var o := openSteps[callId];
      assert o in View().open && A.OpenOk(View(), o);
      PopCall(openSteps, callId);
      openSteps := openSteps - {callId};
      extraParts := extraParts[o.index - 1 := ToolCard(o.call, Finished(detail))];
      Append(ToolStepCompleted(o.stepId, o.index, o.call, detail));
    }

    method Meter(inputTokens: int, outputTokens: int, gauge: Option<int>)
      modifies this`usageSeq, this`frames
      ensures View() == A.Metered(old(View()), inputTokens, outputTokens, gauge)
    {
      usageSeq := usageSeq + 1;
      Append(TokenUsage(responseId, usageSeq, inputTokens, outputTokens));
      if gauge.Some? {
        Append(ContextUsage(responseId, gauge.value, inputTokens));
      }
    }

    /** Publish the steers drained from the queue, one frame each, in queue order. */
    method ShowSteers(drained: seq<Steer>)
      modifies this`nextIndex, this`extraParts, this`frames
      ensures View() == A.SteersShown(old(View()), drained)
    {
      for i := 0 to |drained|
        invariant View() == A.SteersShown(old(View()), drained[..i])
      {
        assert drained[..i + 1][..i] == drained[..i];
        var part := SteerChip(drained[i].text, drained[i].createdAt);
        var index := Allocate(part);
        Append(SteerApplied(drained[i].steerId, drained[i].clientSteerId, index, part));
      }
      assert drained[..|drained|] == drained;
    }

    /** One event of the loop. */
    method Emit(e: A.Event)
      requires Valid()
      modifies this
      ensures Valid() && View() == A.OnEvent(old(View()), e)
    {
      A.EventMirror(View(), e);
      match e
      case Narration(text) => Say(text);
      case CallStarted(call) => Start(call);
      case CallFinished(callId, detail) => FinishCall(callId, detail);
      case Usage(i, o, gauge) => Meter(i, o, gauge);
      case Proving =>
        CloseBatch();
        var index := Allocate(A.PROVING);
        Append(LabelShown(index, A.PROVING));
      case Stopped(note) => Say(note);
      case Asked(actionId) => Append(PendingAction(actionId));
      case Steered(rows) => ShowSteers(rows);
      case Other =>
    }

    /** Every exit closes the open batch and shows each call that never came back as issued. */
    method Exit() returns (parts: seq<ContentPart>)
      requires Valid()
      modifies this
      ensures parts == extraParts && A.IsExit(old(View()), parts)
      ensures frames == A.BatchClosed(old(View())).frames && collected == old(collected)
    {
      A.BatchClosedMirror(View());
      CloseBatch();
      ghost var u := View();
      assert forall o :: o in u.open ==> A.OpenOk(u, o);
      extraParts := FillSteps(u, openSteps, extraParts);
      parts := extraParts;
    }
  }

  /** The calls of an open-step table. */
  ghost function CallsIn(steps: map<string, A.Opened>): set<A.Opened> {
    set id | id in steps :: steps[id]
  }

  ghost predicate KeyedById(steps: map<string, A.Opened>) {
    forall id :: id in steps ==> steps[id].call.callId == id
  }

  lemma PutCall(steps: map<string, A.Opened>, o: A.Opened)
    requires KeyedById(steps)
    ensures CallsIn(steps[o.call.callId := o]) == A.OpenWithout(CallsIn(steps), o.call.callId) + {o}
    ensures KeyedById(steps[o.call.callId := o])
  {
    var steps' := steps[o.call.callId := o];
    var put, want := CallsIn(steps'), A.OpenWithout(CallsIn(steps), o.call.callId) + {o};
    forall p: A.Opened | p in put ensures p in want {
      var id :| id in steps' && steps'[id] == p;
    }
    forall p: A.Opened | p in want ensures p in put {
      assert p.call.callId in steps' && steps'[p.call.callId] == p;
    }
  }

  lemma PopCall(steps: map<string, A.Opened>, id: string)
    requires KeyedById(steps)
    ensures CallsIn(steps - {id}) == A.OpenWithout(CallsIn(steps), id) && KeyedById(steps - {id})
  {
    var left, want := CallsIn(steps - {id}), A.OpenWithout(CallsIn(steps), id);
    forall p: A.Opened ensures p in left <==> p in want {
      if p in want {
        assert (steps - {id})[p.call.callId] == p;
      }
    }
  }

  /** Show every call still open as issued, with no output. */
  method FillSteps(ghost t: A.Turn, steps: map<string, A.Opened>, parts: seq<ContentPart>)
      returns (full: seq<ContentPart>)
    requires parts == t.extraParts && CallsIn(steps) == t.open
    requires forall o :: o in t.open ==> 0 < o.index <= |parts|
    requires forall o, p :: o in t.open && p in t.open && o.index == p.index ==> o == p
    ensures |full| == |parts| && forall i :: 0 <= i < |full| ==> A.FilledAt(t, i, full[i])
  {
    full := parts;
    var left := steps.Keys;
    ghost var filled: set<A.Opened> := {};
    while left != {}
      invariant left <= steps.Keys && filled <= t.open
      invariant forall id :: id in steps ==> id in left || steps[id] in filled
      invariant Filled(t, filled, full)
      decreases left
    {
      var id :| id in left;
      var o := steps[id];
      assert o in t.open;
      FillOne(t, filled, full, o);
      full := full[o.index - 1 := ToolCard(o.call, Interrupted)];
      filled := filled + {o};
      left := left - {id};
    }
    assert filled == t.open;
    FilledAll(t, filled, full);
  }

  /** The slots of `filled` show their calls as issued; every other part is as it was. */
  ghost predicate Filled(t: A.Turn, filled: set<A.Opened>, parts: seq<ContentPart>) {
    && |parts| == |t.extraParts|
    && (forall o :: o in filled ==> 0 < o.index <= |parts| && parts[o.index - 1] == ToolCard(o.call, Interrupted))
    && forall i :: 0 <= i < |parts| && (forall o :: o in filled ==> o.index != i + 1) ==> parts[i] == t.extraParts[i]
  }

  lemma FillOne(t: A.Turn, filled: set<A.Opened>, parts: seq<ContentPart>, o: A.Opened)
    requires Filled(t, filled, parts) && 0 < o.index <= |parts|
    requires forall p :: p in filled && p.index == o.index ==> p == o
    ensures Filled(t, filled + {o}, parts[o.index - 1 := ToolCard(o.call, Interrupted)])
  {
    var parts' := parts[o.index - 1 := ToolCard(o.call, Interrupted)];
    forall i | 0 <= i < |parts'| && (forall p :: p in filled + {o} ==> p.index != i + 1)
      ensures parts'[i] == t.extraParts[i]
    {
      assert o in filled + {o};
      forall p | p in filled ensures p.index != i + 1 {
        assert p in filled + {o};
      }
    }
  }

  lemma FilledAll(t: A.Turn, filled: set<A.Opened>, parts: seq<ContentPart>)
    requires Filled(t, filled, parts) && filled == t.open
    ensures forall i :: 0 <= i < |parts| ==> A.FilledAt(t, i, parts[i])
  {
    forall i | 0 <= i < |parts| ensures A.FilledAt(t, i, parts[i]) {
    }
  }
}
