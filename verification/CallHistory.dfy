/** What becomes of one tool call over a turn's whole history: announced when it starts, shown and
    stored at the same index with its own output when it comes back, as interrupted if it never does. */
module CallHistory {
  import opened Options
  import opened Wire
  import Steers
  import opened AgentTurn

  /** The event starts or finishes a call under this id. */
  predicate Concerns(e: Event, callId: string) {
    (e.CallStarted? && e.call.callId == callId) || (e.CallFinished? && e.callId == callId)
  }

  /** Event `i` starts a call and nothing happens under its id before event `k`. */
  predicate RunsUntil(events: seq<Event>, i: nat, k: nat) {
    && i < k <= |events| && events[i].CallStarted?
    && forall n :: i < n < k ==> !Concerns(events[n], events[i].call.callId)
  }

  /** The event's last frame announces the call at this index, under this step. */
  predicate Announces(frames: seq<Frame>, call: ToolCall, stepId: string, index: nat) {
    frames != [] && frames[|frames| - 1] == ToolStep(stepId, index, call)
  }

  /** The last frame completes that step with this output. */
  predicate Completes(frames: seq<Frame>, call: ToolCall, stepId: string, index: nat, output: string) {
    frames != [] && frames[|frames| - 1] == ToolStepCompleted(stepId, index, call, output)
  }

  /** The slot is shown and, unless it waits for its call, stored so. */
  ghost predicate Holds(t: Turn, index: nat, part: ContentPart) {
    0 < index <= |t.extraParts| && t.extraParts[index - 1] == part
  }

  // ---- one event -------------------------------------------------------------------------

  lemma StartAnnounces(t: Turn, call: ToolCall) returns (o: Opened)
    requires Mirror(t)
    ensures var u := OnEvent(t, CallStarted(call));
            o in u.open && o.call == call && Announces(u.frames, call, o.stepId, o.index)
  {
    var u := OnEvent(t, CallStarted(call));
    o :| o in u.open && o.call == call;
    assert CallNoted(t, ActivityLabel(call.name), call.callId).open == t.open;
    assert o == Opened(u.frames[|u.frames| - 1].stepId, u.frames[|u.frames| - 1].index, call);
  }

  lemma StaysOpen(t: Turn, e: Event, o: Opened)
    requires Mirror(t) && o in t.open && !Concerns(e, o.call.callId)
    ensures o in OnEvent(t, e).open
  {
    match e
    case CallStarted(call) =>
      assert CallNoted(t, ActivityLabel(call.name), call.callId).open == t.open;
    case CallFinished(id, detail) =>
      if IsOpenCall(t, id) {
        var p :| p in t.open && p.call.callId == id && Completed(t, id, detail) == Returned(t, p, detail);
      }
    case Steered(rows) => SteersMirror(t, rows);
    case Proving => PhaseMirror(t);
    case _ =>
  }

  /** The call comes back: its step is completed with the output and its slot holds the card. */
  lemma FinishCompletes(t: Turn, o: Opened, output: string)
    requires Mirror(t) && o in t.open
    ensures var u := OnEvent(t, CallFinished(o.call.callId, output));
            && Completes(u.frames, o.call, o.stepId, o.index, output)
            && Holds(u, o.index, ToolCard(o.call, Finished(output)))
  {
    assert OpenOk(t, o);
    var p :| p in t.open && p.call.callId == o.call.callId
             && Completed(t, o.call.callId, output) == Returned(t, p, output);
    assert p == o;
  }

  lemma NotedKeeps(t: Turn, heading: string, callId: string, i: nat)
    requires i < |t.extraParts|
    ensures i < |CallNoted(t, heading, callId).extraParts|
    ensures CallNoted(t, heading, callId).extraParts[i] == t.extraParts[i]
  {
  }

  lemma {:induction false} SteersKeep(t: Turn, rows: seq<Steers.Steer>, i: nat)
    requires i < |t.extraParts|
    ensures i < |SteersShown(t, rows).extraParts| && SteersShown(t, rows).extraParts[i] == t.extraParts[i]
  {
    if rows != [] {
      SteersKeep(t, rows[..|rows| - 1], i);
    }
  }

  /** A slot that holds a part holds it from then on. */
  lemma SlotStays(t: Turn, e: Event, index: nat, part: ContentPart)
    requires Mirror(t) && Holds(t, index, part) && part != ToolSlot
    ensures Holds(OnEvent(t, e), index, part)
  {
    match e
    case CallStarted(call) => NotedKeeps(t, ActivityLabel(call.name), call.callId, index - 1);
    case CallFinished(id, detail) =>
      if IsOpenCall(t, id) {
        var p :| p in t.open && p.call.callId == id && Completed(t, id, detail) == Returned(t, p, detail);
        assert OpenOk(t, p);
      }
    case Steered(rows) => SteersKeep(t, rows, index - 1);
    case _ =>
  }

  // ---- over a history --------------------------------------------------------------------

  lemma PrefixOf(events: seq<Event>, i: nat)
    requires i < |events|
    ensures events[..i + 1][..i] == events[..i] && events[..i + 1][i] == events[i]
  {
  }

  lemma OneMoreEvent(responseId: string, events: seq<Event>, i: nat)
    requires i < |events|
    ensures Mirror(After(responseId, events[..i]))
    ensures After(responseId, events[..i + 1]) == OnEvent(After(responseId, events[..i]), events[i])
  {
    PrefixOf(events, i);
    TurnMirror(responseId, events[..i], "");
  }

  lemma OpensAt(responseId: string, events: seq<Event>, i: nat) returns (o: Opened)
    requires i < |events| && events[i].CallStarted?
    ensures o in After(responseId, events[..i + 1]).open && o.call == events[i].call
    ensures Announces(After(responseId, events[..i + 1]).frames, o.call, o.stepId, o.index)
  {
    OneMoreEvent(responseId, events, i);
    o := StartAnnounces(After(responseId, events[..i]), events[i].call);
  }

  lemma StaysOpenAt(responseId: string, events: seq<Event>, n: nat, o: Opened)
    requires n < |events| && o in After(responseId, events[..n]).open && !Concerns(events[n], o.call.callId)
    ensures o in After(responseId, events[..n + 1]).open
  {
    OneMoreEvent(responseId, events, n);
    StaysOpen(After(responseId, events[..n]), events[n], o);
  }

  /** The call started by event `i` is open as long as nothing happens under its id. */
  lemma {:induction false} OpenUntil(responseId: string, events: seq<Event>, i: nat, k: nat) returns (o: Opened)
    requires RunsUntil(events, i, k)
    ensures o in After(responseId, events[..k]).open && o.call == events[i].call
    ensures Announces(After(responseId, events[..i + 1]).frames, o.call, o.stepId, o.index)
  {
    if k == i + 1 {
      o := OpensAt(responseId, events, i);
    } else {
      o := OpenUntil(responseId, events, i, k - 1);
      StaysOpenAt(responseId, events, k - 1, o);
    }
  }

  lemma {:induction false} HeldUntil(responseId: string, events: seq<Event>, k: nat, n: nat, index: nat,
                                     part: ContentPart)
    requires k <= n <= |events| && Holds(After(responseId, events[..k]), index, part) && part != ToolSlot
    ensures Holds(After(responseId, events[..n]), index, part)
  {
    if k < n {
      HeldUntil(responseId, events, k, n - 1, index, part);
      OneMoreEvent(responseId, events, n - 1);
      SlotStays(After(responseId, events[..n - 1]), events[n - 1], index, part);
    }
  }

  lemma ClosedHolds(t: Turn, index: nat, part: ContentPart)
    requires Holds(t, index, part)
    ensures Holds(BatchClosed(t), index, part)
  {
  }

  /** At the exit a slot that holds a part shows and stores it. */
  lemma ExitHolds(u: Turn, index: nat, part: ContentPart, parts: seq<ContentPart>)
    requires Mirror(u) && Holds(u, index, part) && part != ToolSlot
    requires |parts| == |u.extraParts| && FilledAt(u, index - 1, parts[index - 1])
    ensures parts[index - 1] == part && ShownAt(u.frames, index) == Some(part)
  {
    assert SlotOk(u, index - 1);
    forall o | o in u.open ensures o.index != index {
      assert OpenOk(u, o);
    }
  }

  lemma ExitInterrupts(u: Turn, o: Opened, parts: seq<ContentPart>)
    requires Mirror(u) && o in u.open && |parts| == |u.extraParts|
    requires forall i :: 0 <= i < |parts| ==> FilledAt(u, i, parts[i])
    ensures 0 < o.index <= |parts| && parts[o.index - 1] == ToolCard(o.call, Interrupted)
    ensures ShownAt(u.frames, o.index) == Some(ToolCard(o.call, Interrupted))
  {
    assert OpenOk(u, o);
    assert FilledAt(u, o.index - 1, parts[o.index - 1]);
    assert o.index == o.index - 1 + 1;
  }

  /** Event `i` starts a call, event `k` is the next under its id and finishes it. Then the start
      announces the call at an index, the finish completes the same step with that output, and at the
      turn's end the ledger shows and the message stores, at that index, the call with that output. */
  lemma CallReturns(responseId: string, events: seq<Event>, i: nat, k: nat, parts: seq<ContentPart>)
      returns (stepId: string, index: nat)
    requires RunsUntil(events, i, k) && k < |events|
    requires events[k].CallFinished? && events[k].callId == events[i].call.callId
    requires IsExit(After(responseId, events), parts)
    ensures var call, output := events[i].call, events[k].detail;
            && Announces(After(responseId, events[..i + 1]).frames, call, stepId, index)
            && Completes(After(responseId, events[..k + 1]).frames, call, stepId, index, output)
            && 0 < index <= |parts| && parts[index - 1] == ToolCard(call, Finished(output))
            && ShownAt(BatchClosed(After(responseId, events)).frames, index) == Some(ToolCard(call, Finished(output)))
  {
    var o := OpenUntil(responseId, events, i, k);
    stepId, index := o.stepId, o.index;
    OneMoreEvent(responseId, events, k);
    FinishCompletes(After(responseId, events[..k]), o, events[k].detail);
    var card := ToolCard(o.call, Finished(events[k].detail));
    HeldUntil(responseId, events, k + 1, |events|, index, card);
    assert events[..|events|] == events;
    TurnMirror(responseId, events, "");
    BatchClosedMirror(After(responseId, events));
    ClosedHolds(After(responseId, events), index, card);
    ExitHolds(BatchClosed(After(responseId, events)), index, card, parts);
  }

  /** If nothing follows under its id the call is shown and stored there as interrupted. */
  lemma CallInterrupted(responseId: string, events: seq<Event>, i: nat, parts: seq<ContentPart>)
      returns (stepId: string, index: nat)
    requires RunsUntil(events, i, |events|) && IsExit(After(responseId, events), parts)
    ensures var call := events[i].call;
            && Announces(After(responseId, events[..i + 1]).frames, call, stepId, index)
            && 0 < index <= |parts| && parts[index - 1] == ToolCard(call, Interrupted)
            && ShownAt(BatchClosed(After(responseId, events)).frames, index) == Some(ToolCard(call, Interrupted))
  {
    var o := OpenUntil(responseId, events, i, |events|);
    stepId, index := o.stepId, o.index;
    assert events[..|events|] == events;
    TurnMirror(responseId, events, "");
    BatchClosedMirror(After(responseId, events));
    ExitInterrupts(BatchClosed(After(responseId, events)), o, parts);
  }
}
