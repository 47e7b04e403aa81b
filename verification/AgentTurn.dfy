/** The worker of an agent turn: it turns the loop's events into frames on the ledger and, beside
    them, builds the content parts the persisted message will carry. */
module AgentTurn {
  import opened Options
  import opened Sequences
  import opened Wire
  import opened Decimal
  import opened Steers

  /** A tool call that started and has not come back. */
  datatype Opened = Opened(stepId: string, index: nat, call: ToolCall)

  datatype Event =
    | Narration(text: string)
    | CallStarted(call: ToolCall)
    | CallFinished(callId: string, detail: string)
    | Usage(inputTokens: int, outputTokens: int, gauge: Option<int>)
    | Proving
    | Stopped(note: string)
    | Asked(actionId: string)
    | Steered(rows: seq<Steer>)
    | Other

  datatype Turn = Turn(
    responseId: string, nextIndex: nat, usageSeq: nat, open: set<Opened>, heading: string,
    ids: seq<string>, collected: seq<string>, extraParts: seq<ContentPart>, frames: seq<Frame>)

  function NewTurn(responseId: string): Turn {
    Turn(responseId, 1, 0, {}, "", [], [], [], [])
  }

  const PROVING := PhaseLabel("Proving the change")

  /** The header under which a tool's calls are grouped. */
  function ActivityLabel(tool: string): (heading: string)
    ensures heading != ""
  {
    if tool == "read_file" || tool == "list_dir" then "Reading the repository"
    else if tool == "search_text" then "Searching the repository"
    else if tool == "write_file" then "Editing in the shadow worktree"
    else if tool == "run_command" then "Running commands"
    else if tool == "prove" then "Proving the change"
    else if tool == "ask_user" then "Waiting on you"
    else "Working"
  }

  // ---- what one event does ---------------------------------------------------------------

  function Emitted(t: Turn, frame: Frame): Turn {
    t.(frames := t.frames + [frame])
  }

  /** A part takes the next index and its frame goes out. */
  function Placed(t: Turn, part: ContentPart, frame: Frame): Turn {
    t.(nextIndex := t.nextIndex + 1, extraParts := t.extraParts + [part], frames := t.frames + [frame])
  }

  function BatchClosed(t: Turn): Turn {
    if t.heading == "" then t
    else
      var part := BatchLabel(t.heading, t.ids);
      Placed(t, part, LabelShown(t.nextIndex, part)).(heading := "", ids := [])
  }

  function CallNoted(t: Turn, heading: string, callId: string): Turn {
    var u := if t.heading != "" && heading != t.heading then BatchClosed(t) else t;
    u.(heading := heading, ids := u.ids + [callId])
  }

  function Spoken(t: Turn, text: string): Turn {
    var chunk := if t.collected == [] then text else "\n\n" + text;
    Emitted(t.(collected := t.collected + [chunk]), MessageDeltaFrame(t.responseId, chunk))
  }

  function OpenWithout(open: set<Opened>, callId: string): set<Opened> {
    set o | o in open && o.call.callId != callId
  }

  function Started(t: Turn, call: ToolCall): Turn {
    var u := CallNoted(t, ActivityLabel(call.name), call.callId);
    var stepId := StepId(u.responseId, Print(u.nextIndex));
    Placed(u, ToolSlot, ToolStep(stepId, u.nextIndex, call))
      .(open := OpenWithout(u.open, call.callId) + {Opened(stepId, u.nextIndex, call)})
  }

  /** The call comes back: its card fills the slot its start reserved. */
  function Returned(t: Turn, o: Opened, detail: string): Turn {
    var card := ToolCard(o.call, Finished(detail));
    t.(open := OpenWithout(t.open, o.call.callId),
       extraParts := if 0 < o.index <= |t.extraParts| then t.extraParts[o.index - 1 := card] else t.extraParts,
       frames := t.frames + [ToolStepCompleted(o.stepId, o.index, o.call, detail)])
  }

  predicate IsOpenCall(t: Turn, callId: string) {
    exists o :: o in t.open && o.call.callId == callId
  }

  ghost function Completed(t: Turn, callId: string, detail: string): Turn {
    if IsOpenCall(t, callId) then
      var o :| o in t.open && o.call.callId == callId;
      Returned(t, o, detail)
    else t
  }

  function Reported(t: Turn, inputTokens: int, outputTokens: int): Turn {
    Emitted(t.(usageSeq := t.usageSeq + 1), TokenUsage(t.responseId, t.usageSeq + 1, inputTokens, outputTokens))
  }

  function Metered(t: Turn, inputTokens: int, outputTokens: int, gauge: Option<int>): Turn {
    var u := Reported(t, inputTokens, outputTokens);
    if gauge.Some? then Emitted(u, ContextUsage(t.responseId, gauge.value, inputTokens)) else u
  }

  function PhaseShown(t: Turn): Turn {
    var u := BatchClosed(t);
    Placed(u, PROVING, LabelShown(u.nextIndex, PROVING))
  }

  function SteerShown(t: Turn, row: Steer): Turn {
    var part := SteerChip(row.text, row.createdAt);
    Placed(t, part, SteerApplied(row.steerId, row.clientSteerId, t.nextIndex, part))
  }

  function SteersShown(t: Turn, rows: seq<Steer>): Turn {
    if rows == [] then t else SteerShown(SteersShown(t, rows[..|rows| - 1]), rows[|rows| - 1])
  }

  ghost function OnEvent(t: Turn, e: Event): Turn {
    match e
    case Narration(text) => Spoken(t, text)
    case CallStarted(call) => Started(t, call)
    case CallFinished(callId, detail) => Completed(t, callId, detail)
    case Usage(i, o, gauge) => Metered(t, i, o, gauge)
    case Proving => PhaseShown(t)
    case Stopped(note) => Spoken(t, note)
    case Asked(actionId) => Emitted(t, PendingAction(actionId))
    case Steered(rows) => SteersShown(t, rows)
    case Other => t
  }

  ghost function After(responseId: string, events: seq<Event>): Turn {
    if events == [] then NewTurn(responseId)
    else OnEvent(After(responseId, events[..|events| - 1]), events[|events| - 1])
  }

  /** The part an exit leaves in a slot: a call still open is shown as issued, with no output. */
  ghost predicate FilledAt(t: Turn, i: nat, part: ContentPart)
    requires i < |t.extraParts|
  {
    if exists o :: o in t.open && o.index == i + 1 then
      exists o :: o in t.open && o.index == i + 1 && part == ToolCard(o.call, Interrupted)
    else part == t.extraParts[i]
  }

  /** `parts` is what the exit makes of the turn's content. */
  ghost predicate IsExit(t: Turn, parts: seq<ContentPart>) {
    var u := BatchClosed(t);
    && |parts| == |u.extraParts|
    && forall i :: 0 <= i < |parts| ==> FilledAt(u, i, parts[i])
  }

  // ---- what the stream shows -------------------------------------------------------------

  /** The content slot a frame renders, and what it renders there. */
  function SlotOf(f: Frame): Option<(nat, ContentPart)> {
    match f
    case ToolStep(_, index, call) => Some((index, ToolCard(call, Interrupted)))
    case ToolStepCompleted(_, index, call, output) => Some((index, ToolCard(call, Finished(output))))
    case LabelShown(index, part) => Some((index, part))
    case SteerApplied(_, _, index, part) => Some((index, part))
    case _ => None
  }

  /** What a client that followed the frames shows at content index `i`: the last frame wins. */
  function ShownAt(frames: seq<Frame>, i: nat): Option<ContentPart> {
    if frames == [] then None
    else
      var slot := SlotOf(frames[|frames| - 1]);
      if slot.Some? && slot.value.0 == i then Some(slot.value.1) else ShownAt(frames[..|frames| - 1], i)
  }

  /** The parts in the order the frames introduced them, as they were when introduced. */
  function Introduced(frames: seq<Frame>): seq<ContentPart> {
    if frames == [] then []
    else
      var f := frames[|frames| - 1];
      Introduced(frames[..|frames| - 1])
      + (if SlotOf(f).Some? && !f.ToolStepCompleted? then [SlotOf(f).value.1] else [])
  }

  lemma ShownOne(frames: seq<Frame>, f: Frame, i: nat)
    ensures ShownAt(frames + [f], i) ==
            if SlotOf(f).Some? && SlotOf(f).value.0 == i then Some(SlotOf(f).value.1) else ShownAt(frames, i)
  {
    assert (frames + [f])[..|frames|] == frames;
  }

  lemma IntroducedOne(frames: seq<Frame>, f: Frame)
    ensures Introduced(frames + [f]) ==
            Introduced(frames) + if SlotOf(f).Some? && !f.ToolStepCompleted? then [SlotOf(f).value.1] else []
  {
    assert (frames + [f])[..|frames|] == frames;
  }

  // ---- the mirror ------------------------------------------------------------------------

  /** The same part, whatever has become of the call it shows. */
  predicate SamePart(a: ContentPart, b: ContentPart) {
    a == b || (a.ToolCard? && b.ToolCard? && a.call == b.call)
  }

  /** A slot either still holds its placeholder or holds exactly what the stream shows. */
  ghost predicate SlotOk(t: Turn, i: nat)
    requires i < |t.extraParts|
  {
    var shown := ShownAt(t.frames, i + 1);
    && shown.Some? && shown.value != ToolSlot
    && (t.extraParts[i] == ToolSlot || t.extraParts[i] == shown.value)
    && i < |Introduced(t.frames)| && SamePart(Introduced(t.frames)[i], shown.value)
  }

  ghost predicate OpenOk(t: Turn, o: Opened) {
    && 0 < o.index <= |t.extraParts| && t.extraParts[o.index - 1] == ToolSlot
    && ShownAt(t.frames, o.index) == Some(ToolCard(o.call, Interrupted))
    && o.stepId == StepId(t.responseId, Print(o.index))
  }

  ghost predicate Mirror(t: Turn) {
    && t.nextIndex == |t.extraParts| + 1
    && |Introduced(t.frames)| == |t.extraParts|
    && (forall i :: 0 <= i < |t.extraParts| ==> SlotOk(t, i))
    && (forall i: nat :: i == 0 || i > |t.extraParts| ==> ShownAt(t.frames, i) == None)
    && (forall o :: o in t.open ==> OpenOk(t, o))
    && (forall o, p :: o in t.open && p in t.open && (o.index == p.index || o.call.callId == p.call.callId) ==> o == p)
  }

  /** Every placeholder belongs to an open call. */
  ghost predicate Whole(t: Turn) {
    forall i :: 0 <= i < |t.extraParts| && t.extraParts[i] == ToolSlot ==> exists o :: o in t.open && o.index == i + 1
  }

  lemma EmittedMirror(t: Turn, f: Frame)
    requires Mirror(t) && SlotOf(f).None?
    ensures Mirror(Emitted(t, f)) && (Whole(t) <==> Whole(Emitted(t, f)))
  {
    var u := Emitted(t, f);
    forall i: nat ensures ShownAt(u.frames, i) == ShownAt(t.frames, i) {
      ShownOne(t.frames, f, i);
    }
    IntroducedOne(t.frames, f);
    assert forall i :: 0 <= i < |t.extraParts| ==> SlotOk(t, i) ==> SlotOk(u, i);
    assert forall o :: o in t.open ==> OpenOk(t, o) ==> OpenOk(u, o);
  }

  lemma PlacedMirror(t: Turn, part: ContentPart, f: Frame)
    requires Mirror(t) && SlotOf(f).Some? && !f.ToolStepCompleted? && SlotOf(f).value.0 == t.nextIndex
    requires SlotOf(f).value.1 != ToolSlot && (part == ToolSlot || part == SlotOf(f).value.1)
    ensures Mirror(Placed(t, part, f))
    ensures part != ToolSlot ==> (Whole(t) <==> Whole(Placed(t, part, f)))
  {
    var u := Placed(t, part, f);
    forall i: nat
      ensures ShownAt(u.frames, i) == if i == t.nextIndex then Some(SlotOf(f).value.1) else ShownAt(t.frames, i)
    {
      ShownOne(t.frames, f, i);
    }
    IntroducedOne(t.frames, f);
    forall i | 0 <= i < |u.extraParts| ensures SlotOk(u, i) {
      assert i < |t.extraParts| ==> SlotOk(t, i);
    }
    forall o | o in u.open ensures OpenOk(u, o) {
      assert OpenOk(t, o);
    }
    assert forall i :: 0 <= i < |t.extraParts| ==> u.extraParts[i] == t.extraParts[i];
    if part != ToolSlot && Whole(u) {
      forall i | 0 <= i < |t.extraParts| && t.extraParts[i] == ToolSlot
        ensures exists o :: o in t.open && o.index == i + 1
      {
        assert u.extraParts[i] == ToolSlot;
      }
    }
  }

  lemma BatchClosedMirror(t: Turn)
    requires Mirror(t)
    ensures Mirror(BatchClosed(t)) && (Whole(t) <==> Whole(BatchClosed(t)))
    ensures BatchClosed(t).open == t.open
  {
    if t.heading != "" {
      var part := BatchLabel(t.heading, t.ids);
      var p := Placed(t, part, LabelShown(t.nextIndex, part));
      PlacedMirror(t, part, LabelShown(t.nextIndex, part));
      Relabelled(p, "", []);
    }
  }

  /** The open batch is no part of the mirror. */
  lemma Relabelled(t: Turn, heading: string, ids: seq<string>)
    requires Mirror(t)
    ensures Mirror(t.(heading := heading, ids := ids)) && (Whole(t) <==> Whole(t.(heading := heading, ids := ids)))
  {
    var u := t.(heading := heading, ids := ids);
    assert forall i :: 0 <= i < |t.extraParts| ==> SlotOk(t, i) ==> SlotOk(u, i);
    assert forall o :: o in t.open ==> OpenOk(t, o) ==> OpenOk(u, o);
  }

  lemma StartedMirror(t: Turn, call: ToolCall)
    requires Mirror(t)
    ensures Mirror(Started(t, call))
    ensures Whole(Started(t, call)) <==> Whole(t) && !IsOpenCall(t, call.callId)
  {
    var u := CallNoted(t, ActivityLabel(call.name), call.callId);
    NotedMirror(t, ActivityLabel(call.name), call.callId);
    var stepId := StepId(u.responseId, Print(u.nextIndex));
    var frame := ToolStep(stepId, u.nextIndex, call);
    PlacedMirror(u, ToolSlot, frame);
    ShownOne(u.frames, frame, u.nextIndex);
    var o := Opened(stepId, u.nextIndex, call);
    OpenedMirror(Placed(u, ToolSlot, frame), o, u);
    OpenedWhole(u, Started(t, call), o);
  }

  lemma NotedMirror(t: Turn, heading: string, callId: string)
    requires Mirror(t)
    ensures var u := CallNoted(t, heading, callId);
            Mirror(u) && (Whole(u) <==> Whole(t)) && u.open == t.open
  {
    BatchClosedMirror(t);
    var closed := if t.heading != "" && heading != t.heading then BatchClosed(t) else t;
    Relabelled(closed, heading, closed.ids + [callId]);
  }

  /** `v` has just reserved the slot of `o` after `u`. */
  lemma OpenedMirror(v: Turn, o: Opened, u: Turn)
    requires Mirror(u) && Mirror(v) && v.open == u.open && v.extraParts == u.extraParts + [ToolSlot]
    requires OpenOk(v, o) && o.index == u.nextIndex
    ensures var w := v.(open := OpenWithout(u.open, o.call.callId) + {o});
            Mirror(w)
  {
    var w := v.(open := OpenWithout(u.open, o.call.callId) + {o});
    assert forall i :: 0 <= i < |v.extraParts| ==> SlotOk(v, i) ==> SlotOk(w, i);
    forall p | p in w.open ensures OpenOk(w, p) {
      assert OpenOk(v, p);
    }
    forall p | p in u.open ensures p.index < o.index {
      assert OpenOk(u, p);
    }
    assert forall p, q :: p in w.open && q in w.open ==>
                            (p.index == q.index || p.call.callId == q.call.callId ==> p == q);
  }

  lemma OpenedWhole(u: Turn, w: Turn, o: Opened)
    requires Mirror(u) && w.extraParts == u.extraParts + [ToolSlot] && o.index == u.nextIndex
    requires w.open == OpenWithout(u.open, o.call.callId) + {o}
    ensures Whole(w) <==> Whole(u) && !IsOpenCall(u, o.call.callId)
  {
    if IsOpenCall(u, o.call.callId) {
      var p :| p in u.open && p.call.callId == o.call.callId;
      assert OpenOk(u, p) && w.extraParts[p.index - 1] == ToolSlot;
      forall q | q in w.open ensures q.index != p.index {
        assert q != o ==> q in u.open && q != p;
      }
    } else {
      WholeGrows(u, w, o);
    }
  }

  lemma WholeGrows(u: Turn, w: Turn, o: Opened)
    requires w.extraParts == u.extraParts + [ToolSlot] && o.index == |u.extraParts| + 1
    requires w.open == OpenWithout(u.open, o.call.callId) + {o} && !IsOpenCall(u, o.call.callId)
    ensures Whole(w) <==> Whole(u)
  {
    assert OpenWithout(u.open, o.call.callId) == u.open;
    if Whole(u) {
      forall i | 0 <= i < |w.extraParts| && w.extraParts[i] == ToolSlot
        ensures exists p :: p in w.open && p.index == i + 1
      {
        if i < |u.extraParts| {
          var p :| p in u.open && p.index == i + 1;
          assert p in w.open;
        } else {
          assert o in w.open;
        }
      }
    }
    if Whole(w) {
      forall i | 0 <= i < |u.extraParts| && u.extraParts[i] == ToolSlot
        ensures exists p :: p in u.open && p.index == i + 1
      {
        assert w.extraParts[i] == ToolSlot;
        var p :| p in w.open && p.index == i + 1;
        assert p in u.open;
      }
    }
  }

  lemma ReturnedMirror(t: Turn, o: Opened, detail: string)
    requires Mirror(t) && o in t.open
    ensures Mirror(Returned(t, o, detail))
  {
    var u := Returned(t, o, detail);
    assert OpenOk(t, o);
    var f := ToolStepCompleted(o.stepId, o.index, o.call, detail);
    forall i: nat
      ensures ShownAt(u.frames, i) ==
              if i == o.index then Some(ToolCard(o.call, Finished(detail))) else ShownAt(t.frames, i)
    {
      ShownOne(t.frames, f, i);
    }
    IntroducedOne(t.frames, f);
    forall i | 0 <= i < |u.extraParts| ensures SlotOk(u, i) {
      assert SlotOk(t, i);
    }
    forall p | p in u.open ensures OpenOk(u, p) {
      assert OpenOk(t, p) && p.index != o.index;
    }
  }

  lemma ReturnedWhole(t: Turn, o: Opened, detail: string)
    requires Mirror(t) && o in t.open
    ensures Whole(t) <==> Whole(Returned(t, o, detail))
  {
    var u := Returned(t, o, detail);
    assert OpenOk(t, o);
    if Whole(t) {
      forall i | 0 <= i < |u.extraParts| && u.extraParts[i] == ToolSlot
        ensures exists p :: p in u.open && p.index == i + 1
      {
        var p :| p in t.open && p.index == i + 1;
        assert p in u.open;
      }
    }
    if Whole(u) {
      forall i | 0 <= i < |t.extraParts| && t.extraParts[i] == ToolSlot
        ensures exists p :: p in t.open && p.index == i + 1
      {
        if i != o.index - 1 {
          assert u.extraParts[i] == ToolSlot;
        }
      }
    }
  }

  lemma {:induction false} SteersMirror(t: Turn, rows: seq<Steer>)
    requires Mirror(t)
    ensures Mirror(SteersShown(t, rows)) && (Whole(t) <==> Whole(SteersShown(t, rows)))
    ensures SteersShown(t, rows).open == t.open
  {
    if rows != [] {
      var init, row := rows[..|rows| - 1], rows[|rows| - 1];
      SteersMirror(t, init);
      var u := SteersShown(t, init);
      var part := SteerChip(row.text, row.createdAt);
      PlacedMirror(u, part, SteerApplied(row.steerId, row.clientSteerId, u.nextIndex, part));
    }
  }

  /** The event restarts a call that is still open. */
  predicate Overlaps(t: Turn, e: Event) {
    e.CallStarted? && IsOpenCall(t, e.call.callId)
  }

  lemma SameSlots(t: Turn, u: Turn)
    requires Mirror(t)
    requires u == t.(collected := u.collected) || u == t.(usageSeq := u.usageSeq)
    ensures Mirror(u) && (Whole(t) <==> Whole(u))
  {
    assert forall i :: 0 <= i < |t.extraParts| ==> SlotOk(t, i) ==> SlotOk(u, i);
    assert forall o :: o in t.open ==> OpenOk(t, o) ==> OpenOk(u, o);
  }

  lemma SpokenMirror(t: Turn, text: string)
    requires Mirror(t)
    ensures Mirror(Spoken(t, text)) && (Whole(t) <==> Whole(Spoken(t, text)))
  {
    var chunk := if t.collected == [] then text else "\n\n" + text;
    var u := t.(collected := t.collected + [chunk]);
    SameSlots(t, u);
    EmittedMirror(u, MessageDeltaFrame(t.responseId, chunk));
  }

  lemma MeteredMirror(t: Turn, i: int, o: int, gauge: Option<int>)
    requires Mirror(t)
    ensures Mirror(Metered(t, i, o, gauge)) && (Whole(t) <==> Whole(Metered(t, i, o, gauge)))
  {
    var counted, f := t.(usageSeq := t.usageSeq + 1), TokenUsage(t.responseId, t.usageSeq + 1, i, o);
    var u := Emitted(counted, f);
    SameSlots(t, counted);
    EmittedMirror(counted, f);
    if gauge.None? {
      assert Metered(t, i, o, gauge) == u;
    } else {
      var g := ContextUsage(t.responseId, gauge.value, i);
      assert Metered(t, i, o, gauge) == Emitted(u, g);
      EmittedMirror(u, g);
    }
  }

  lemma PhaseMirror(t: Turn)
    requires Mirror(t)
    ensures Mirror(PhaseShown(t)) && (Whole(t) <==> Whole(PhaseShown(t))) && PhaseShown(t).open == t.open
  {
    BatchClosedMirror(t);
    PlacedMirror(BatchClosed(t), PROVING, LabelShown(BatchClosed(t).nextIndex, PROVING));
  }

  lemma EventMirror(t: Turn, e: Event)
    requires Mirror(t)
    ensures Mirror(OnEvent(t, e))
    ensures Whole(OnEvent(t, e)) <==> Whole(t) && !Overlaps(t, e)
  {
    match e
    case Narration(text) => SpokenMirror(t, text);
    case CallStarted(call) => StartedMirror(t, call);
    case CallFinished(callId, detail) =>
      if IsOpenCall(t, callId) {
        var o :| o in t.open && o.call.callId == callId && Completed(t, callId, detail) == Returned(t, o, detail);
        ReturnedMirror(t, o, detail);
        ReturnedWhole(t, o, detail);
      }
    case Usage(i, o, gauge) => MeteredMirror(t, i, o, gauge);
    case Proving => PhaseMirror(t);
    case Stopped(note) => SpokenMirror(t, note);
    case Asked(actionId) => EmittedMirror(t, PendingAction(actionId));
    case Steered(rows) => SteersMirror(t, rows);
    case Other =>
  }

  // ---- persisted equals streamed ---------------------------------------------------------

  /** A call id is open in an event history when its last start has no later finish. */
  predicate OpenIn(events: seq<Event>, callId: string) {
    && events != []
    && var last := events[|events| - 1];
       if last.CallStarted? && last.call.callId == callId then true
       else if last.CallFinished? && last.callId == callId then false
       else OpenIn(events[..|events| - 1], callId)
  }

  /** No call is started under an id that is still open. */
  predicate NoRestart(events: seq<Event>) {
    events == [] ||
    var init, last := events[..|events| - 1], events[|events| - 1];
    NoRestart(init) && (last.CallStarted? ==> !OpenIn(init, last.call.callId))
  }

  lemma EventOpens(t: Turn, e: Event, callId: string)
    requires Mirror(t)
    ensures IsOpenCall(OnEvent(t, e), callId) <==>
              if e.CallStarted? && e.call.callId == callId then true
              else if e.CallFinished? && e.callId == callId then false
              else IsOpenCall(t, callId)
  {
    var u := OnEvent(t, e);
    match e
    case CallStarted(call) =>
      assert CallNoted(t, ActivityLabel(call.name), call.callId).open == t.open;
      var o :| o in u.open && o.call == call;
      if callId != call.callId && IsOpenCall(t, callId) {
        var p :| p in t.open && p.call.callId == callId;
        assert p in u.open;
      }
    case CallFinished(id, detail) =>
      if IsOpenCall(t, id) {
        var o :| o in t.open && o.call.callId == id && Completed(t, id, detail) == Returned(t, o, detail);
        assert u.open == OpenWithout(t.open, id);
        if callId != id && IsOpenCall(t, callId) {
          var p :| p in t.open && p.call.callId == callId;
          assert p in u.open;
        }
      }
    case Steered(rows) => SteersMirror(t, rows);
    case Proving => PhaseMirror(t);
    case _ =>
  }

  lemma {:induction false} TurnMirror(responseId: string, events: seq<Event>, callId: string)
    ensures Mirror(After(responseId, events))
    ensures Whole(After(responseId, events)) <==> NoRestart(events)
    ensures IsOpenCall(After(responseId, events), callId) <==> OpenIn(events, callId)
  {
    if events != [] {
      var init, last := events[..|events| - 1], events[|events| - 1];
      TurnMirror(responseId, init, callId);
      if last.CallStarted? {
        TurnMirror(responseId, init, last.call.callId);
      }
      EventMirror(After(responseId, init), last);
      EventOpens(After(responseId, init), last, callId);
    }
  }

  /** The content parts a turn persists are, index by index, what its stream showed, exactly when no
      call was restarted while open; a restarted one leaves a placeholder where the stream shows a
      card. At any moment before, the next index is one past the parts. */
  lemma PersistedEqualsStreamed(responseId: string, events: seq<Event>, parts: seq<ContentPart>)
    requires IsExit(After(responseId, events), parts)
    ensures var t := After(responseId, events);
            var u := BatchClosed(t);
            && t.nextIndex == |t.extraParts| + 1 && u.nextIndex == |parts| + 1
            && (NoRestart(events) <==> forall i :: 0 <= i < |parts| ==> ShownAt(u.frames, i + 1) == Some(parts[i]))
            && (NoRestart(events) <==> ToolSlot !in parts)
            && forall i: nat :: i == 0 || i > |parts| ==> ShownAt(u.frames, i) == None
  {
    TurnMirror(responseId, events, "");
    BatchClosedMirror(After(responseId, events));
    ExitShows(BatchClosed(After(responseId, events)), parts);
  }

  lemma ExitSlot(u: Turn, i: nat, part: ContentPart)
    requires Mirror(u) && i < |u.extraParts| && FilledAt(u, i, part)
    ensures part == ToolSlot || ShownAt(u.frames, i + 1) == Some(part)
    ensures ShownAt(u.frames, i + 1) != Some(ToolSlot)
    ensures part == ToolSlot <==> u.extraParts[i] == ToolSlot && !exists o :: o in u.open && o.index == i + 1
  {
    assert SlotOk(u, i);
    if o :| o in u.open && o.index == i + 1 {
      assert OpenOk(u, o);
    }
  }

  lemma ExitShows(u: Turn, parts: seq<ContentPart>)
    requires Mirror(u) && |parts| == |u.extraParts| && forall i :: 0 <= i < |parts| ==> FilledAt(u, i, parts[i])
    ensures Whole(u) <==> ToolSlot !in parts
    ensures Whole(u) <==> forall i :: 0 <= i < |parts| ==> ShownAt(u.frames, i + 1) == Some(parts[i])
  {
    forall i | 0 <= i < |parts|
      ensures parts[i] == ToolSlot || ShownAt(u.frames, i + 1) == Some(parts[i])
      ensures ShownAt(u.frames, i + 1) != Some(ToolSlot)
      ensures parts[i] == ToolSlot <==> u.extraParts[i] == ToolSlot && !exists o :: o in u.open && o.index == i + 1
    {
      ExitSlot(u, i, parts[i]);
    }
    if !Whole(u) {
      var i :| 0 <= i < |u.extraParts| && u.extraParts[i] == ToolSlot && !exists o :: o in u.open && o.index == i + 1;
      assert parts[i] == ToolSlot;
    }
  }

  // ---- a loop that brackets its calls ----------------------------------------------------

  /** Between any two starts the first one's finish: how the loop dispatches its calls. */
  ghost predicate Bracketed(events: seq<Event>) {
    forall i, j :: 0 <= i < j < |events| && events[i].CallStarted? && events[j].CallStarted? ==>
      FinishedBetween(events, i, j, events[i].call.callId)
  }

  predicate FinishedBetween(events: seq<Event>, i: nat, j: nat, callId: string)
    requires j <= |events|
  {
    exists k :: i < k < j && events[k].CallFinished? && events[k].callId == callId
  }

  /** An open call was started and has no later finish. */
  lemma {:induction false} OpenSince(events: seq<Event>, callId: string) returns (i: nat)
    requires OpenIn(events, callId)
    ensures i < |events| && events[i].CallStarted? && events[i].call.callId == callId
    ensures !FinishedBetween(events, i, |events|, callId)
  {
    var n := |events| - 1;
    if events[n].CallStarted? && events[n].call.callId == callId {
      i := n;
    } else {
      i := OpenSince(events[..n], callId);
      assert forall k :: 0 <= k < n ==> events[..n][k] == events[k];
    }
  }

  lemma {:induction false} BracketedNeverRestarts(events: seq<Event>)
    requires Bracketed(events)
    ensures NoRestart(events)
  {
    if events != [] {
      var n := |events| - 1;
      var init, last := events[..n], events[n];
      assert forall k :: 0 <= k < n ==> init[k] == events[k];
      forall i, j | 0 <= i < j < n && init[i].CallStarted? && init[j].CallStarted?
        ensures FinishedBetween(init, i, j, init[i].call.callId)
      {
        var k :| i < k < j && events[k].CallFinished? && events[k].callId == events[i].call.callId;
        assert init[k] == events[k];
      }
      BracketedNeverRestarts(init);
      if last.CallStarted? && OpenIn(init, last.call.callId) {
        var i := OpenSince(init, last.call.callId);
        assert false;
      }
    }
  }

  /** So the persisted parts of any turn of that loop are, index by index, what its stream showed. */
  lemma BracketedTurnMirrors(responseId: string, events: seq<Event>, parts: seq<ContentPart>)
    requires Bracketed(events) && IsExit(After(responseId, events), parts)
    ensures ToolSlot !in parts
    ensures var frames := BatchClosed(After(responseId, events)).frames;
            && (forall i :: 0 <= i < |parts| ==> ShownAt(frames, i + 1) == Some(parts[i]))
            && (forall i: nat :: i == 0 || i > |parts| ==> ShownAt(frames, i) == None)
  {
    BracketedNeverRestarts(events);
    PersistedEqualsStreamed(responseId, events, parts);
  }

  // ---- the text --------------------------------------------------------------------------

  function UsageNumbers(frames: seq<Frame>): seq<nat> {
    if frames == [] then []
    else
      var f := frames[|frames| - 1];
      UsageNumbers(frames[..|frames| - 1]) + if f.TokenUsage? then [f.seqNo] else []
  }

  /** The streamed text is the collected text, the usage reports are numbered 1, 2, 3 and on, and
      every frame is one a running worker may append. */
  ghost predicate Told(t: Turn) {
    && LedgerText(t.frames) == Joined(t.collected)
    && UsageNumbers(t.frames) == seq(t.usageSeq, i => i + 1)
    && WorkerFrames(t.responseId, t.frames)
  }

  lemma OneMore(t: Turn, u: Turn, f: Frame)
    requires Told(t) && u.frames == t.frames + [f] && !f.Final? && !f.Delta?
    requires u.collected == t.collected && u.responseId == t.responseId
    requires u.usageSeq == if f.TokenUsage? then t.usageSeq + 1 else t.usageSeq
    requires f.TokenUsage? ==> f.seqNo == t.usageSeq + 1
    ensures Told(u)
  {
    LedgerTextOne(t.frames, f);
    assert LedgerText(t.frames) + "" == LedgerText(t.frames);
    assert u.frames[..|t.frames|] == t.frames;
  }

  lemma SpokenTold(t: Turn, text: string)
    requires Told(t)
    ensures Told(Spoken(t, text))
  {
    var chunk := if t.collected == [] then text else "\n\n" + text;
    var f, u := MessageDeltaFrame(t.responseId, chunk), Spoken(t, text);
    LedgerTextOne(t.frames, f);
    assert u.frames[..|t.frames|] == t.frames && u.collected[..|t.collected|] == t.collected;
    assert JoinText([TextDelta(chunk)]) == chunk + JoinText([]) == chunk;
  }

  lemma BatchClosedTold(t: Turn)
    requires Told(t)
    ensures Told(BatchClosed(t)) && BatchClosed(t).collected == t.collected
  {
    if t.heading != "" {
      OneMore(t, BatchClosed(t), LabelShown(t.nextIndex, BatchLabel(t.heading, t.ids)));
    }
  }

  lemma {:induction false} SteersTold(t: Turn, rows: seq<Steer>)
    requires Told(t)
    ensures Told(SteersShown(t, rows))
  {
    if rows != [] {
      var init, row := rows[..|rows| - 1], rows[|rows| - 1];
      SteersTold(t, init);
      var u := SteersShown(t, init);
      var chip := SteerChip(row.text, row.createdAt);
      OneMore(u, SteerShown(u, row), SteerApplied(row.steerId, row.clientSteerId, u.nextIndex, chip));
    }
  }

  lemma EventTold(t: Turn, e: Event)
    requires Told(t)
    ensures Told(OnEvent(t, e))
  {
    var v := OnEvent(t, e);
    match e
    case Narration(text) => SpokenTold(t, text);
    case Stopped(note) => SpokenTold(t, note);
    case CallStarted(call) =>
      BatchClosedTold(t);
      var u := CallNoted(t, ActivityLabel(call.name), call.callId);
      OneMore(u, v, v.frames[|v.frames| - 1]);
    case CallFinished(callId, detail) =>
      if IsOpenCall(t, callId) {
        OneMore(t, v, v.frames[|v.frames| - 1]);
      }
    case Usage(i, o, gauge) =>
      var f := TokenUsage(t.responseId, t.usageSeq + 1, i, o);
      var u := Emitted(t.(usageSeq := t.usageSeq + 1), f);
      OneMore(t, u, f);
      if gauge.Some? {
        OneMore(u, v, ContextUsage(t.responseId, gauge.value, i));
      }
    case Proving =>
      BatchClosedTold(t);
      OneMore(BatchClosed(t), v, LabelShown(BatchClosed(t).nextIndex, PROVING));
    case Asked(actionId) => OneMore(t, v, PendingAction(actionId));
    case Steered(rows) => SteersTold(t, rows);
    case Other =>
  }

  /** The text a turn persists is the text it streamed, and its usage reports carry distinct,
      gapless numbers. */
  lemma {:induction false} TextEqualsStreamed(responseId: string, events: seq<Event>)
    ensures Told(After(responseId, events)) && Told(BatchClosed(After(responseId, events)))
    ensures Joined(After(responseId, events).collected) == LedgerText(BatchClosed(After(responseId, events)).frames)
  {
    if events != [] {
      TextEqualsStreamed(responseId, events[..|events| - 1]);
      EventTold(After(responseId, events[..|events| - 1]), events[|events| - 1]);
    }
    BatchClosedTold(After(responseId, events));
  }

  // ---- narration and steers --------------------------------------------------------------

  /** What the loop said, in order. */
  function Sayings(events: seq<Event>): seq<string> {
    if events == [] then []
    else
      var last := events[|events| - 1];
      Sayings(events[..|events| - 1])
      + (match last case Narration(text) => [text] case Stopped(note) => [note] case _ => [])
  }

  /** Pieces of text with a blank line between each two. */
  function Paragraphs(texts: seq<string>): string {
    if texts == [] then ""
    else if |texts| == 1 then texts[0]
    else Paragraphs(texts[..|texts| - 1]) + "\n\n" + texts[|texts| - 1]
  }

  lemma CollectedOf(t: Turn, e: Event)
    ensures OnEvent(t, e).collected ==
            if e.Narration? then Spoken(t, e.text).collected
            else if e.Stopped? then Spoken(t, e.note).collected
            else t.collected
  {
    if e.Steered? {
      SteersCollect(t, e.rows);
    }
  }

  lemma {:induction false} SteersCollect(t: Turn, rows: seq<Steer>)
    ensures SteersShown(t, rows).collected == t.collected
  {
    if rows != [] {
      SteersCollect(t, rows[..|rows| - 1]);
    }
  }

  /** The persisted text is what the loop said, a blank line between each two pieces: the notes of a
      loop that stopped early included. */
  lemma {:induction false} TextIsNarration(responseId: string, events: seq<Event>)
    ensures |After(responseId, events).collected| == |Sayings(events)|
    ensures Joined(After(responseId, events).collected) == Paragraphs(Sayings(events))
  {
    if events != [] {
      var init, last := events[..|events| - 1], events[|events| - 1];
      TextIsNarration(responseId, init);
      CollectedOf(After(responseId, init), last);
      if last.Narration? {
        OneMoreSaying(After(responseId, init), Sayings(init), last.text);
      } else if last.Stopped? {
        OneMoreSaying(After(responseId, init), Sayings(init), last.note);
      } else {
        assert Sayings(init) + [] == Sayings(init);
      }
    }
  }

  lemma OneMoreSaying(t: Turn, said: seq<string>, text: string)
    requires |t.collected| == |said| && Joined(t.collected) == Paragraphs(said)
    ensures Joined(Spoken(t, text).collected) == Paragraphs(said + [text])
  {
    OneMoreParagraph(said, text);
    if said == [] {
      JoinedOne(t.collected, text);
    } else {
      JoinedOne(t.collected, "\n\n" + text);
      ConcatAssoc(Paragraphs(said), "\n\n", text);
    }
  }

  lemma OneMoreParagraph(said: seq<string>, text: string)
    ensures Paragraphs(said + [text]) ==
            if said == [] then Paragraphs(said) + text else Paragraphs(said) + "\n\n" + text
  {
    var all := said + [text];
    assert all[..|said|] == said && all[|said|] == text;
  }

  /** A drain publishes one applied frame for each drained steer, in queue order, at consecutive
      indices. */
  lemma {:induction false} SteersPublished(t: Turn, rows: seq<Steer>)
    ensures var u := SteersShown(t, rows);
            && |u.frames| == |t.frames| + |rows| && u.frames[..|t.frames|] == t.frames
            && u.nextIndex == t.nextIndex + |rows|
            && forall i :: 0 <= i < |rows| ==>
                 u.frames[|t.frames| + i] == SteerApplied(rows[i].steerId, rows[i].clientSteerId, t.nextIndex + i,
                                                          SteerChip(rows[i].text, rows[i].createdAt))
  {
    if rows != [] {
      var init := rows[..|rows| - 1];
      SteersPublished(t, init);
      var w, u := SteersShown(t, init), SteersShown(t, rows);
      assert u.frames[..|w.frames|] == w.frames;
      assert u.frames[..|t.frames|] == w.frames[..|t.frames|];
      forall i | 0 <= i < |init| ensures u.frames[|t.frames| + i] == w.frames[|t.frames| + i] && rows[i] == init[i] {
      }
    }
  }
}
