/** The headers of an agent turn: each started call is claimed by one header, which comes after it
    and before any call of another kind. */
module ActivityLabels {
  import opened Options
  import opened Sequences
  import opened Wire
  import opened AgentTurn

  /** The calls after the last header, as a reader walking the parts in index order meets them. */
  function Unclaimed(parts: seq<ContentPart>): seq<ToolCall> {
    if parts == [] then []
    else
      var last := parts[|parts| - 1];
      if last.BatchLabel? then []
      else Unclaimed(parts[..|parts| - 1]) + if last.ToolCard? then [last.call] else []
  }

  function Ids(calls: seq<ToolCall>): (ids: seq<string>)
    ensures |ids| == |calls| && forall i :: 0 <= i < |ids| ==> ids[i] == calls[i].callId
  {
    if calls == [] then [] else Ids(calls[..|calls| - 1]) + [calls[|calls| - 1].callId]
  }

  predicate AllUnder(calls: seq<ToolCall>, title: string) {
    forall i :: 0 <= i < |calls| ==> ActivityLabel(calls[i].name) == title
  }

  /** Each header claims exactly the calls between it and the header before, in their order; there
      is at least one, and all are of its kind. No call waits for its header across a proving phase. */
  predicate Fits(parts: seq<ContentPart>) {
    parts == [] ||
    var init, last := parts[..|parts| - 1], parts[|parts| - 1];
    Fits(init) && MayFollow(init, last)
  }

  predicate MayFollow(parts: seq<ContentPart>, part: ContentPart) {
    && (part.BatchLabel? ==>
          Unclaimed(parts) != [] && part.callIds == Ids(Unclaimed(parts)) && AllUnder(Unclaimed(parts), part.title))
    && (part.PhaseLabel? ==> Unclaimed(parts) == [])
  }

  lemma FitsOne(parts: seq<ContentPart>, part: ContentPart)
    ensures Unclaimed(parts + [part]) ==
            if part.BatchLabel? then [] else Unclaimed(parts) + if part.ToolCard? then [part.call] else []
    ensures Fits(parts + [part]) <==> Fits(parts) && MayFollow(parts, part)
  {
    assert (parts + [part])[..|parts|] == parts;
  }

  /** The open batch is exactly what no header has claimed yet, all of one kind. */
  ghost predicate Grouped(t: Turn) {
    var parts := Introduced(t.frames);
    && Fits(parts) && t.ids == Ids(Unclaimed(parts)) && AllUnder(Unclaimed(parts), t.heading)
    && (t.heading == "" <==> t.ids == [])
  }

  lemma SamePartsGrouped(t: Turn, u: Turn)
    requires Grouped(t) && Introduced(u.frames) == Introduced(t.frames) && u.heading == t.heading && u.ids == t.ids
    ensures Grouped(u)
  {
  }

  lemma PartBesideGrouped(t: Turn, u: Turn, part: ContentPart)
    requires Grouped(t) && Introduced(u.frames) == Introduced(t.frames) + [part]
    requires u.heading == t.heading && u.ids == t.ids && !part.ToolCard? && !part.BatchLabel?
    requires part.PhaseLabel? ==> Unclaimed(Introduced(t.frames)) == []
    ensures Grouped(u) && StartedIds(Introduced(u.frames)) == StartedIds(Introduced(t.frames))
  {
    var parts := Introduced(t.frames);
    FitsOne(parts, part);
    StartedOne(parts, part);
    assert Unclaimed(parts) + [] == Unclaimed(parts) && StartedIds(parts) + [] == StartedIds(parts);
  }

  lemma Unmoved(t: Turn, u: Turn, f: Frame)
    requires Grouped(t) && u.frames == t.frames + [f] && u.heading == t.heading && u.ids == t.ids
    requires SlotOf(f).None? || f.ToolStepCompleted? || !(SlotOf(f).value.1.ToolCard? || SlotOf(f).value.1.BatchLabel?)
    requires SlotOf(f).Some? && SlotOf(f).value.1.PhaseLabel? ==> Unclaimed(Introduced(t.frames)) == []
    ensures Grouped(u) && StartedIds(Introduced(u.frames)) == StartedIds(Introduced(t.frames))
  {
    IntroducedOne(t.frames, f);
    if SlotOf(f).None? || f.ToolStepCompleted? {
      assert Introduced(t.frames) + [] == Introduced(t.frames);
      SamePartsGrouped(t, u);
    } else {
      PartBesideGrouped(t, u, SlotOf(f).value.1);
    }
  }

  lemma ClosedGrouped(t: Turn)
    requires Grouped(t)
    ensures Grouped(BatchClosed(t)) && BatchClosed(t).heading == "" && BatchClosed(t).ids == []
    ensures Unclaimed(Introduced(BatchClosed(t).frames)) == []
    ensures StartedIds(Introduced(BatchClosed(t).frames)) == StartedIds(Introduced(t.frames))
  {
    var parts := Introduced(t.frames);
    if t.heading == "" {
      assert |Ids(Unclaimed(parts))| == 0;
    } else {
      var part := BatchLabel(t.heading, t.ids);
      IntroducedOne(t.frames, LabelShown(t.nextIndex, part));
      FitsOne(parts, part);
      StartedOne(parts, part);
    }
  }

  lemma StartedGrouped(t: Turn, call: ToolCall)
    requires Grouped(t)
    ensures Grouped(Started(t, call))
    ensures StartedIds(Introduced(Started(t, call).frames)) == StartedIds(Introduced(t.frames)) + [call.callId]
  {
    ClosedGrouped(t);
    var kind := ActivityLabel(call.name);
    var closed := if t.heading != "" && kind != t.heading then BatchClosed(t) else t;
    var stepId := StepId(closed.responseId, Decimal.Print(closed.nextIndex));
    CallShown(closed, Started(t, call), ToolStep(stepId, closed.nextIndex, call));
  }

  lemma CallShown(t: Turn, u: Turn, f: Frame)
    requires Grouped(t) && f.ToolStep? && t.heading in {"", ActivityLabel(f.call.name)}
    requires u.frames == t.frames + [f] && u.heading == ActivityLabel(f.call.name) && u.ids == t.ids + [f.call.callId]
    ensures Grouped(u)
    ensures StartedIds(Introduced(u.frames)) == StartedIds(Introduced(t.frames)) + [f.call.callId]
  {
    IntroducedOne(t.frames, f);
    var parts, calls := Introduced(t.frames), Unclaimed(Introduced(t.frames));
    FitsOne(parts, ToolCard(f.call, Interrupted));
    StartedOne(parts, ToolCard(f.call, Interrupted));
    assert t.heading == "" ==> |calls| == |t.ids| == 0;
    OneMoreCall(calls, f.call);
  }

  lemma OneMoreCall(calls: seq<ToolCall>, call: ToolCall)
    ensures Ids(calls + [call]) == Ids(calls) + [call.callId]
    ensures AllUnder(calls + [call], ActivityLabel(call.name)) <==> AllUnder(calls, ActivityLabel(call.name))
  {
    var more := calls + [call];
    assert more[..|calls|] == calls && more[|calls|] == call;
    assert forall i :: 0 <= i < |calls| ==> more[i] == calls[i];
  }

  lemma {:induction false} SteersGrouped(t: Turn, rows: seq<Steers.Steer>)
    requires Grouped(t)
    ensures Grouped(SteersShown(t, rows))
    ensures StartedIds(Introduced(SteersShown(t, rows).frames)) == StartedIds(Introduced(t.frames))
  {
    if rows != [] {
      var init, row := rows[..|rows| - 1], rows[|rows| - 1];
      SteersGrouped(t, init);
      var u := SteersShown(t, init);
      var chip := SteerChip(row.text, row.createdAt);
      Unmoved(u, SteerShown(u, row), SteerApplied(row.steerId, row.clientSteerId, u.nextIndex, chip));
    }
  }

  lemma SpokenGrouped(t: Turn, text: string)
    requires Grouped(t)
    ensures Grouped(Spoken(t, text)) && StartedIds(Introduced(Spoken(t, text).frames)) ==
              StartedIds(Introduced(t.frames))
  {
    Unmoved(t, Spoken(t, text), MessageDeltaFrame(t.responseId, if t.collected == [] then text else "\n\n" + text));
  }

  lemma MeteredGrouped(t: Turn, i: int, o: int, gauge: Option<int>)
    requires Grouped(t)
    ensures Grouped(Metered(t, i, o, gauge))
    ensures StartedIds(Introduced(Metered(t, i, o, gauge).frames)) == StartedIds(Introduced(t.frames))
  {
    ReportedGrouped(t, i, o);
    if gauge.Some? {
      GaugeGrouped(Reported(t, i, o), Metered(t, i, o, gauge), ContextUsage(t.responseId, gauge.value, i));
    }
  }

  lemma GaugeGrouped(t: Turn, u: Turn, f: Frame)
    requires Grouped(t) && u == Emitted(t, f) && f.ContextUsage?
    ensures Grouped(u) && StartedIds(Introduced(u.frames)) == StartedIds(Introduced(t.frames))
  {
    Unmoved(t, u, f);
  }

  lemma ReportedGrouped(t: Turn, i: int, o: int)
    requires Grouped(t)
    ensures Grouped(Reported(t, i, o))
    ensures StartedIds(Introduced(Reported(t, i, o).frames)) == StartedIds(Introduced(t.frames))
  {
    Unmoved(t, Reported(t, i, o), TokenUsage(t.responseId, t.usageSeq + 1, i, o));
  }

  lemma EmittedGrouped(t: Turn, f: Frame)
    requires Grouped(t) && SlotOf(f).None?
    ensures Grouped(Emitted(t, f)) && StartedIds(Introduced(Emitted(t, f).frames)) == StartedIds(Introduced(t.frames))
  {
    Unmoved(t, Emitted(t, f), f);
  }

  lemma PhaseGrouped(t: Turn)
    requires Grouped(t)
    ensures Grouped(PhaseShown(t)) && StartedIds(Introduced(PhaseShown(t).frames)) == StartedIds(Introduced(t.frames))
  {
    ClosedGrouped(t);
    Unmoved(BatchClosed(t), PhaseShown(t), LabelShown(BatchClosed(t).nextIndex, PROVING));
  }

  lemma EventGrouped(t: Turn, e: Event)
    requires Grouped(t)
    ensures Grouped(OnEvent(t, e))
    ensures StartedIds(Introduced(OnEvent(t, e).frames)) ==
            if e.CallStarted? then StartedIds(Introduced(t.frames)) + [e.call.callId]
            else StartedIds(Introduced(t.frames))
  {
    match e
    case CallStarted(call) => StartedGrouped(t, call);
    case CallFinished(callId, detail) =>
      if IsOpenCall(t, callId) {
        var o :| o in t.open && o.call.callId == callId && Completed(t, callId, detail) == Returned(t, o, detail);
        Unmoved(t, Returned(t, o, detail), ToolStepCompleted(o.stepId, o.index, o.call, detail));
      }
    case Usage(i, o, gauge) => MeteredGrouped(t, i, o, gauge);
    case Proving => PhaseGrouped(t);
    case Steered(rows) => SteersGrouped(t, rows);
    case Narration(text) => SpokenGrouped(t, text);
    case Stopped(note) => SpokenGrouped(t, note);
    case Asked(actionId) => Unmoved(t, Emitted(t, PendingAction(actionId)), PendingAction(actionId));
    case Other =>
  }

  // ---- the kinds -------------------------------------------------------------------------

  const KNOWN_TOOLS: set<string> :=
    {"read_file", "list_dir", "search_text", "write_file", "run_command", "prove", "ask_user"}

  /** Tools share a header if and only if they are the same, both look at the repository's files, or are
      both unknown. */
  lemma SameHeaderExactly(a: string, b: string)
    ensures ActivityLabel(a) == ActivityLabel(b) <==>
              || a == b || (a !in KNOWN_TOOLS && b !in KNOWN_TOOLS)
              || (a in {"read_file", "list_dir"} && b in {"read_file", "list_dir"})
  {
    assert "Reading the repository"[1] == 'e' && "Running commands"[1] == 'u';
    assert "Working"[1] == 'o' && "Waiting on you"[1] == 'a';
    assert "Searching the repository"[0] == 'S' && "Editing in the shadow worktree"[0] == 'E';
    assert "Proving the change"[0] == 'P';
  }

  // ---- the partition ---------------------------------------------------------------------

  /** The call ids of all headers, joined. */
  function LabelledIds(parts: seq<ContentPart>): seq<string> {
    if parts == [] then []
    else
      var last := parts[|parts| - 1];
      LabelledIds(parts[..|parts| - 1]) + if last.BatchLabel? then last.callIds else []
  }

  /** The ids of all calls shown, in index order. */
  function StartedIds(parts: seq<ContentPart>): seq<string> {
    if parts == [] then []
    else
      var last := parts[|parts| - 1];
      StartedIds(parts[..|parts| - 1]) + if last.ToolCard? then [last.call.callId] else []
  }

  /** The ids of the calls a history of events starts. */
  function CallsOf(events: seq<Event>): seq<string> {
    if events == [] then []
    else
      var last := events[|events| - 1];
      CallsOf(events[..|events| - 1]) + if last.CallStarted? then [last.call.callId] else []
  }

  lemma StartedOne(parts: seq<ContentPart>, part: ContentPart)
    ensures StartedIds(parts + [part]) == StartedIds(parts) + if part.ToolCard? then [part.call.callId] else []
  {
    assert (parts + [part])[..|parts|] == parts;
  }

  /** Headers claim each started call once, in start order. */
  lemma {:induction false} HeadersPartition(parts: seq<ContentPart>)
    requires Fits(parts)
    ensures LabelledIds(parts) + Ids(Unclaimed(parts)) == StartedIds(parts)
  {
    if parts != [] {
      var init, last := parts[..|parts| - 1], parts[|parts| - 1];
      HeadersPartition(init);
      assert parts == init + [last];
      StartedOne(init, last);
      FitsOne(init, last);
      if last.ToolCard? {
        assert Ids(Unclaimed(init) + [last.call]) == Ids(Unclaimed(init)) + [last.call.callId];
        ConcatAssoc(LabelledIds(init), Ids(Unclaimed(init)), [last.call.callId]);
      }
    }
  }

  /** Part `j` is the header of the call in part `i`: the next header after it, of its kind, naming
      it, and with no call of another kind between. */
  ghost predicate Heads(parts: seq<ContentPart>, i: nat, j: nat) {
    && i < j < |parts| && parts[i].ToolCard? && parts[j].BatchLabel?
    && parts[j].title == ActivityLabel(parts[i].call.name) && parts[i].call.callId in parts[j].callIds
    && forall k :: i < k < j ==>
         !parts[k].BatchLabel? && (parts[k].ToolCard? ==> ActivityLabel(parts[k].call.name) == parts[j].title)
  }

  ghost predicate Waiting(parts: seq<ContentPart>, i: nat) {
    && i < |parts|
    && (forall k :: i < k < |parts| ==> !parts[k].BatchLabel?)
    && (forall k :: i <= k < |parts| && parts[k].ToolCard? ==> parts[k].call in Unclaimed(parts))
  }

  lemma {:induction false} HeadedOrWaiting(parts: seq<ContentPart>, i: nat)
    requires Fits(parts) && i < |parts| && parts[i].ToolCard?
    ensures Waiting(parts, i) || exists j :: Heads(parts, i, j)
  {
    var init, last := parts[..|parts| - 1], parts[|parts| - 1];
    if i < |init| {
      HeadedOrWaiting(init, i);
      if j :| Heads(init, i, j) {
        HeadsStay(parts, i, j);
      } else if last.BatchLabel? {
        HeaderComes(parts, i);
      } else {
        WaitsOn(parts, i);
      }
    }
  }

  lemma HeadsStay(parts: seq<ContentPart>, i: nat, j: nat)
    requires parts != [] && Heads(parts[..|parts| - 1], i, j)
    ensures Heads(parts, i, j)
  {
    var init := parts[..|parts| - 1];
    assert forall k :: 0 <= k < |init| ==> parts[k] == init[k];
  }

  /** A header arrives: it is the header of every call that waited. */
  lemma HeaderComes(parts: seq<ContentPart>, i: nat)
    requires Fits(parts) && parts != [] && parts[|parts| - 1].BatchLabel?
    requires i < |parts| - 1 && parts[i].ToolCard? && Waiting(parts[..|parts| - 1], i)
    ensures Heads(parts, i, |parts| - 1)
  {
    var init, last := parts[..|parts| - 1], parts[|parts| - 1];
    forall k | i <= k < |init| && init[k].ToolCard?
      ensures ActivityLabel(init[k].call.name) == last.title && init[k].call.callId in last.callIds
    {
      var p :| 0 <= p < |Unclaimed(init)| && Unclaimed(init)[p] == init[k].call;
      assert last.callIds[p] == init[k].call.callId;
    }
    assert forall k :: i <= k < |init| ==> parts[k] == init[k];
  }

  lemma WaitsOn(parts: seq<ContentPart>, i: nat)
    requires parts != [] && !parts[|parts| - 1].BatchLabel? && i < |parts| - 1 && Waiting(parts[..|parts| - 1], i)
    ensures Waiting(parts, i)
  {
    var init := parts[..|parts| - 1];
    forall k | i <= k < |parts| && parts[k].ToolCard? ensures parts[k].call in Unclaimed(parts) {
      if k < |init| {
        assert parts[k] == init[k];
      }
    }
    assert forall k :: i < k < |init| ==> parts[k] == init[k];
  }

  lemma {:induction false} SameGroups(a: seq<ContentPart>, b: seq<ContentPart>)
    requires |a| == |b| && forall i :: 0 <= i < |a| ==> SamePart(a[i], b[i])
    ensures Unclaimed(a) == Unclaimed(b) && (Fits(a) <==> Fits(b)) && StartedIds(a) == StartedIds(b)
  {
    if a != [] {
      assert SamePart(a[|a| - 1], b[|b| - 1]);
      SameGroups(a[..|a| - 1], b[..|b| - 1]);
    }
  }

  lemma {:induction false} TurnGrouped(responseId: string, events: seq<Event>)
    ensures Grouped(After(responseId, events))
    ensures StartedIds(Introduced(After(responseId, events).frames)) == CallsOf(events)
  {
    if events != [] {
      TurnGrouped(responseId, events[..|events| - 1]);
      EventGrouped(After(responseId, events[..|events| - 1]), events[|events| - 1]);
    }
  }

  /** At a turn's end the streamed headers, in order, claim exactly the calls the loop started, and
      every streamed card has its header; a proving phase comes only after the headers of all calls
      before it. */
  lemma StreamedHeaders(responseId: string, events: seq<Event>, i: nat)
    ensures var parts := Introduced(BatchClosed(After(responseId, events)).frames);
            && LabelledIds(parts) == CallsOf(events)
            && (i < |parts| && parts[i].ToolCard? ==> exists j :: Heads(parts, i, j))
            && (i < |parts| && parts[i].PhaseLabel? ==> Unclaimed(parts[..i]) == [])
  {
    TurnGrouped(responseId, events);
    var t := After(responseId, events);
    ClosedGrouped(t);
    var parts := Introduced(BatchClosed(t).frames);
    HeadersPartition(parts);
    if i < |parts| && parts[i].ToolCard? {
      HeadedOrWaiting(parts, i);
    }
    if i < |parts| {
      PartFits(parts, i);
    }
  }

  lemma {:induction false} PartFits(parts: seq<ContentPart>, i: nat)
    requires Fits(parts) && i < |parts|
    ensures MayFollow(parts[..i], parts[i])
  {
    if i < |parts| - 1 {
      PartFits(parts[..|parts| - 1], i);
      assert parts[..|parts| - 1][..i] == parts[..i];
    }
  }

  /** The same of the parts the message persists, when no call was restarted while open. */
  lemma PersistedHeaders(responseId: string, events: seq<Event>, parts: seq<ContentPart>, i: nat)
    requires IsExit(After(responseId, events), parts) && NoRestart(events)
    ensures LabelledIds(parts) == CallsOf(events)
    ensures i < |parts| && parts[i].ToolCard? ==> exists j :: Heads(parts, i, j)
    ensures i < |parts| && parts[i].PhaseLabel? ==> Unclaimed(parts[..i]) == []
  {
    PersistedEqualsStreamed(responseId, events, parts);
    TurnMirror(responseId, events, "");
    TurnGrouped(responseId, events);
    var t := After(responseId, events);
    BatchClosedMirror(t);
    ClosedGrouped(t);
    var u := BatchClosed(t);
    var shown := Introduced(u.frames);
    forall k | 0 <= k < |parts| ensures SamePart(shown[k], parts[k]) {
      assert SlotOk(u, k);
    }
    SameGroups(shown, parts);
    HeadersPartition(parts);
    if i < |parts| && parts[i].ToolCard? {
      HeadedOrWaiting(parts, i);
    }
    if i < |parts| {
      PartFits(parts, i);
    }
  }
}
