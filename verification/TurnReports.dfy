/** What else an agent turn's ledger reports, against the events it comes from: usage, gauges and
    questions in order, and every part with what it shows. */
module TurnReports {
  import opened Options
  import opened Sequences
  import opened Wire
  import opened AgentTurn
  import Steers
  import P = TurnProtocol
  import C = ChatWorker

  // ---- usage, gauges, questions ----------------------------------------------------------

  datatype Report = Tokens(runId: string, input: int, output: int) | Window(runId: string, size: int, used: int)
                  | Question(actionId: string)

  /** The reports on a ledger, in order. */
  function ReportsOn(frames: seq<Frame>): seq<Report> {
    if frames == [] then [] else ReportsOn(frames[..|frames| - 1]) + ReportIn(frames[|frames| - 1])
  }

  function ReportIn(f: Frame): seq<Report> {
    match f
    case TokenUsage(runId, _, input, output) => [Tokens(runId, input, output)]
    case ContextUsage(runId, size, used) => [Window(runId, size, used)]
    case PendingAction(actionId) => [Question(actionId)]
    case _ => []
  }

  /** What the events have to report: each usage with its numbers, its gauge behind it if there is one,
      each question asked. */
  function ReportsOf(responseId: string, events: seq<Event>): seq<Report> {
    if events == [] then []
    else
      ReportsOf(responseId, events[..|events| - 1])
      + match events[|events| - 1]
        case Usage(input, output, gauge) =>
          [Tokens(responseId, input, output)]
          + (if gauge.Some? then [Window(responseId, gauge.value, input)] else [])
        case Asked(actionId) => [Question(actionId)]
        case _ => []
  }

  lemma OneMoreFrame(frames: seq<Frame>, f: Frame)
    ensures ReportsOn(frames + [f]) == ReportsOn(frames) + ReportIn(f)
  {
    assert (frames + [f])[..|frames|] == frames;
  }

  lemma QuietFrame(frames: seq<Frame>, f: Frame)
    requires ReportIn(f) == []
    ensures ReportsOn(frames + [f]) == ReportsOn(frames)
  {
    OneMoreFrame(frames, f);
  }

  lemma BatchQuiet(t: Turn)
    ensures ReportsOn(BatchClosed(t).frames) == ReportsOn(t.frames) && BatchClosed(t).responseId == t.responseId
  {
    if t.heading != "" {
      QuietFrame(t.frames, LabelShown(t.nextIndex, BatchLabel(t.heading, t.ids)));
    }
  }

  lemma {:induction false} SteersQuiet(t: Turn, rows: seq<Steers.Steer>)
    ensures ReportsOn(SteersShown(t, rows).frames) == ReportsOn(t.frames)
    ensures SteersShown(t, rows).responseId == t.responseId
  {
    if rows != [] {
      var init, row := rows[..|rows| - 1], rows[|rows| - 1];
      SteersQuiet(t, init);
      var u := SteersShown(t, init);
      QuietFrame(u.frames, SteerApplied(row.steerId, row.clientSteerId, u.nextIndex,
                                        SteerChip(row.text, row.createdAt)));
    }
  }

  lemma StartQuiet(t: Turn, call: ToolCall)
    ensures ReportsOn(Started(t, call).frames) == ReportsOn(t.frames) && Started(t, call).responseId == t.responseId
  {
    BatchQuiet(t);
    var u := CallNoted(t, ActivityLabel(call.name), call.callId);
    QuietFrame(u.frames, Started(t, call).frames[|u.frames|]);
  }

  lemma TwoReports(frames: seq<Frame>, f: Frame, g: Frame, more: seq<Frame>)
    requires more == (frames + [f]) + [g]
    ensures ReportsOn(more) == ReportsOn(frames) + (ReportIn(f) + ReportIn(g))
  {
    OneMoreFrame(frames, f);
    OneMoreFrame(frames + [f], g);
    ConcatAssoc(ReportsOn(frames), ReportIn(f), ReportIn(g));
  }

  lemma MeteredFrames(t: Turn, input: int, output: int, gauge: Option<int>)
    ensures var u, f := Metered(t, input, output, gauge), TokenUsage(t.responseId, t.usageSeq + 1, input, output);
            && u.responseId == t.responseId
            && u.frames == if gauge.Some? then (t.frames + [f]) + [ContextUsage(t.responseId, gauge.value, input)]
                           else t.frames + [f]
  {
  }

  lemma UsageReports(t: Turn, input: int, output: int, gauge: Option<int>)
    ensures ReportsOn(Metered(t, input, output, gauge).frames) ==
            ReportsOn(t.frames)
            + ([Tokens(t.responseId, input, output)]
               + if gauge.Some? then [Window(t.responseId, gauge.value, input)] else [])
  {
    var f := TokenUsage(t.responseId, t.usageSeq + 1, input, output);
    MeteredFrames(t, input, output, gauge);
    if gauge.Some? {
      var g := ContextUsage(t.responseId, gauge.value, input);
      TwoReports(t.frames, f, g, Metered(t, input, output, gauge).frames);
    } else {
      OneMoreFrame(t.frames, f);
      assert [Tokens(t.responseId, input, output)] + [] == [Tokens(t.responseId, input, output)];
    }
  }

  lemma EventReports(t: Turn, e: Event)
    ensures OnEvent(t, e).responseId == t.responseId
    ensures !e.Usage? && !e.Asked? ==> ReportsOn(OnEvent(t, e).frames) == ReportsOn(t.frames)
    ensures e.Asked? ==> ReportsOn(OnEvent(t, e).frames) == ReportsOn(t.frames) + [Question(e.actionId)]
  {
    match e
    case Narration(text) =>
      QuietFrame(t.frames, MessageDeltaFrame(t.responseId, if t.collected == [] then text else "\n\n" + text));
    case Stopped(note) =>
      QuietFrame(t.frames, MessageDeltaFrame(t.responseId, if t.collected == [] then note else "\n\n" + note));
    case CallStarted(call) => StartQuiet(t, call);
    case CallFinished(callId, detail) =>
      if IsOpenCall(t, callId) {
        var o :| o in t.open && o.call.callId == callId && Completed(t, callId, detail) == Returned(t, o, detail);
        QuietFrame(t.frames, ToolStepCompleted(o.stepId, o.index, o.call, detail));
      }
    case Proving =>
      BatchQuiet(t);
      QuietFrame(BatchClosed(t).frames, LabelShown(BatchClosed(t).nextIndex, PROVING));
    case Asked(actionId) => OneMoreFrame(t.frames, PendingAction(actionId));
    case Steered(rows) => SteersQuiet(t, rows);
    case Usage(input, output, gauge) => MeteredFrames(t, input, output, gauge);
    case Other =>
  }

  /** The ledger of a turn reports, in order and under the turn's own run id, exactly the usages with
      their numbers, the gauges and the questions its events carried. */
  lemma {:induction false} ReportsPublished(responseId: string, events: seq<Event>)
    ensures After(responseId, events).responseId == responseId
    ensures ReportsOn(After(responseId, events).frames) == ReportsOf(responseId, events)
    ensures ReportsOn(BatchClosed(After(responseId, events)).frames) == ReportsOf(responseId, events)
  {
    if events != [] {
      var init, last := events[..|events| - 1], events[|events| - 1];
      ReportsPublished(responseId, init);
      EventReports(After(responseId, init), last);
      if last.Usage? {
        UsageReports(After(responseId, init), last.inputTokens, last.outputTokens, last.gauge);
      } else if !last.Asked? {
        assert ReportsOf(responseId, init) + [] == ReportsOf(responseId, init);
      }
    }
    BatchQuiet(After(responseId, events));
  }

  // ---- the parts -------------------------------------------------------------------------

  /** The parts of a ledger in order of introduction, the batch headers left out. */
  function PartsOn(parts: seq<ContentPart>): seq<ContentPart> {
    if parts == [] then []
    else PartsOn(parts[..|parts| - 1]) + if parts[|parts| - 1].BatchLabel? then [] else [parts[|parts| - 1]]
  }

  function ChipsOf(rows: seq<Steers.Steer>): (chips: seq<ContentPart>)
    ensures |chips| == |rows| && forall i :: 0 <= i < |rows| ==> chips[i] == SteerChip(rows[i].text, rows[i].createdAt)
  {
    seq(|rows|, i requires 0 <= i < |rows| => SteerChip(rows[i].text, rows[i].createdAt))
  }

  /** The parts the events ask for: each call as issued, each proving phase, each steer. */
  function PartsOf(events: seq<Event>): seq<ContentPart> {
    if events == [] then [] else PartsOf(events[..|events| - 1]) + PartsIn(events[|events| - 1])
  }

  function PartsIn(e: Event): seq<ContentPart> {
    match e
    case CallStarted(call) => [ToolCard(call, Interrupted)]
    case Proving => [PhaseLabel("Proving the change")]
    case Steered(rows) => ChipsOf(rows)
    case _ => []
  }

  lemma PartsOne(parts: seq<ContentPart>, part: ContentPart)
    ensures PartsOn(parts + [part]) == PartsOn(parts) + if part.BatchLabel? then [] else [part]
  {
    assert (parts + [part])[..|parts|] == parts;
  }

  /** The parts a ledger introduces, without the headers. */
  function ShownParts(frames: seq<Frame>): seq<ContentPart> {
    PartsOn(Introduced(frames))
  }

  lemma Introduces(frames: seq<Frame>, f: Frame)
    requires SlotOf(f).Some? && !f.ToolStepCompleted?
    ensures ShownParts(frames + [f]) ==
            ShownParts(frames) + if SlotOf(f).value.1.BatchLabel? then [] else [SlotOf(f).value.1]
  {
    IntroducedOne(frames, f);
    PartsOne(Introduced(frames), SlotOf(f).value.1);
  }

  lemma IntroducesNone(frames: seq<Frame>, f: Frame)
    requires SlotOf(f).None? || f.ToolStepCompleted?
    ensures ShownParts(frames + [f]) == ShownParts(frames)
  {
    IntroducedOne(frames, f);
    assert Introduced(frames) + [] == Introduced(frames);
  }

  lemma BatchParts(t: Turn)
    ensures ShownParts(BatchClosed(t).frames) == ShownParts(t.frames)
  {
    if t.heading != "" {
      Introduces(t.frames, LabelShown(t.nextIndex, BatchLabel(t.heading, t.ids)));
    }
  }

  lemma StartParts(t: Turn, call: ToolCall)
    ensures ShownParts(Started(t, call).frames) == ShownParts(t.frames) + [ToolCard(call, Interrupted)]
  {
    BatchParts(t);
    var u := CallNoted(t, ActivityLabel(call.name), call.callId);
    Introduces(u.frames, Started(t, call).frames[|u.frames|]);
  }

  lemma SteerPart(u: Turn, row: Steers.Steer)
    ensures ShownParts(SteerShown(u, row).frames) == ShownParts(u.frames) + [SteerChip(row.text, row.createdAt)]
  {
    var chip := SteerChip(row.text, row.createdAt);
    Introduces(u.frames, SteerApplied(row.steerId, row.clientSteerId, u.nextIndex, chip));
  }

  lemma {:induction false} SteersParts(t: Turn, rows: seq<Steers.Steer>)
    ensures ShownParts(SteersShown(t, rows).frames) == ShownParts(t.frames) + ChipsOf(rows)
  {
    if rows == [] {
      assert ShownParts(t.frames) + ChipsOf(rows) == ShownParts(t.frames);
    } else {
      var init, row := rows[..|rows| - 1], rows[|rows| - 1];
      SteersParts(t, init);
      SteerPart(SteersShown(t, init), row);
      MoreChips(ShownParts(t.frames), init, row, rows);
    }
  }

  lemma MoreChips(shown: seq<ContentPart>, init: seq<Steers.Steer>, row: Steers.Steer, rows: seq<Steers.Steer>)
    requires rows == init + [row]
    ensures (shown + ChipsOf(init)) + [SteerChip(row.text, row.createdAt)] == shown + ChipsOf(rows)
  {
  }

  lemma QuietParts(frames: seq<Frame>, f: Frame, more: seq<Frame>)
    requires more == frames + [f] && (SlotOf(f).None? || f.ToolStepCompleted?)
    ensures ShownParts(more) == ShownParts(frames)
  {
    IntroducesNone(frames, f);
  }

  lemma MeterParts(t: Turn, input: int, output: int, gauge: Option<int>)
    ensures ShownParts(Metered(t, input, output, gauge).frames) == ShownParts(t.frames)
  {
    var f := TokenUsage(t.responseId, t.usageSeq + 1, input, output);
    MeteredFrames(t, input, output, gauge);
    QuietParts(t.frames, f, t.frames + [f]);
    if gauge.Some? {
      QuietParts(t.frames + [f], ContextUsage(t.responseId, gauge.value, input),
                 Metered(t, input, output, gauge).frames);
    }
  }

  lemma SpokenParts(t: Turn, text: string)
    ensures ShownParts(Spoken(t, text).frames) == ShownParts(t.frames)
  {
    IntroducesNone(t.frames, MessageDeltaFrame(t.responseId, if t.collected == [] then text else "\n\n" + text));
  }

  lemma FinishParts(t: Turn, callId: string, detail: string)
    ensures ShownParts(Completed(t, callId, detail).frames) == ShownParts(t.frames)
  {
    if IsOpenCall(t, callId) {
      var o :| o in t.open && o.call.callId == callId && Completed(t, callId, detail) == Returned(t, o, detail);
      IntroducesNone(t.frames, ToolStepCompleted(o.stepId, o.index, o.call, detail));
    }
  }

  lemma PhaseParts(t: Turn)
    ensures ShownParts(PhaseShown(t).frames) == ShownParts(t.frames) + [PhaseLabel("Proving the change")]
  {
    BatchParts(t);
    var f := LabelShown(BatchClosed(t).nextIndex, PROVING);
    OnePart(BatchClosed(t).frames, f, PhaseShown(t).frames, PROVING);
  }

  lemma OnePart(frames: seq<Frame>, f: Frame, more: seq<Frame>, part: ContentPart)
    requires more == frames + [f] && f.LabelShown? && f.part == part && !part.BatchLabel?
    ensures ShownParts(more) == ShownParts(frames) + [part]
  {
    Introduces(frames, f);
  }

  lemma EventParts(t: Turn, e: Event)
    ensures ShownParts(OnEvent(t, e).frames) == ShownParts(t.frames) + PartsIn(e)
  {
    assert ShownParts(t.frames) + [] == ShownParts(t.frames);
    match e
    case Narration(text) => SpokenParts(t, text);
    case Stopped(note) => SpokenParts(t, note);
    case CallStarted(call) => StartParts(t, call);
    case CallFinished(callId, detail) => FinishParts(t, callId, detail);
    case Proving => PhaseParts(t);
    case Asked(actionId) => IntroducesNone(t.frames, PendingAction(actionId));
    case Steered(rows) => SteersParts(t, rows);
    case Usage(input, output, gauge) => MeterParts(t, input, output, gauge);
    case Other =>
  }

  /** Apart from the batch headers, the parts a turn's ledger introduces are exactly those its events
      ask for, in their order: the calls as issued, the proving phases, the steers. */
  lemma {:induction false} PartsInOrder(responseId: string, events: seq<Event>)
    ensures ShownParts(After(responseId, events).frames) == PartsOf(events)
    ensures ShownParts(BatchClosed(After(responseId, events)).frames) == PartsOf(events)
  {
    if events != [] {
      var init, last := events[..|events| - 1], events[|events| - 1];
      PartsInOrder(responseId, init);
      EventParts(After(responseId, init), last);
    }
    BatchParts(After(responseId, events));
  }

  // ---- the text --------------------------------------------------------------------------

  /** Every delta is answer text on the turn's first step. */
  predicate OnTextStep(frames: seq<Frame>, responseId: string) {
    forall i :: 0 <= i < |frames| && frames[i].Delta? ==>
      frames[i].channel == MessageDelta && frames[i].stepId == StepId(responseId, "0")
  }

  lemma BatchOnText(t: Turn)
    requires OnTextStep(t.frames, t.responseId)
    ensures OnTextStep(BatchClosed(t).frames, t.responseId)
  {
  }

  lemma {:induction false} SteersOnText(t: Turn, rows: seq<Steers.Steer>)
    requires OnTextStep(t.frames, t.responseId)
    ensures OnTextStep(SteersShown(t, rows).frames, t.responseId)
  {
    if rows != [] {
      SteersOnText(t, rows[..|rows| - 1]);
    }
  }

  lemma StartOnText(t: Turn, call: ToolCall)
    requires OnTextStep(t.frames, t.responseId)
    ensures OnTextStep(Started(t, call).frames, t.responseId)
  {
    BatchOnText(t);
  }

  lemma FinishOnText(t: Turn, callId: string, detail: string)
    requires OnTextStep(t.frames, t.responseId)
    ensures OnTextStep(Completed(t, callId, detail).frames, t.responseId)
  {
    if IsOpenCall(t, callId) {
      var o :| o in t.open && o.call.callId == callId && Completed(t, callId, detail) == Returned(t, o, detail);
    }
  }

  lemma EventOnText(t: Turn, e: Event)
    requires OnTextStep(t.frames, t.responseId)
    ensures OnTextStep(OnEvent(t, e).frames, t.responseId)
  {
    match e
    case CallStarted(call) => StartOnText(t, call);
    case CallFinished(callId, detail) => FinishOnText(t, callId, detail);
    case Proving => BatchOnText(t);
    case Steered(rows) => SteersOnText(t, rows);
    case _ =>
  }

  lemma {:induction false} TurnOnText(responseId: string, events: seq<Event>)
    ensures OnTextStep(After(responseId, events).frames, responseId)
  {
    if events != [] {
      TurnOnText(responseId, events[..|events| - 1]);
      ReportsPublished(responseId, events[..|events| - 1]);
      EventOnText(After(responseId, events[..|events| - 1]), events[|events| - 1]);
    }
  }

  /** In the ledger of an agent turn every piece of text comes after the frame that opened its step. */
  lemma NarrationFindsItsStep(responseId: string, events: seq<Event>, sid: StreamId, createdAt: int, user: Message)
    ensures var job := P.NewJob(sid, createdAt, user, responseId);
            C.DeltasPlaced(job.frames + BatchClosed(After(responseId, events)).frames)
  {
    var opening, shown := P.NewJob(sid, createdAt, user, responseId).frames,
        BatchClosed(After(responseId, events)).frames;
    TurnOnText(responseId, events);
    ReportsPublished(responseId, events);
    BatchOnText(After(responseId, events));
    assert [] + [Created(user)] == [Created(user)];
    assert opening == C.Opening(responseId, user);
    var all := opening + shown;
    forall i | 0 <= i < |all| && all[i].Delta? ensures exists k: nat :: C.StepOf(all, k, i) {
      assert i >= 2 && all[i] == shown[i - 2];
      assert C.StepOf(all, 1, i);
    }
  }
}
