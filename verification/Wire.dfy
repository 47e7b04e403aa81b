/** The frames a streamed turn puts on its ledger, and the documents persisted beside them. */
module Wire {
  import opened Options
  import opened Sequences

  type StreamId = string

  /** The two streamed content channels. */
  datatype Channel = MessageDelta | ReasoningDelta

  /** One part of a delta's content list. */
  datatype DeltaPart =
    | TextDelta(text: string)
    | ThinkDelta(think: string)
    | OtherDelta(kind: string)

  datatype ToolCall = ToolCall(callId: string, name: string, args: string)

  /** What a tool card shows about a call besides the call itself. `Finished` carries
      `progress: 1`; an interrupted call has an empty output and no progress. */
  datatype CallResult = Finished(output: string) | Interrupted

  /** One content part of a persisted message. `ToolSlot` is the placeholder a tool call reserves
      when it starts. */
  datatype ContentPart =
    | TextContent(text: string)
    | ThinkContent(think: string)
    | ErrorContent(message: string)
    | ToolSlot
    | ToolCard(call: ToolCall, result: CallResult)
    | BatchLabel(title: string, callIds: seq<string>)
    | PhaseLabel(title: string)
    | SteerChip(text: string, createdAt: int)

  datatype Message = Message(
    id: string, parentId: string, streamId: StreamId, text: string, content: seq<ContentPart>,
    byUser: bool, error: bool, unfinished: bool)

  datatype Frame =
    | Created(message: Message)
    | OpenStep(stepId: string, index: nat, thinking: bool)
    | Delta(channel: Channel, stepId: string, content: seq<DeltaPart>)
    | ToolStep(stepId: string, index: nat, call: ToolCall)
    | ToolStepCompleted(stepId: string, index: nat, call: ToolCall, output: string)
    | LabelShown(index: nat, part: ContentPart)
    | SteerApplied(steerId: string, clientSteerId: Option<string>, index: nat, part: ContentPart)
    | TokenUsage(runId: string, seqNo: nat, inputTokens: int, outputTokens: int)
    | ContextUsage(runId: string, window: int, inputTokens: int)
    | PendingAction(actionId: string)
    | Final(response: Message, aborted: bool)

  /** The step id of content slot `index` of a response. */
  function StepId(responseId: string, index: string): string {
    "step_" + responseId + "_" + index
  }

  function MessageDeltaFrame(responseId: string, text: string): Frame {
    Delta(MessageDelta, StepId(responseId, "0"), [TextDelta(text)])
  }

  function ReasoningDeltaFrame(responseId: string, text: string): Frame {
    Delta(ReasoningDelta, StepId(responseId, "1"), [ThinkDelta(text)])
  }

  /** The text parts of a delta's content list, joined. */
  function JoinText(content: seq<DeltaPart>): string {
    if content == [] then ""
    else (if content[0].TextDelta? then content[0].text else "") + JoinText(content[1..])
  }

  lemma JoinFirst(part: DeltaPart, more: seq<DeltaPart>)
    ensures JoinText([part] + more) == (if part.TextDelta? then part.text else "") + JoinText(more)
  {
    assert ([part] + more)[1..] == more;
  }

  /** The text of a delta is its text parts' texts, in their order; other parts add nothing. */
  lemma {:induction false} PartsJoin(a: seq<DeltaPart>, part: DeltaPart)
    ensures JoinText(a + [part]) == if part.TextDelta? then JoinText(a) + part.text else JoinText(a)
  {
    var last := if part.TextDelta? then part.text else "";
    if a == [] {
      assert a + [part] == [part] + [];
      JoinFirst(part, []);
    } else {
      var first := if a[0].TextDelta? then a[0].text else "";
      PartsJoin(a[1..], part);
      assert a + [part] == [a[0]] + (a[1..] + [part]) && a == [a[0]] + a[1..];
      JoinFirst(a[0], a[1..] + [part]);
      JoinFirst(a[0], a[1..]);
      ConcatAssoc(first, JoinText(a[1..]), last);
    }
  }

  /** Chunks of text put together. */
  function Joined(chunks: seq<string>): string {
    if chunks == [] then "" else Joined(chunks[..|chunks| - 1]) + chunks[|chunks| - 1]
  }

  /** The answer text one frame contributes: every text part of a message delta. */
  function FrameText(f: Frame): string {
    if f.Delta? && f.channel == MessageDelta then JoinText(f.content) else ""
  }

  /** The answer text a ledger streams. */
  function LedgerText(frames: seq<Frame>): string {
    if frames == [] then "" else LedgerText(frames[..|frames| - 1]) + FrameText(frames[|frames| - 1])
  }

  lemma JoinedOne(chunks: seq<string>, chunk: string)
    ensures Joined(chunks + [chunk]) == Joined(chunks) + chunk
  {
    assert (chunks + [chunk])[..|chunks|] == chunks;
  }

  lemma LedgerTextOne(a: seq<Frame>, f: Frame)
    ensures LedgerText(a + [f]) == LedgerText(a) + FrameText(f)
  {
    assert (a + [f])[..|a|] == a;
  }

  lemma {:induction false} LedgerTextAppend(a: seq<Frame>, b: seq<Frame>)
    ensures LedgerText(a + b) == LedgerText(a) + LedgerText(b)
  {
    if b == [] {
      assert a + b == a;
    } else {
      var init, last := b[..|b| - 1], b[|b| - 1];
      LedgerTextAppend(a, init);
      SplitLast(a, b);
      LedgerTextOne(a + init, last);
      LedgerTextOne(init, last);
      Chained(LedgerText(a), LedgerText(init), FrameText(last), LedgerText(a + init), LedgerText(b), LedgerText(a + b));
    }
  }

  ghost predicate NoFinal(frames: seq<Frame>) {
    forall i :: 0 <= i < |frames| ==> !frames[i].Final?
  }

  /** A frame a turn's worker appends while it runs: no final, and answer text only as a delta of the
      response's own text step. */
  predicate WorkerFrame(responseId: string, f: Frame) {
    !f.Final? && (f.Delta? && f.channel == MessageDelta ==> f == MessageDeltaFrame(responseId, FrameText(f)))
  }

  ghost predicate WorkerFrames(responseId: string, frames: seq<Frame>) {
    forall i :: 0 <= i < |frames| ==> WorkerFrame(responseId, frames[i])
  }
}
