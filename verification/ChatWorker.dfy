/** The worker of a plain chat turn: answer text and thinking, each on its own step. */
module ChatWorker {
  import opened Options
  import opened Wire
  import P = TurnProtocol

  datatype Event =
    | Text(text: string)
    | Thought(text: string)
    | UsageReport(inputTokens: int, outputTokens: int)

  /** How the provider's stream ended. */
  datatype End = Finished | Cancelled | Failed(message: string)

  datatype Reply = Reply(responseId: string, collected: seq<string>, thinking: seq<string>, usage: Option<(int, int)>,
                         frames: seq<Frame>)

  const THOUGHT_ONLY :=
    "The model used its whole reply budget thinking and never reached an answer. Its thinking is below. "
    + "Ask again, or raise the reply length in Settings."
  const EMPTY_REPLY :=
    "The model returned an empty reply — no text and no error. Ask again, or try a different model."

  function ThinkStep(responseId: string): Frame {
    OpenStep(StepId(responseId, "1"), 1, true)
  }

  function Said(r: Reply, text: string): Reply {
    r.(collected := r.collected + [text], frames := r.frames + [MessageDeltaFrame(r.responseId, text)])
  }

  /** The think step opens with the first thought. */
  function ThoughtOf(r: Reply, text: string): Reply {
    var begun := if r.thinking == [] then r.frames + [ThinkStep(r.responseId)] else r.frames;
    r.(thinking := r.thinking + [text], frames := begun + [ReasoningDeltaFrame(r.responseId, text)])
  }

  function OnEvent(r: Reply, e: Event): Reply {
    match e
    case Text(text) => Said(r, text)
    case Thought(text) => ThoughtOf(r, text)
    case UsageReport(i, o) => r.(usage := Some((i, o)))
  }

  function After(responseId: string, events: seq<Event>): Reply {
    if events == [] then Reply(responseId, [], [], None, [])
    else OnEvent(After(responseId, events[..|events| - 1]), events[|events| - 1])
  }

  /** A turn that ends cleanly with no answer says so. */
  function Closed(r: Reply, end: End): Reply {
    if r.collected == [] && end.Finished? then Said(r, if r.thinking != [] then THOUGHT_ONLY else EMPTY_REPLY) else r
  }

  function OutcomeOf(r: Reply, end: End): P.Outcome {
    P.Outcome(end.Cancelled?, if end.Failed? then Some(end.message) else None, None, r.usage,
              if r.thinking != [] then [ThinkContent(Joined(r.thinking))] else [])
  }

  // ---- what the stream shows -------------------------------------------------------------

  /** The thinking a ledger streams. */
  function ThoughtText(frames: seq<Frame>): string {
    if frames == [] then ""
    else
      var f := frames[|frames| - 1];
      ThoughtText(frames[..|frames| - 1])
      + if IsThought(f) then ThinkPart(f.content) else ""
  }

  function ThinkPart(content: seq<DeltaPart>): string {
    if content == [] then "" else (if content[0].ThinkDelta? then content[0].think else "") + ThinkPart(content[1..])
  }

  /** A thought is shown only in a think step that was opened before, and one is opened only to show
      a thought: once. */
  predicate ThinksInOrder(frames: seq<Frame>, isOpen: bool)
    decreases |frames|
  {
    frames == [] ||
    var f := frames[0];
    if f.OpenStep? then !isOpen && f.thinking && |frames| > 1 && IsThought(frames[1])
        && ThinksInOrder(frames[1..], true)
    else (IsThought(f) ==> isOpen) && ThinksInOrder(frames[1..], isOpen)
  }

  predicate IsThought(f: Frame) {
    f.Delta? && f.channel == ReasoningDelta
  }

  lemma ThoughtTextOne(a: seq<Frame>, f: Frame)
    ensures ThoughtText(a + [f]) == ThoughtText(a) + if IsThought(f) then ThinkPart(f.content) else ""
  {
    assert (a + [f])[..|a|] == a;
  }

  predicate HasThought(frames: seq<Frame>) {
    exists i :: 0 <= i < |frames| && IsThought(frames[i])
  }

  lemma {:induction false} OrderAppend(frames: seq<Frame>, more: seq<Frame>, isOpen: bool)
    requires ThinksInOrder(frames, isOpen) && ThinksInOrder(more, isOpen || HasThought(frames))
    ensures ThinksInOrder(frames + more, isOpen)
    decreases |frames|
  {
    if frames == [] {
      assert frames + more == more;
    } else {
      var tail, opens := frames[1..], isOpen || frames[0].OpenStep?;
      assert (frames + more)[1..] == tail + more;
      assert opens || HasThought(tail) <==> isOpen || HasThought(frames) by {
        if HasThought(frames) && !isOpen {
          var i :| 0 <= i < |frames| && IsThought(frames[i]);
          assert i > 0 && tail[i - 1] == frames[i];
        }
        if HasThought(tail) {
          var i :| 0 <= i < |tail| && IsThought(tail[i]);
          assert frames[i + 1] == tail[i];
        }
      }
      OrderAppend(tail, more, opens);
    }
  }

  ghost predicate Faithful(r: Reply) {
    && LedgerText(r.frames) == Joined(r.collected) && ThoughtText(r.frames) == Joined(r.thinking)
    && WorkerFrames(r.responseId, r.frames)
    && ThinksInOrder(r.frames, false) && (HasThought(r.frames) <==> r.thinking != [])
  }

  lemma SaidFaithful(r: Reply, text: string)
    requires Faithful(r)
    ensures Faithful(Said(r, text))
  {
    var f, u := MessageDeltaFrame(r.responseId, text), Said(r, text);
    LedgerTextOne(r.frames, f);
    ThoughtTextOne(r.frames, f);
    assert JoinText([TextDelta(text)]) == text + JoinText([]) == text;
    assert u.collected[..|r.collected|] == r.collected;
    assert ThinksInOrder([f], HasThought(r.frames)) by {
      assert [f][1..] == [];
    }
    OrderAppend(r.frames, [f], false);
    HasThoughtOne(r.frames, f);
  }

  lemma HasThoughtOne(frames: seq<Frame>, f: Frame)
    ensures HasThought(frames + [f]) <==> HasThought(frames) || IsThought(f)
  {
    var all := frames + [f];
    if HasThought(frames) {
      var i :| 0 <= i < |frames| && IsThought(frames[i]);
      assert IsThought(all[i]);
    }
    assert all[|frames|] == f;
  }

  lemma ThoughtFaithful(r: Reply, text: string)
    requires Faithful(r)
    ensures Faithful(ThoughtOf(r, text))
  {
    ThoughtTexts(r, text);
    ThoughtInOrder(r, text);
    ThoughtAllowed(r, text);
  }

  lemma ThoughtAllowed(r: Reply, text: string)
    requires WorkerFrames(r.responseId, r.frames)
    ensures WorkerFrames(r.responseId, ThoughtOf(r, text).frames)
  {
    var begun := if r.thinking == [] then r.frames + [ThinkStep(r.responseId)] else r.frames;
    assert WorkerFrames(r.responseId, begun);
  }

  /** A thought adds to the streamed thinking and to nothing else. */
  lemma ThoughtTexts(r: Reply, text: string)
    ensures var u := ThoughtOf(r, text);
            && LedgerText(u.frames) == LedgerText(r.frames) && ThoughtText(u.frames) == ThoughtText(r.frames) + text
            && HasThought(u.frames) && Joined(u.thinking) == Joined(r.thinking) + text
  {
    var step := ThinkStep(r.responseId);
    StepShown(r.frames, step);
    ThoughtShown(if r.thinking == [] then r.frames + [step] else r.frames, r.responseId, text);
    JoinedOne(r.thinking, text);
  }

  lemma StepShown(frames: seq<Frame>, step: Frame)
    requires step.OpenStep?
    ensures LedgerText(frames + [step]) == LedgerText(frames) && ThoughtText(frames + [step]) == ThoughtText(frames)
  {
    NoTextIn(frames, step);
    ThoughtTextOne(frames, step);
    assert ThoughtText(frames) + "" == ThoughtText(frames);
  }

  lemma ThoughtShown(frames: seq<Frame>, responseId: string, text: string)
    ensures var f := ReasoningDeltaFrame(responseId, text);
            && LedgerText(frames + [f]) == LedgerText(frames) && ThoughtText(frames + [f]) == ThoughtText(frames) + text
            && HasThought(frames + [f])
  {
    var f := ReasoningDeltaFrame(responseId, text);
    NoTextIn(frames, f);
    ThoughtTextOne(frames, f);
    HasThoughtOne(frames, f);
    assert ThinkPart([ThinkDelta(text)]) == text + ThinkPart([]) == text;
  }

  /** A frame that is no answer delta leaves the answer text as it is. */
  lemma NoTextIn(frames: seq<Frame>, f: Frame)
    requires !(f.Delta? && f.channel == MessageDelta)
    ensures LedgerText(frames + [f]) == LedgerText(frames)
  {
    LedgerTextOne(frames, f);
    assert LedgerText(frames) + "" == LedgerText(frames);
  }

  lemma ThoughtInOrder(r: Reply, text: string)
    requires ThinksInOrder(r.frames, false) && (HasThought(r.frames) <==> r.thinking != [])
    ensures ThinksInOrder(ThoughtOf(r, text).frames, false)
  {
    var f, step := ReasoningDeltaFrame(r.responseId, text), ThinkStep(r.responseId);
    assert ThinksInOrder([f], true) by {
      assert [f][1..] == [];
    }
    if r.thinking == [] {
      assert ThinksInOrder([step, f], false) by {
        assert [step, f][1..] == [f];
      }
      OrderAppend(r.frames, [step, f], false);
      assert (r.frames + [step]) + [f] == r.frames + [step, f];
    } else {
      OrderAppend(r.frames, [f], false);
    }
  }

  lemma {:induction false} WorkerFaithful(responseId: string, events: seq<Event>)
    ensures Faithful(After(responseId, events))
  {
    if events != [] {
      var init, last := events[..|events| - 1], events[|events| - 1];
      WorkerFaithful(responseId, init);
      match last
      case Text(text) => SaidFaithful(After(responseId, init), text);
      case Thought(text) => ThoughtFaithful(After(responseId, init), text);
      case UsageReport(_, _) =>
    }
  }

  /** What the turn persists is what it streamed: the text, and behind it the thinking if there was
      any, whose step opened once and before the first thought. */
  lemma PersistedEqualsStreamed(responseId: string, events: seq<Event>, end: End)
    ensures var r := Closed(After(responseId, events), end);
            && Faithful(r)
            && OutcomeOf(r, end).extraParts ==
                if HasThought(r.frames) then [ThinkContent(ThoughtText(r.frames))] else []
  {
    WorkerFaithful(responseId, events);
    var r := After(responseId, events);
    if r.collected == [] && end.Finished? {
      SaidFaithful(r, if r.thinking != [] then THOUGHT_ONLY else EMPTY_REPLY);
    }
  }

  // ---- no silent turn --------------------------------------------------------------------

  predicate NoText(events: seq<Event>) {
    forall i :: 0 <= i < |events| ==> !events[i].Text?
  }

  predicate OnlyEmptyText(events: seq<Event>) {
    forall i :: 0 <= i < |events| && events[i].Text? ==> events[i].text == ""
  }

  lemma TextsOne(events: seq<Event>, e: Event)
    ensures NoText(events + [e]) <==> NoText(events) && !e.Text?
    ensures OnlyEmptyText(events + [e]) <==> OnlyEmptyText(events) && (e.Text? ==> e.text == "")
  {
    var all := events + [e];
    assert all[|events|] == e && forall i :: 0 <= i < |events| ==> all[i] == events[i];
  }

  lemma {:induction false} CollectedIs(responseId: string, events: seq<Event>)
    ensures After(responseId, events).collected == [] <==> NoText(events)
    ensures Joined(After(responseId, events).collected) == "" <==> OnlyEmptyText(events)
  {
    if events != [] {
      var init, last := events[..|events| - 1], events[|events| - 1];
      CollectedIs(responseId, init);
      assert events == init + [last];
      TextsOne(init, last);
      if last.Text? {
        JoinedOne(After(responseId, init).collected, last.text);
      }
    }
  }

  /** When the ledger of a cleanly ended turn has no text. */
  lemma SilentExactly(responseId: string, events: seq<Event>)
    ensures LedgerText(Closed(After(responseId, events), End.Finished).frames) == "" <==>
              !NoText(events) && OnlyEmptyText(events)
  {
    PersistedEqualsStreamed(responseId, events, End.Finished);
    CollectedIs(responseId, events);
    var r := After(responseId, events);
    if r.collected == [] {
      var note := if r.thinking != [] then THOUGHT_ONLY else EMPTY_REPLY;
      assert ([] + [note])[..0] == [] && |note| > 0;
    }
  }

  /** A turn that ends cleanly is never silent: the provider's client sends no empty answer chunk, and
      a turn without any says why. */
  lemma NeverSilent(responseId: string, events: seq<Event>)
    requires forall i :: 0 <= i < |events| && events[i].Text? ==> events[i].text != ""
    ensures var r := Closed(After(responseId, events), End.Finished);
            LedgerText(r.frames) != "" && Joined(r.collected) == LedgerText(r.frames)
  {
    SilentExactly(responseId, events);
    PersistedEqualsStreamed(responseId, events, End.Finished);
  }

  // ---- against the provider's events -----------------------------------------------------

  /** The answer text the provider sent, and its thinking. */
  function AnswerOf(events: seq<Event>): string {
    if events == [] then ""
    else
      var last := events[|events| - 1];
      AnswerOf(events[..|events| - 1]) + if last.Text? then last.text else ""
  }

  function ThoughtsOf(events: seq<Event>): string {
    if events == [] then ""
    else
      var last := events[|events| - 1];
      ThoughtsOf(events[..|events| - 1]) + if last.Thought? then last.text else ""
  }

  predicate AnyThought(events: seq<Event>) {
    exists i :: 0 <= i < |events| && events[i].Thought?
  }

  /** The last usage reported, if any was. */
  ghost predicate IsLastUsage(events: seq<Event>, usage: Option<(int, int)>) {
    match usage
    case None => forall i :: 0 <= i < |events| ==> !events[i].UsageReport?
    case Some((input, output)) =>
      exists i :: 0 <= i < |events| && events[i] == UsageReport(input, output) && LastReportAt(events, i)
  }

  predicate LastReportAt(events: seq<Event>, i: nat) {
    forall k :: i < k < |events| ==> !events[k].UsageReport?
  }

  lemma {:induction false} Collects(responseId: string, events: seq<Event>)
    ensures var r := After(responseId, events);
            && Joined(r.collected) == AnswerOf(events) && Joined(r.thinking) == ThoughtsOf(events)
            && (r.thinking != [] <==> AnyThought(events))
  {
    if events != [] {
      var init, last := events[..|events| - 1], events[|events| - 1];
      var r := After(responseId, init);
      Collects(responseId, init);
      AnyOne(init, last, events);
      match last
      case Text(text) => JoinedOne(r.collected, text);
      case Thought(text) => JoinedOne(r.thinking, text);
      case UsageReport(_, _) =>
    }
  }

  lemma AnyOne(init: seq<Event>, last: Event, events: seq<Event>)
    requires events == init + [last]
    ensures AnyThought(events) <==> AnyThought(init) || last.Thought?
  {
    assert events[|init|] == last && forall i :: 0 <= i < |init| ==> events[i] == init[i];
  }

  lemma {:induction false} UsageIsLast(responseId: string, events: seq<Event>)
    ensures IsLastUsage(events, After(responseId, events).usage)
  {
    if events != [] {
      var n := |events| - 1;
      UsageIsLast(responseId, events[..n]);
      var usage := After(responseId, events[..n]).usage;
      if events[n].UsageReport? {
        assert LastReportAt(events, n);
      } else if usage.Some? {
        var i :| 0 <= i < n && events[..n][i] ==
            UsageReport(usage.value.0, usage.value.1) && LastReportAt(events[..n], i);
        assert LastReportAt(events, i) by {
          assert forall k :: i < k < n ==> events[k] == events[..n][k];
        }
      } else {
        assert forall i :: 0 <= i < n ==> events[i] == events[..n][i];
      }
    }
  }

  /** The note a cleanly ended turn without an answer shows: another one if it was still thinking. */
  function NoteFor(events: seq<Event>, end: End): string {
    if !NoText(events) || !end.Finished? then ""
    else if AnyThought(events) then THOUGHT_ONLY
    else EMPTY_REPLY
  }

  /** The ledger streams, and the turn persists, exactly the text the provider sent, with a note if
      there was none and the stream ended cleanly, and exactly its thinking. */
  lemma StreamIsAnswer(responseId: string, events: seq<Event>, end: End)
    ensures var r := Closed(After(responseId, events), end);
            && LedgerText(r.frames) == Joined(r.collected) == AnswerOf(events) + NoteFor(events, end)
            && ThoughtText(r.frames) == Joined(r.thinking) == ThoughtsOf(events)
            && (HasThought(r.frames) <==> AnyThought(events))
  {
    PersistedEqualsStreamed(responseId, events, end);
    Collects(responseId, events);
    CollectedIs(responseId, events);
    var r := After(responseId, events);
    if r.collected == [] && end.Finished? {
      JoinedOne(r.collected, NoteFor(events, end));
    } else {
      assert Joined(r.collected) + "" == Joined(r.collected);
    }
  }

  /** How the turn ended is what its finish is told: aborted exactly when it was cancelled, the error if
      it failed, the last usage the provider reported. */
  lemma OutcomeExactly(responseId: string, events: seq<Event>, end: End)
    ensures var o := OutcomeOf(Closed(After(responseId, events), end), end);
            && (o.aborted <==> end == Cancelled) && o.capNote == None
            && (if end.Failed? then o.error == Some(end.message) else o.error == None)
            && IsLastUsage(events, o.usage)
            && o.extraParts == (if AnyThought(events) then [ThinkContent(ThoughtsOf(events))] else [])
  {
    UsageIsLast(responseId, events);
    Collects(responseId, events);
  }

  // ---- every delta finds its step --------------------------------------------------------

  /** Frame `k` opens the step that delta `i` belongs to, of the delta's kind. */
  predicate StepOf(frames: seq<Frame>, k: nat, i: nat) {
    && k < i < |frames| && frames[i].Delta? && frames[k].OpenStep? && frames[k].stepId == frames[i].stepId
    && (frames[k].thinking <==> frames[i].channel == ReasoningDelta)
  }

  /** Each delta comes after the frame that opened its step: a client drops one that does not. */
  ghost predicate DeltasPlaced(frames: seq<Frame>) {
    forall i :: 0 <= i < |frames| && frames[i].Delta? ==> exists k: nat :: StepOf(frames, k, i)
  }

  lemma PlacedMore(frames: seq<Frame>, f: Frame, k: nat)
    requires DeltasPlaced(frames) && (f.Delta? ==> StepOf(frames + [f], k, |frames|))
    ensures DeltasPlaced(frames + [f])
  {
    var all := frames + [f];
    forall i | 0 <= i < |all| && all[i].Delta? ensures exists k: nat :: StepOf(all, k, i) {
      if i < |frames| {
        var k: nat :| StepOf(frames, k, i);
        assert StepOf(all, k, i);
      }
    }
  }

  /** The frames a turn's ledger starts with. */
  function Opening(responseId: string, user: Message): seq<Frame> {
    [Created(user), OpenStep(StepId(responseId, "0"), 0, false)]
  }

  /** The text step is open, and the think step as soon as there was a thought. */
  ghost predicate Placed(user: Message, r: Reply) {
    var frames := Opening(r.responseId, user) + r.frames;
    && DeltasPlaced(frames)
    && (r.thinking != [] ==> exists k: nat :: ThinkStepAt(frames, k, r.responseId))
  }

  predicate ThinkStepAt(frames: seq<Frame>, k: nat, responseId: string) {
    k < |frames| && frames[k] == ThinkStep(responseId)
  }

  lemma SaidPlaced(user: Message, r: Reply, text: string)
    requires Placed(user, r)
    ensures Placed(user, Said(r, text))
  {
    var frames, f := Opening(r.responseId, user) + r.frames, MessageDeltaFrame(r.responseId, text);
    assert frames + [f] == Opening(r.responseId, user) + Said(r, text).frames;
    assert StepOf(frames + [f], 1, |frames|);
    PlacedMore(frames, f, 1);
    if k: nat :| ThinkStepAt(frames, k, r.responseId) {
      assert ThinkStepAt(frames + [f], k, r.responseId);
    }
  }

  lemma ThoughtPlaced(user: Message, r: Reply, text: string)
    requires Placed(user, r)
    ensures Placed(user, ThoughtOf(r, text))
  {
    var frames, f := Opening(r.responseId, user) + r.frames, ReasoningDeltaFrame(r.responseId, text);
    if r.thinking == [] {
      var step := ThinkStep(r.responseId);
      PlacedMore(frames, step, 0);
      ThoughtAfter(frames + [step], f, |frames|, r.responseId, text);
      assert (frames + [step]) + [f] == Opening(r.responseId, user) + ThoughtOf(r, text).frames;
    } else {
      var k: nat :| ThinkStepAt(frames, k, r.responseId);
      ThoughtAfter(frames, f, k, r.responseId, text);
      assert frames + [f] == Opening(r.responseId, user) + ThoughtOf(r, text).frames;
    }
  }

  lemma ThoughtAfter(frames: seq<Frame>, f: Frame, k: nat, responseId: string, text: string)
    requires DeltasPlaced(frames) && ThinkStepAt(frames, k, responseId) && f == ReasoningDeltaFrame(responseId, text)
    ensures DeltasPlaced(frames + [f]) && ThinkStepAt(frames + [f], k, responseId)
  {
    assert StepOf(frames + [f], k, |frames|);
    PlacedMore(frames, f, k);
  }

  /** In the ledger of a plain turn every delta comes after the frame that opened its step, text and
      thinking each on a step of their own kind. */
  lemma {:induction false} DeltasFindTheirStep(responseId: string, events: seq<Event>, end: End, sid: StreamId,
                                               createdAt: int, user: Message)
    ensures Placed(user, After(responseId, events))
    ensures var job := P.NewJob(sid, createdAt, user, responseId);
            DeltasPlaced(job.frames + Closed(After(responseId, events), end).frames)
    ensures After(responseId, events).responseId == responseId
  {
    var r := After(responseId, events);
    if events == [] {
      var opening := Opening(responseId, user);
      assert opening + r.frames == opening;
      assert DeltasPlaced(opening);
    } else {
      var init, last := events[..|events| - 1], events[|events| - 1];
      DeltasFindTheirStep(responseId, init, end, sid, createdAt, user);
      match last
      case Text(text) => SaidPlaced(user, After(responseId, init), text);
      case Thought(text) => ThoughtPlaced(user, After(responseId, init), text);
      case UsageReport(_, _) =>
    }
    if r.collected == [] && end.Finished? {
      SaidPlaced(user, r, if r.thinking != [] then THOUGHT_ONLY else EMPTY_REPLY);
    }
    assert [] + [Created(user)] == [Created(user)];
    assert P.NewJob(sid, createdAt, user, responseId).frames == Opening(responseId, user);
  }

  // ---- the worker as it runs -------------------------------------------------------------

  class Worker {
    const responseId: string
    var collected: seq<string>
    var thinking: seq<string>
    var usage: Option<(int, int)>
    var frames: seq<Frame>

    ghost function View(): Reply
      reads this
    {
      Reply(responseId, collected, thinking, usage, frames)
    }

    constructor (responseId: string)
      ensures View() == After(responseId, [])
    {
      this.responseId := responseId;
      collected := [];
      thinking := [];
      usage := None;
      frames := [];
    }

    method Append(frame: Frame)
      modifies this`frames
      ensures frames == old(frames) + [frame]
    {
      frames := frames + [frame];
    }

    method Think(text: string)
      modifies this
      ensures View() == ThoughtOf(old(View()), text)
    {
      if thinking == [] {
        Append(ThinkStep(responseId));
      }
      thinking := thinking + [text];
      Append(ReasoningDeltaFrame(responseId, text));
    }

    method Say(text: string)
      modifies this
      ensures View() == Said(old(View()), text)
    {
      collected := collected + [text];
      Append(MessageDeltaFrame(responseId, text));
    }

    /** Follow a provider's stream to its end; the outcome is what the turn's finish is called with. */
    method RunTurn(events: seq<Event>, end: End) returns (text: string, outcome: P.Outcome)
      requires View() == After(responseId, [])
      modifies this
      ensures View() == Closed(After(responseId, events), end)
      ensures outcome == OutcomeOf(View(), end) && text == LedgerText(frames)
    {
      for i := 0 to |events|
        invariant View() == After(responseId, events[..i])
      {
        assert events[..i + 1][..i] == events[..i];
        match events[i]
        case Text(text) => Say(text);
        case Thought(text) => Think(text);
        case UsageReport(input, output) => usage := Some((input, output));
      }
      assert events[..|events|] == events;
      if collected == [] && end.Finished? {
        Say(if thinking != [] then THOUGHT_ONLY else EMPTY_REPLY);
      }
      PersistedEqualsStreamed(responseId, events, end);
      text := Joined(collected);
      outcome := OutcomeOf(Reply(responseId, collected, thinking, usage, frames), end);
    }
  }
}
