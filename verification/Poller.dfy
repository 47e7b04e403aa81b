/** The host's live feed: a replay page is served, a poller claims the stream at the page's end, and
    pushes every later batch until the turn is over or a newer claim supersedes it. */
module Poller {
  import opened Options
  import opened Wire
  import opened Coalesce
  import opened PlatformStore
  import opened TurnProtocol
  import opened TurnInvariant
  import opened TurnSafety

  /** `Fresh`: the replay page is read, the stream not yet claimed. `Holding`: a page came back from
      the engine and the claim is about to be checked again. `Closing`: the loop is left, the claim
      not yet given back. */
  datatype Phase =
    | Fresh
    | Idle
    | Holding(page: Page)
    | Closing(failed: bool)
    | Superseded
    | Exited(failed: bool)

  /** One replay and the poller it started. `served` is the page and every batch pushed since. The
      poller's generation is its position in the host's list. */
  datatype Feed = Feed(streamId: StreamId, cursor: int, after: int, served: seq<Event>, phase: Phase)

  datatype Host = Host(engine: State, claims: map<StreamId, nat>, feeds: seq<Feed>)

  datatype HostStep =
    | Engine(step: Step)
    | Replay(streamId: StreamId, cursor: int, rows: seq<EventRow>)
    | Claim(g: nat)
    | Call(g: nat, rows: seq<EventRow>)
    | Miss(g: nat)
    | Emit(g: nat)
    | GiveUp(g: nat)
    | StandDown(g: nat)
    | Release(g: nat)

  /** Where the live feed resumes: the page's last seq, or the cursor it was served from. */
  function ResumeCursor(after: int, events: seq<Event>): int {
    if events == [] then after else events[|events| - 1].seqNo
  }

  predicate Owns(claims: map<StreamId, nat>, streamId: StreamId, g: nat) {
    streamId in claims && claims[streamId] == g
  }

  /** What the loop does with a page: push it, unless it is an empty page of a running turn or the
      claim was lost meanwhile; leave after an empty page of a finished turn. */
  function Pushed(claims: map<StreamId, nat>, g: nat, feed: Feed, page: Page): Feed {
    var terminal, drained := page.status != Known(Active), page.events == [];
    if drained && !terminal then feed.(phase := Idle)
    else if !Owns(claims, feed.streamId, g) then feed.(phase := Superseded)
    else feed.(after := ResumeCursor(feed.after, page.events), served := feed.served + page.events,
               phase := if terminal && drained then Closing(false) else Idle)
  }

  /** The exit gives the claim back only if it is still this poller's. */
  function Released(claims: map<StreamId, nat>, g: nat, streamId: StreamId): map<StreamId, nat> {
    if Owns(claims, streamId, g) then claims - {streamId} else claims
  }

  /** The engine's answer to a page request, once a dead turn has been settled. */
  function Answer(s: State, streamId: StreamId, rows: seq<EventRow>, after: int): Page
    requires streamId in s.registry ==> s.registry[streamId] < |s.heap|
  {
    if streamId in s.registry then MemoryPage(s.heap[s.registry[streamId]], after)
    else StorePage(s.docs, streamId, rows, after)
  }

  ghost predicate CanAnswer(s: State, streamId: StreamId, rows: seq<EventRow>) {
    if streamId in s.registry then s.registry[streamId] < |s.heap|
    else !StillOpen(s.docs, streamId) && IsListing(s.docs.events, streamId, rows)
  }

  ghost predicate CanTake(h: Host, step: HostStep) {
    match step
    case Engine(e) => Enabled(h.engine, e)
    case Replay(sid, _, rows) => CanAnswer(h.engine, sid, rows)
    case Claim(g) => g < |h.feeds| && h.feeds[g].phase.Fresh?
    case Call(g, rows) =>
      && g < |h.feeds| && h.feeds[g].phase.Idle? && Owns(h.claims, h.feeds[g].streamId, g)
      && CanAnswer(h.engine, h.feeds[g].streamId, rows)
    case Miss(g) => g < |h.feeds| && h.feeds[g].phase.Idle?
    case Emit(g) => g < |h.feeds| && h.feeds[g].phase.Holding?
    case GiveUp(g) => g < |h.feeds| && h.feeds[g].phase.Idle?
    case StandDown(g) => g < |h.feeds| && h.feeds[g].phase.Idle? && !Owns(h.claims, h.feeds[g].streamId, g)
    case Release(g) => g < |h.feeds| && h.feeds[g].phase.Closing?
  }

  function SetFeed(h: Host, g: nat, feed: Feed): Host
    requires g < |h.feeds|
  {
    h.(feeds := h.feeds[g := feed])
  }

  ghost function Take(h: Host, step: HostStep): Host
    requires CanTake(h, step)
  {
    match step
    case Engine(e) => h.(engine := Apply(h.engine, e))
    case Replay(sid, cursor, rows) =>
      var events := Answer(h.engine, sid, rows, cursor).events;
      h.(feeds := h.feeds + [Feed(sid, cursor, ResumeCursor(cursor, events), events, Fresh)])
    case Claim(g) => SetFeed(h, g, h.feeds[g].(phase := Idle)).(claims := h.claims[h.feeds[g].streamId := g])
    case Call(g, rows) =>
      SetFeed(h, g, h.feeds[g].(phase := Holding(Answer(h.engine, h.feeds[g].streamId, rows, h.feeds[g].after))))
    case Miss(g) => h
    case Emit(g) => SetFeed(h, g, Pushed(h.claims, g, h.feeds[g], h.feeds[g].phase.page))
    case GiveUp(g) =>
      SetFeed(h, g, h.feeds[g].(phase := if Owns(h.claims, h.feeds[g].streamId, g) then Closing(true) else Superseded))
    case StandDown(g) => SetFeed(h, g, h.feeds[g].(phase := Superseded))
    case Release(g) =>
      SetFeed(h, g, h.feeds[g].(phase := Exited(h.feeds[g].phase.failed)))
        .(claims := Released(h.claims, g, h.feeds[g].streamId))
  }

  ghost predicate IsHostRun(h: Host, steps: seq<HostStep>)
    decreases |steps|
  {
    steps == [] || (CanTake(h, steps[0]) && IsHostRun(Take(h, steps[0]), steps[1..]))
  }

  ghost function HostAfter(h: Host, steps: seq<HostStep>): Host
    requires IsHostRun(h, steps)
    decreases |steps|
  {
    if steps == [] then h else HostAfter(Take(h, steps[0]), steps[1..])
  }

  // ---- one turn, seen from outside -------------------------------------------------------

  /** What a reader of the stream sees: the registered job's frames, else the stored ledger of a
      settled turn. */
  ghost predicate Visible(s: State, sid: StreamId, status: Status, ledger: seq<Frame>) {
    if sid in s.registry then
      && s.registry[sid] < |s.heap|
      && status == s.heap[s.registry[sid]].status && ledger == s.heap[s.registry[sid]].frames
    else
      && sid in s.docs.turns && s.docs.turns[sid].status == status && status != Active
      && EventsOf(s.docs.events, sid) == LedgerRows(sid, ledger, 0)
  }

  /** The engine step stays within the stream's current turn and process, and does not evict a job
      whose terminal commit failed. */
  predicate WithinTurn(s: State, step: Step, sid: StreamId)
    requires sid in s.registry ==> s.registry[sid] < |s.heap|
  {
    match step
    case Crash => false
    case Reserve(other, _, _, _, evicted) =>
      other != sid && (sid in evicted && sid in s.registry ==> s.heap[s.registry[sid]].phase.Settled?)
    case OpenFail(j) => j < |s.heap| && s.heap[j].streamId != sid
    case _ => true
  }

  lemma AnswerIsPage(s: State, sid: StreamId, rows: seq<EventRow>, after: int, status: Status, ledger: seq<Frame>)
    requires CanAnswer(s, sid, rows) && Visible(s, sid, status, ledger)
    ensures Answer(s, sid, rows, after) == PageOf(status, ledger, after)
  {
    if sid !in s.registry {
      StorePageIs(s.docs, sid, ledger, rows, after);
    }
  }

  /** Within a turn the visible ledger only grows, and a finished one does not change: not even when
      the job is evicted and the store takes over. */
  lemma VisibleGrows(s: State, step: Step, sid: StreamId, status: Status, ledger: seq<Frame>)
      returns (status': Status, ledger': seq<Frame>)
    requires Inv(s) && Enabled(s, step) && Visible(s, sid, status, ledger) && WithinTurn(s, step, sid)
    ensures Visible(Apply(s, step), sid, status', ledger') && ledger <= ledger'
    ensures status != Active ==> status' == status && ledger' == ledger
  {
    var s' := Apply(s, step);
    status', ledger' := status, ledger;
    if sid !in s.registry {
      SettledRowsStay(s, step, sid);
    } else if sid in s'.registry {
      VisibleJobGrows(s, step, sid);
      status', ledger' := s'.heap[s'.registry[sid]].status, s'.heap[s'.registry[sid]].frames;
    } else {
      EvictedStays(s, step, sid);
    }
  }

  /** Evicting a job whose terminal commit succeeded: the store shows what the memory did. */
  lemma EvictedStays(s: State, step: Step, sid: StreamId)
    requires Inv(s) && Enabled(s, step) && sid in s.registry && s.registry[sid] < |s.heap|
    requires WithinTurn(s, step, sid) && sid !in Apply(s, step).registry
    ensures Visible(Apply(s, step), sid, s.heap[s.registry[sid]].status, s.heap[s.registry[sid]].frames)
  {
    var job := s.heap[s.registry[sid]];
    assert RegistryOk(s, sid) && JobOk(s, s.registry[sid]) && StreamOk(s, sid);
    assert step.Reserve? && sid in step.evicted;
    var l :| Stored(s.docs, job, l);
  }

  lemma VisibleJobGrows(s: State, step: Step, sid: StreamId)
    requires Inv(s) && Enabled(s, step) && sid in s.registry && s.registry[sid] < |s.heap|
    requires WithinTurn(s, step, sid) && sid in Apply(s, step).registry
    ensures Apply(s, step).registry[sid] == s.registry[sid]
    ensures var job, job' := s.heap[s.registry[sid]], Apply(s, step).heap[s.registry[sid]];
            job.frames <= job'.frames && (job.status != Active ==> job' == job)
  {
    assert RegistryOk(s, sid) && JobOk(s, s.registry[sid]);
  }

  /** A settled stream without a job keeps its rows and its turn row. */
  lemma SettledRowsStay(s: State, step: Step, sid: StreamId)
    requires Inv(s) && Enabled(s, step) && sid !in s.registry && sid in s.docs.turns
    requires s.docs.turns[sid].status != Active && WithinTurn(s, step, sid)
    ensures sid !in Apply(s, step).registry
    ensures EventsOf(Apply(s, step).docs.events, sid) == EventsOf(s.docs.events, sid)
    ensures sid in Apply(s, step).docs.turns && Apply(s, step).docs.turns[sid] == s.docs.turns[sid]
  {
    match step
    case OpenCommit(j) =>
      var job := s.heap[j];
      assert JobOk(s, j);
      CommitSpares(s.docs, {job.streamId}, OpeningRows(job, job.phase.userMessage), job.streamId, job.userMessageId,
          sid, job.userMessageId + "x");
    case CommitBatch(j) =>
      var job := s.heap[j];
      var ledger := LiveStored(s, j);
      CommitSpares(s.docs, {}, Batch(None, None, job.phase.batch), job.streamId, "", sid, "x");
    case CommitFinish(j) =>
      var job := s.heap[j];
      var ledger := LiveStored(s, j);
      CommitSpares(s.docs, {}, TerminalRows(job, job.phase.backup, job.phase.outcome), job.streamId, job.responseId,
          sid, job.responseId + "x");
    case Reconcile(dead, rows) =>
      var ledger := DeadStored(s, dead);
      var turn := s.docs.turns[dead];
      CommitSpares(s.docs, {}, ReconcileRows(turn, rows), dead, turn.responseId, sid, turn.responseId + "x");
    case _ =>
  }

  // ---- exactly-once tiling ---------------------------------------------------------------

  /** The feed's page and pushes tile the visible ledger from the client's cursor up to `after`, and
      a page in hand continues there. A cursor beyond the ledger has been served nothing. */
  ghost predicate Covers(feed: Feed, status: Status, ledger: seq<Frame>) {
    && Served(feed.cursor, feed.after, feed.served, ledger)
    && (feed.phase.Holding? ==> exists st, seen :: InHand(feed, status, ledger, st, seen))
    && (feed.phase == Closing(false) || feed.phase == Exited(false) ==>
        status != Active && From(feed.after) >= |ledger|)
  }

  /** Negative cursors read from the start. */
  function From(after: int): nat {
    if after < 0 then 0 else after
  }

  ghost predicate Served(cursor: int, after: int, served: seq<Event>, ledger: seq<Frame>) {
    var lo, hi := From(cursor), From(after);
    && after == ResumeCursor(cursor, served)
    && (lo <= |ledger| ==> lo <= hi <= |ledger| && Tiles(served, ledger, lo, hi))
    && (lo > |ledger| ==> served == [])
  }

  /** The page in hand was read from an earlier, shorter view of the same turn. */
  ghost predicate InHand(feed: Feed, status: Status, ledger: seq<Frame>, st: Status, seen: seq<Frame>) {
    && feed.phase.Holding? && seen <= ledger && feed.phase.page == PageOf(st, seen, feed.after)
    && (st != Active ==> status == st && seen == ledger)
  }

  lemma CoversGrows(feed: Feed, status: Status, ledger: seq<Frame>, status': Status, ledger': seq<Frame>)
    requires Covers(feed, status, ledger) && ledger <= ledger'
    requires status != Active ==> status' == status && ledger' == ledger
    ensures Covers(feed, status', ledger')
  {
    var lo, hi := From(feed.cursor), From(feed.after);
    if lo <= |ledger| {
      TilesGrow(feed.served, ledger, ledger', lo, hi);
    }
    if feed.phase.Holding? {
      var st, seen :| InHand(feed, status, ledger, st, seen);
      assert InHand(feed, status', ledger', st, seen);
    }
  }

  /** A page served at `after` tiles the ledger from there to its end. */
  lemma PageTiles(ledger: seq<Frame>, status: Status, after: int)
    requires From(after) <= |ledger|
    ensures var lo, events := From(after), PageOf(status, ledger, after).events;
            && Tiles(events, ledger, lo, |ledger|)
            && (events == [] ==> lo == |ledger|)
            && (events != [] ==> events[|events| - 1].seqNo == |ledger|)
  {
    CoalescedTiles(ledger, From(after), |ledger|);
  }

  lemma PageBeyondEmpty(ledger: seq<Frame>, status: Status, after: int)
    requires after > |ledger|
    ensures PageOf(status, ledger, after).events == []
  {
    assert Window(ledger, |ledger|, |ledger|) == [];
  }

  lemma ReplayCovers(sid: StreamId, cursor: int, status: Status, ledger: seq<Frame>)
    ensures var events := PageOf(status, ledger, cursor).events;
            Covers(Feed(sid, cursor, ResumeCursor(cursor, events), events, Fresh), status, ledger)
  {
    if From(cursor) <= |ledger| {
      PageTiles(ledger, status, cursor);
    } else {
      PageBeyondEmpty(ledger, status, cursor);
    }
  }

  /** Pushing a page read from an earlier view of the turn continues the tiling. */
  lemma PushServes(cursor: int, after: int, served: seq<Event>, st: Status, seen: seq<Frame>, ledger: seq<Frame>)
    requires Served(cursor, after, served, ledger) && seen <= ledger
    ensures var events := PageOf(st, seen, after).events;
            && Served(cursor, ResumeCursor(after, events), served + events, ledger)
            && (events == [] ==> From(after) >= |seen|)
  {
    var lo, hi, events := From(cursor), From(after), PageOf(st, seen, after).events;
    if hi <= |seen| {
      PageTiles(seen, st, after);
      TilesGrow(events, seen, ledger, hi, |seen|);
      if lo <= |ledger| {
        TilesJoin(served, events, ledger, lo, hi, |seen|);
      }
    } else {
      PageBeyondEmpty(seen, st, after);
      assert served + events == served;
    }
  }

  lemma EmitCovers(claims: map<StreamId, nat>, g: nat, feed: Feed, status: Status, ledger: seq<Frame>)
    requires Covers(feed, status, ledger) && feed.phase.Holding?
    ensures Covers(Pushed(claims, g, feed, feed.phase.page), status, ledger)
  {
    var st, seen :| InHand(feed, status, ledger, st, seen);
    PushServes(feed.cursor, feed.after, feed.served, st, seen, ledger);
  }

  /** Every step of the composed system that stays within the turn keeps a feed's tiling, for every
      interleaving with the engine, other pollers and superseding claims. */
  lemma StepCovers(h: Host, step: HostStep, g: nat, status: Status, ledger: seq<Frame>)
      returns (status': Status, ledger': seq<Frame>)
    requires Inv(h.engine) && CanTake(h, step) && g < |h.feeds|
    requires Visible(h.engine, h.feeds[g].streamId, status, ledger) && Covers(h.feeds[g], status, ledger)
    requires step.Engine? ==> WithinTurn(h.engine, step.step, h.feeds[g].streamId)
    ensures Inv(Take(h, step).engine)
    ensures g < |Take(h, step).feeds| && Take(h, step).feeds[g].streamId == h.feeds[g].streamId
    ensures Take(h, step).feeds[g].cursor == h.feeds[g].cursor
    ensures Visible(Take(h, step).engine, h.feeds[g].streamId, status', ledger')
    ensures Covers(Take(h, step).feeds[g], status', ledger') && ledger <= ledger'
  {
    status', ledger' := status, ledger;
    if step.Engine? {
      status', ledger' := EngineCovers(h, step.step, g, status, ledger);
    } else {
      FeedCovers(h, step, g, status, ledger);
    }
  }

  lemma EngineCovers(h: Host, e: Step, g: nat, status: Status, ledger: seq<Frame>)
      returns (status': Status, ledger': seq<Frame>)
    requires Inv(h.engine) && Enabled(h.engine, e) && g < |h.feeds|
    requires Visible(h.engine, h.feeds[g].streamId, status, ledger) && Covers(h.feeds[g], status, ledger)
    requires WithinTurn(h.engine, e, h.feeds[g].streamId)
    ensures Inv(Apply(h.engine, e)) && Visible(Apply(h.engine, e), h.feeds[g].streamId, status', ledger')
    ensures Covers(h.feeds[g], status', ledger') && ledger <= ledger'
  {
    StepKeeps(h.engine, e);
    status', ledger' := VisibleGrows(h.engine, e, h.feeds[g].streamId, status, ledger);
    CoversGrows(h.feeds[g], status, ledger, status', ledger');
  }

  lemma FeedCovers(h: Host, step: HostStep, g: nat, status: Status, ledger: seq<Frame>)
    requires CanTake(h, step) && !step.Engine? && g < |h.feeds|
    requires Visible(h.engine, h.feeds[g].streamId, status, ledger) && Covers(h.feeds[g], status, ledger)
    ensures Take(h, step).engine == h.engine && g < |Take(h, step).feeds|
    ensures Take(h, step).feeds[g].streamId == h.feeds[g].streamId && Take(h, step).feeds[g].cursor == h.feeds[g].cursor
    ensures Covers(Take(h, step).feeds[g], status, ledger)
  {
    var feed := h.feeds[g];
    if step == Emit(g) {
      EmitCovers(h.claims, g, feed, status, ledger);
    } else if step.Call? && step.g == g {
      CallCovers(h, step.rows, g, status, ledger);
    }
  }

  lemma CallCovers(h: Host, rows: seq<EventRow>, g: nat, status: Status, ledger: seq<Frame>)
    requires CanTake(h, Call(g, rows))
    requires Visible(h.engine, h.feeds[g].streamId, status, ledger) && Covers(h.feeds[g], status, ledger)
    ensures Covers(Take(h, Call(g, rows)).feeds[g], status, ledger)
  {
    AnswerIsPage(h.engine, h.feeds[g].streamId, rows, h.feeds[g].after, status, ledger);
    assert InHand(Take(h, Call(g, rows)).feeds[g], status, ledger, status, ledger);
  }
}
