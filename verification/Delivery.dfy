/** What a follower gets over whole runs: exactly-once delivery, and what superseding means. */
module Delivery {
  import opened Wire
  import opened Coalesce
  import opened PlatformStore
  import opened TurnProtocol
  import opened TurnInvariant
  import opened TurnSafety
  import opened Poller

  /** The run from `h` stays within the turn of `sid` and within one engine process. */
  ghost predicate RunWithinTurn(h: Host, steps: seq<HostStep>, sid: StreamId)
    requires IsHostRun(h, steps)
    decreases |steps|
  {
    steps == []
    || ((steps[0].Engine? ==> (sid in h.engine.registry ==> h.engine.registry[sid] < |h.engine.heap|)
                              && WithinTurn(h.engine, steps[0].step, sid))
        && RunWithinTurn(Take(h, steps[0]), steps[1..], sid))
  }

  lemma {:induction false} RunCovers(h: Host, steps: seq<HostStep>, g: nat, status: Status, ledger: seq<Frame>)
      returns (status': Status, ledger': seq<Frame>)
    requires Inv(h.engine) && IsHostRun(h, steps) && g < |h.feeds|
    requires Visible(h.engine, h.feeds[g].streamId, status, ledger) && Covers(h.feeds[g], status, ledger)
    requires RunWithinTurn(h, steps, h.feeds[g].streamId)
    ensures var h' := HostAfter(h, steps);
            && Inv(h'.engine) && g < |h'.feeds| && h'.feeds[g].streamId == h.feeds[g].streamId
            && h'.feeds[g].cursor == h.feeds[g].cursor
            && Visible(h'.engine, h.feeds[g].streamId, status', ledger') && Covers(h'.feeds[g], status', ledger')
    decreases |steps|
  {
    if steps == [] {
      status', ledger' := status, ledger;
    } else {
      var st, l := StepCovers(h, steps[0], g, status, ledger);
      status', ledger' := RunCovers(Take(h, steps[0]), steps[1..], g, st, l);
    }
  }

  /** Exactly-once delivery. A replay from any cursor of any stream with a turn, followed by any run
      within that turn: the page and the pushes of its own poller cut the ledger between the cursor
      and `after` into consecutive intervals, each delivered as one event that is the batch of its
      interval; together they render as the raw frames do; and a poller that left normally has
      delivered everything up to the final frame. */
  lemma ExactlyOnceDelivery(h: Host, sid: StreamId, cursor: int, rows: seq<EventRow>, steps: seq<HostStep>)
      returns (ledger: seq<Frame>)
    requires Reachable(h.engine) && CanTake(h, Replay(sid, cursor, rows))
    requires sid in h.engine.registry || sid in h.engine.docs.turns
    requires IsHostRun(Take(h, Replay(sid, cursor, rows)), steps)
    requires RunWithinTurn(Take(h, Replay(sid, cursor, rows)), steps, sid)
    ensures var h' := HostAfter(Take(h, Replay(sid, cursor, rows)), steps);
            var lo := From(cursor);
            && |h.feeds| < |h'.feeds|
            && var feed := h'.feeds[|h.feeds|];
               var hi := From(feed.after);
               && (exists status :: Visible(h'.engine, sid, status, ledger))
               && (lo <= |ledger| ==>
                     && lo <= hi <= |ledger| && Tiles(feed.served, ledger, lo, hi)
                     && Render(feed.served) == Render(Window(ledger, lo, hi))
                     && Coalesced(feed.served) == Coalesced(Window(ledger, lo, hi)))
               && (lo > |ledger| ==> feed.served == [])
               && (feed.phase == Exited(false) ==>
                     hi >= |ledger| && ledger != [] && ledger[|ledger| - 1].Final?)
  {
    ReachableHolds(h.engine);
    var status0, ledger0 := SomeVisible(h.engine, sid, rows);
    AnswerIsPage(h.engine, sid, rows, cursor, status0, ledger0);
    ReplayCovers(sid, cursor, status0, ledger0);
    var status, l := RunCovers(Take(h, Replay(sid, cursor, rows)), steps, |h.feeds|, status0, ledger0);
    ledger := l;
    var h' := HostAfter(Take(h, Replay(sid, cursor, rows)), steps);
    var feed := h'.feeds[|h.feeds|];
    var lo, hi := From(cursor), From(feed.after);
    if lo <= |ledger| {
      TilesShow(feed.served, ledger, lo, hi);
    }
    if status != Active {
      FinishedEndsInFinal(h'.engine, sid, status, ledger);
    }
  }

  lemma SomeVisible(s: State, sid: StreamId, rows: seq<EventRow>) returns (status: Status, ledger: seq<Frame>)
    requires Inv(s) && CanAnswer(s, sid, rows) && (sid in s.registry || sid in s.docs.turns)
    ensures Visible(s, sid, status, ledger)
  {
    assert StreamOk(s, sid);
    if sid in s.registry {
      status, ledger := s.heap[s.registry[sid]].status, s.heap[s.registry[sid]].frames;
    } else {
      status := s.docs.turns[sid].status;
      ledger :| Stored(s.docs, s.heap[s.owner[sid]], ledger);
    }
  }

  lemma FinishedEndsInFinal(s: State, sid: StreamId, status: Status, ledger: seq<Frame>)
    requires Inv(s) && Visible(s, sid, status, ledger) && status != Active
    ensures ledger != [] && ledger[|ledger| - 1].Final?
  {
    assert StreamOk(s, sid);
    if sid in s.registry {
      assert RegistryOk(s, sid) && JobOk(s, s.registry[sid]);
      if s.heap[s.registry[sid]].phase.Settled? {
        var l :| Stored(s.docs, s.heap[s.registry[sid]], l);
      }
    } else {
      var l :| Stored(s.docs, s.heap[s.owner[sid]], l);
      LedgerRowsInjective(sid, l, ledger);
    }
  }

  // ---- superseding -----------------------------------------------------------------------

  /** A claimed feed that has lost its stream. */
  ghost predicate Lost(h: Host, g: nat)
    requires g < |h.feeds|
  {
    !h.feeds[g].phase.Fresh? && !Owns(h.claims, h.feeds[g].streamId, g)
  }

  /** A superseded poller pushes nothing more, in any run, and never takes its successor's claim
      away: once lost, the stream is not owned again and what was served stays as it is. */
  lemma {:induction false} SupersededIsSilent(h: Host, steps: seq<HostStep>, g: nat)
    requires IsHostRun(h, steps) && g < |h.feeds| && Lost(h, g)
    ensures var h' := HostAfter(h, steps);
            g < |h'.feeds| && Lost(h', g) && h'.feeds[g].served == h.feeds[g].served
    decreases |steps|
  {
    if steps != [] {
      SupersededIsSilent(Take(h, steps[0]), steps[1..], g);
    }
  }

  /** A poller's own steps never change a claim that is not its own. */
  lemma ClaimsAreRespected(h: Host, step: HostStep, g: nat, sid: StreamId)
    requires CanTake(h, step) && sid in h.claims && h.claims[sid] != g
    requires step in {Emit(g), GiveUp(g), StandDown(g), Release(g), Miss(g)} || (step.Call? && step.g == g)
    ensures sid in Take(h, step).claims && Take(h, step).claims[sid] == h.claims[sid]
  {
  }

  lemma UnsavedSettledDiffers(docs: Documents, job: Job, durable: seq<Frame>, rows: seq<EventRow>)
      returns (ledger: seq<Frame>)
    requires Stored(docs, job, durable) && job.phase.Unsaved? && JobShape(job)
    requires StillOpen(docs, job.streamId) && IsListing(docs.events, job.streamId, rows)
    ensures var docs' := Commit(docs, {}, ReconcileRows(docs.turns[job.streamId], rows));
            && job.streamId in docs'.turns && docs'.turns[job.streamId].status == Aborted
            && EventsOf(docs'.events, job.streamId) == LedgerRows(job.streamId, ledger, 0)
    ensures !(job.frames <= ledger)
  {
    ReconciledStored(docs, job, durable, rows);
    var final := Final(AbortedReply(docs.turns[job.streamId], LedgerText(durable)), true);
    ledger := durable + [final];
  }

  /** The turn's boundary matters: when a start evicts a job whose terminal commit failed and a read
      settles its stored prefix, the ledger a reader then sees does not extend the one it followed. */
  lemma UnsavedEvictionBreaksFollowers(s: State, start: Step, sid: StreamId, rows: seq<EventRow>)
      returns (ledger: seq<Frame>)
    requires Reachable(s) && start.Reserve? && Enabled(s, start) && sid in start.evicted
    requires sid in s.registry && s.registry[sid] < |s.heap| && s.heap[s.registry[sid]].phase.Unsaved?
    requires IsListing(s.docs.events, sid, rows)
    ensures Enabled(Apply(s, start), Reconcile(sid, rows))
    ensures Visible(Apply(Apply(s, start), Reconcile(sid, rows)), sid, Aborted, ledger)
    ensures !(s.heap[s.registry[sid]].frames <= ledger)
  {
    ReachableHolds(s);
    assert RegistryOk(s, sid) && JobOk(s, s.registry[sid]) && StreamOk(s, sid);
    var job := s.heap[s.registry[sid]];
    var durable :| Stored(s.docs, job, durable);
    ledger := UnsavedSettledDiffers(s.docs, job, durable, rows);
    EvictionLeaves(s, start, sid);
    var evicted := Apply(s, start);
    assert Enabled(evicted, Reconcile(sid, rows));
    var s' := Apply(evicted, Reconcile(sid, rows));
    assert s'.docs == Commit(s.docs, {}, ReconcileRows(s.docs.turns[sid], rows));
    assert sid !in s'.registry;
  }

  // ---- a feed in motion ------------------------------------------------------------------

  lemma NothingToEvict(job: Job, registry: map<StreamId, nat>)
    requires job.status == Active && forall r :: r in registry ==> registry[r] == 0
    ensures IsEviction([job], registry, {})
  {
    var jobs := [job];
    var settled := set r | r in registry && jobs[registry[r]].status != Active;
    assert settled == {};
  }

  /** A first turn opened in a fresh process. */
  lemma FirstTurn(sid: StreamId, createdAt: int, user: Message, newId: string) returns (s: State)
    requires user.id != newId
    ensures Reachable(s) && |s.heap| == 1 && s.heap[0].phase.Running?
    ensures sid in s.registry && s.registry[sid] == 0 && s.heap[0].status == Active && s.heap[0].responseId == newId
    ensures s.heap[0].frames == [Created(user), OpenStep(StepId(newId, "0"), 0, false)]
  {
    var reserve := Reserve(sid, createdAt, user, newId, {});
    var job := NewJob(sid, createdAt, user, newId);
    assert INITIAL.heap + [job] == [job];
    NothingToEvict(job, INITIAL.registry[sid := 0]);
    assert Enabled(INITIAL, reserve);
    var reserved := Apply(INITIAL, reserve);
    assert Enabled(reserved, OpenCommit(0));
    s := Apply(reserved, OpenCommit(0));
    var steps := [reserve, OpenCommit(0)];
    assert steps[1..] == [OpenCommit(0)] && steps[1..][1..] == [];
    assert IsRun(s, []) && IsRun(reserved, steps[1..]) && IsRun(INITIAL, steps);
    assert After(reserved, steps[1..]) == s;
    assert After(INITIAL, steps) == s;
  }

  /** The delivery claim is about something: a replay of that turn can be served, and its poller
      claims the stream and asks for the next page within the turn. */
  lemma FeedInMotion(sid: StreamId, createdAt: int, user: Message, newId: string)
      returns (h: Host, steps: seq<HostStep>)
    requires user.id != newId
    ensures Reachable(h.engine) && sid in h.engine.registry && CanTake(h, Replay(sid, 0, []))
    ensures |steps| == 2 && IsHostRun(Take(h, Replay(sid, 0, [])), steps)
    ensures RunWithinTurn(Take(h, Replay(sid, 0, [])), steps, sid)
    ensures var h' := HostAfter(Take(h, Replay(sid, 0, [])), steps); |h'.feeds| == 1 && h'.feeds[0].phase.Holding?
  {
    var s := FirstTurn(sid, createdAt, user, newId);
    h := Host(s, map[], []);
    var h0 := Take(h, Replay(sid, 0, []));
    steps := [Claim(0), Call(0, [])];
    var h1 := Take(h0, Claim(0));
    var h2 := Take(h1, Call(0, []));
    assert steps[1..] == [Call(0, [])] && steps[1..][1..] == [];
    assert IsHostRun(h2, []) && IsHostRun(h1, steps[1..]) && IsHostRun(h0, steps);
    assert RunWithinTurn(h2, [], sid) && RunWithinTurn(h1, steps[1..], sid);
    assert HostAfter(h1, steps[1..]) == h2;
  }
}
