/** A full registry whose oldest turn could not be saved, and the start that evicts it. */
module UnsavedEviction {
  import opened Options
  import opened Wire
  import opened PlatformStore
  import opened TurnProtocol
  import opened TurnInvariant
  import opened Delivery
  import opened Poller

  // ---- runs step by step -----------------------------------------------------------------

  lemma {:induction false} OneMoreTaken(s: State, steps: seq<Step>, step: Step)
    requires IsRun(s, steps) && Enabled(After(s, steps), step)
    ensures IsRun(s, steps + [step]) && After(s, steps + [step]) == Apply(After(s, steps), step)
    decreases |steps|
  {
    var all := steps + [step];
    if steps == [] {
      assert all == [step] && all[1..] == [];
    } else {
      OneMoreTaken(Apply(s, steps[0]), steps[1..], step);
      assert all[0] == steps[0] && all[1..] == steps[1..] + [step];
    }
  }

  lemma StepReaches(s: State, step: Step) returns (s': State)
    requires Reachable(s) && Enabled(s, step)
    ensures s' == Apply(s, step) && Reachable(s')
  {
    var steps :| IsRun(INITIAL, steps) && s == After(INITIAL, steps);
    OneMoreTaken(INITIAL, steps, step);
    s' := Apply(s, step);
    assert IsRun(INITIAL, steps + [step]);
  }

  // ---- a registry filled turn by turn ----------------------------------------------------

  /** The stream of the `i`-th turn. */
  function Tag(i: nat): (tag: StreamId)
    ensures |tag| == i
  {
    seq(i, k => 's')
  }

  function Question(i: nat): Message {
    Message("u" + Tag(i), "", Tag(i), "", [], true, false, false)
  }

  function ReplyId(i: nat): string {
    "r" + Tag(i)
  }

  const DONE := Outcome(false, None, None, None, [])

  /** `n` turns of as many streams, begun one after the other, all settled but the first, whose
      terminal commit failed. */
  ghost predicate Filled(s: State, n: nat) {
    && |s.heap| == n
    && (forall sid :: sid in s.registry ==> |sid| < n && sid == Tag(|sid|))
    && (forall i :: 0 <= i < n ==> TurnAt(s, i))
  }

  ghost predicate TurnAt(s: State, i: nat)
    requires i < |s.heap|
  {
    && Tag(i) in s.registry && s.registry[Tag(i)] == i && s.heap[i].createdAt == i
    && s.heap[i].status != Active && s.heap[i].phase == (if i == 0 then Unsaved(DONE) else Settled)
    && s.heap[i].userMessageId == "u" + Tag(i) && s.heap[i].responseId == ReplyId(i)
  }

  lemma IdsDiffer(i: nat, j: nat)
    ensures ReplyId(i) != "u" + Tag(j)
    ensures i != j ==> ReplyId(i) != ReplyId(j)
  {
    assert ReplyId(i)[0] == 'r' && ("u" + Tag(j))[0] == 'u';
    assert |ReplyId(i)| == i + 1 && |ReplyId(j)| == j + 1;
  }

  lemma FilledIsFresh(s: State, n: nat)
    requires Filled(s, n)
    ensures FreshIds(s, Question(n), ReplyId(n))
  {
    IdsDiffer(n, n);
    forall k | 0 <= k < |s.heap|
      ensures s.heap[k].responseId != ReplyId(n) && s.heap[k].userMessageId != ReplyId(n)
      ensures s.heap[k].responseId != Question(n).id
    {
      assert TurnAt(s, k);
      IdsDiffer(k, n);
      IdsDiffer(n, k);
    }
  }

  function Tags(n: nat): set<StreamId> {
    if n == 0 then {} else Tags(n - 1) + {Tag(n - 1)}
  }

  lemma {:induction false} TagsCount(n: nat)
    ensures |Tags(n)| == n
    ensures forall sid :: sid in Tags(n) <==> |sid| < n && sid == Tag(|sid|)
  {
    if n > 0 {
      TagsCount(n - 1);
    }
  }

  /** The next turn is begun on the next stream. */
  ghost predicate NextBegun(s: State, n: nat, heap: seq<Job>, registry: map<StreamId, nat>) {
    && |heap| == n + 1 && |s.heap| == n && (forall i :: 0 <= i < n ==> heap[i] == s.heap[i])
    && heap[n].status == Active && registry == s.registry[Tag(n) := n]
  }

  lemma RegistryWithin(s: State, n: nat, heap: seq<Job>, registry: map<StreamId, nat>)
    requires Filled(s, n) && NextBegun(s, n, heap, registry)
    ensures forall sid :: sid in registry ==>
              registry[sid] < |heap| && registry[sid] == |sid| && (heap[registry[sid]].status != Active <==> |sid| < n)
    ensures forall sid :: sid in Tags(n) ==> sid in registry && heap[registry[sid]].createdAt == |sid|
  {
    TagsCount(n);
    forall sid | sid in registry
      ensures registry[sid] < |heap| && registry[sid] == |sid|
      ensures heap[registry[sid]].status != Active <==> |sid| < n
    {
      if sid in s.registry {
        assert TurnAt(s, |sid|);
      }
    }
    forall sid | sid in Tags(n) ensures sid in registry && heap[registry[sid]].createdAt == |sid| {
      assert TurnAt(s, |sid|);
    }
  }

  /** Then exactly the turns before it are settled. */
  lemma SettledTags(s: State, n: nat, heap: seq<Job>, registry: map<StreamId, nat>)
    requires Filled(s, n) && NextBegun(s, n, heap, registry)
    requires forall sid :: sid in registry ==> registry[sid] < |heap|
    ensures SettledIn(heap, registry) == Tags(n)
  {
    RegistryWithin(s, n, heap, registry);
    TagsCount(n);
    forall sid | sid in registry && |sid| < n ensures sid in Tags(n) {
      assert sid in s.registry;
    }
    assert forall sid :: sid in SettledIn(heap, registry) <==> sid in Tags(n);
  }

  function EvictedAt(n: nat): set<StreamId> {
    if n <= SETTLED_JOBS_KEPT then {} else {Tag(0)}
  }

  lemma FirstGoes(s: State, n: nat, heap: seq<Job>, registry: map<StreamId, nat>, kept: StreamId)
    requires Filled(s, n) && NextBegun(s, n, heap, registry) && kept in Tags(n) && kept != Tag(0)
    ensures Tag(0) in registry && registry[Tag(0)] < |heap| && kept in registry && registry[kept] < |heap|
    ensures GoesFirst(heap[registry[Tag(0)]].createdAt, Tag(0), heap[registry[kept]].createdAt, kept)
  {
    RegistryWithin(s, n, heap, registry);
    TagsCount(n);
    assert kept == Tag(|kept|) && |kept| != 0;
    assert Tag(0) in Tags(n);
  }

  lemma NoneGoes(s: State, n: nat, heap: seq<Job>, registry: map<StreamId, nat>)
    requires Filled(s, n) && NextBegun(s, n, heap, registry) && n <= SETTLED_JOBS_KEPT
    requires forall sid :: sid in registry ==> registry[sid] < |heap|
    ensures IsEviction(heap, registry, {})
  {
    SettledTags(s, n, heap, registry);
    TagsCount(n);
  }

  /** The first goes before each of the others. */
  ghost predicate GoesBefore(heap: seq<Job>, registry: map<StreamId, nat>, out: StreamId, kept: StreamId) {
    && out in registry && registry[out] < |heap| && kept in registry && registry[kept] < |heap|
    && GoesFirst(heap[registry[out]].createdAt, out, heap[registry[kept]].createdAt, kept)
  }

  lemma OnlyOneGoes(heap: seq<Job>, registry: map<StreamId, nat>, out: StreamId)
    requires forall sid :: sid in registry ==> registry[sid] < |heap|
    requires out in SettledIn(heap, registry) && |SettledIn(heap, registry)| == SETTLED_JOBS_KEPT + 1
    requires forall kept :: kept in SettledIn(heap, registry) && kept != out ==> GoesBefore(heap, registry, out, kept)
    ensures IsEviction(heap, registry, {out})
  {
    assert |{out}| == 1;
  }

  lemma OldestGoes(s: State, n: nat, heap: seq<Job>, registry: map<StreamId, nat>)
    requires Filled(s, n) && NextBegun(s, n, heap, registry) && n == SETTLED_JOBS_KEPT + 1
    requires forall sid :: sid in registry ==> registry[sid] < |heap|
    ensures IsEviction(heap, registry, {Tag(0)})
  {
    SettledTags(s, n, heap, registry);
    TagsCount(n);
    forall kept | kept in Tags(n) && kept != Tag(0) ensures GoesBefore(heap, registry, Tag(0), kept) {
      FirstGoes(s, n, heap, registry, kept);
    }
    OnlyOneGoes(heap, registry, Tag(0));
  }

  /** The first nine turns evict nothing, the tenth evicts the first. */
  lemma EvictedNext(s: State, n: nat, heap: seq<Job>, registry: map<StreamId, nat>)
    requires Filled(s, n) && NextBegun(s, n, heap, registry) && n <= SETTLED_JOBS_KEPT + 1
    requires forall sid :: sid in registry ==> registry[sid] < |heap|
    ensures IsEviction(heap, registry, EvictedAt(n))
  {
    if n <= SETTLED_JOBS_KEPT {
      NoneGoes(s, n, heap, registry);
    } else {
      OldestGoes(s, n, heap, registry);
    }
  }

  function NextStart(n: nat): Step {
    Reserve(Tag(n), n, Question(n), ReplyId(n), EvictedAt(n))
  }

  lemma NextIsEnabled(s: State, n: nat)
    requires Filled(s, n) && n <= SETTLED_JOBS_KEPT + 1
    ensures Tag(n) !in s.registry && Enabled(s, NextStart(n))
  {
    forall sid | sid in s.registry ensures s.registry[sid] < |s.heap| {
      assert TurnAt(s, |sid|);
    }
    FilledIsFresh(s, n);
    var heap, registry := s.heap + [NewJob(Tag(n), n, Question(n), ReplyId(n))], s.registry[Tag(n) := |s.heap|];
    assert NextBegun(s, n, heap, registry);
    RegistryWithin(s, n, heap, registry);
    EvictedNext(s, n, heap, registry);
  }

  /** One job more at the end of the heap, everything before as it was. */
  ghost predicate Behind(s: State, n: nat, s': State) {
    && |s'.heap| == n + 1 && s'.heap[..n] == s.heap
    && (forall sid :: sid in s'.registry <==> sid in s.registry || sid == Tag(n))
    && (forall sid :: sid in s.registry && sid != Tag(n) ==> s'.registry[sid] == s.registry[sid])
    && Tag(n) in s'.registry && s'.registry[Tag(n)] == n
    && s'.heap[n].createdAt == n
    && s'.heap[n].userMessageId == "u" + Tag(n) && s'.heap[n].responseId == ReplyId(n)
  }

  lemma OneMoreFilled(s: State, n: nat, s': State)
    requires Filled(s, n) && Behind(s, n, s')
    requires s'.heap[n].status != Active && s'.heap[n].phase == (if n == 0 then Unsaved(DONE) else Settled)
    ensures Filled(s', n + 1)
  {
    forall i | 0 <= i < n + 1 ensures TurnAt(s', i) {
      if i < n {
        assert TurnAt(s, i) && s'.heap[i] == s.heap[i];
        assert |Tag(i)| != |Tag(n)|;
      }
    }
  }

  lemma NextHeap(s: State, n: nat)
    requires |s.heap| == n && Enabled(s, NextStart(n))
    ensures Apply(s, NextStart(n)).heap == s.heap + [NewJob(Tag(n), n, Question(n), ReplyId(n))]
  {
  }

  lemma NextRegistry(s: State, n: nat)
    requires |s.heap| == n && n <= SETTLED_JOBS_KEPT && Enabled(s, NextStart(n))
    ensures var registry := Apply(s, NextStart(n)).registry;
            && (forall sid :: sid in registry <==> sid in s.registry || sid == Tag(n))
            && (forall sid :: sid in s.registry && sid != Tag(n) ==> registry[sid] == s.registry[sid])
            && registry[Tag(n)] == n
  {
  }

  lemma NextBehind(s: State, n: nat)
    requires Filled(s, n) && n <= SETTLED_JOBS_KEPT && Enabled(s, NextStart(n))
    ensures Behind(s, n, Apply(s, NextStart(n))) && Apply(s, NextStart(n)).heap[n].phase.Opening?
  {
    NextHeap(s, n);
    NextRegistry(s, n);
  }

  /** A step of the last job alone. */
  predicate OfLast(step: Step, n: nat) {
    step in {OpenCommit(n), TakeFinish(n, DONE), FailFinish(n), CommitFinish(n), Publish(n)}
  }

  lemma LastMoves(s: State, n: nat, b: State, step: Step)
    requires Behind(s, n, b) && Enabled(b, step) && OfLast(step, n)
    ensures Behind(s, n, Apply(b, step))
  {
    var b' := Apply(b, step);
    assert b'.heap[..n] == b.heap[..n];
  }

  lemma LastReaches(s: State, n: nat, b: State, step: Step) returns (b': State)
    requires Reachable(b) && Behind(s, n, b) && Enabled(b, step) && OfLast(step, n)
    ensures Reachable(b') && Behind(s, n, b')
    ensures var phase := b'.heap[n].phase;
            && (step.OpenCommit? ==> phase.Running?) && (step.TakeFinish? ==> phase.Finishing? && phase.outcome == DONE)
            && (step.CommitFinish? ==> phase.Landed?)
            && (step.Publish? ==> phase.Settled? && b'.heap[n].status != Active)
            && (step.FailFinish? ==> phase == Unsaved(b.heap[n].phase.outcome) && b'.heap[n].status != Active)
  {
    LastMoves(s, n, b, step);
    b' := StepReaches(b, step);
  }

  /** The first turn's terminal commit fails, the others' succeed. */
  lemma Ended(s: State, n: nat, begun: State) returns (s': State)
    requires Reachable(begun) && Filled(s, n) && Behind(s, n, begun) && begun.heap[n].phase.Opening?
    ensures Reachable(s') && Filled(s', n + 1)
  {
    var running := LastReaches(s, n, begun, OpenCommit(n));
    var taken := LastReaches(s, n, running, TakeFinish(n, DONE));
    if n == 0 {
      s' := LastReaches(s, n, taken, FailFinish(n));
    } else {
      var landed := LastReaches(s, n, taken, CommitFinish(n));
      s' := LastReaches(s, n, landed, Publish(n));
    }
    OneMoreFilled(s, n, s');
  }

  lemma InitialReached()
    ensures Reachable(INITIAL)
  {
    assert IsRun(INITIAL, []) && After(INITIAL, []) == INITIAL;
  }

  lemma NextReached(s: State, n: nat) returns (s': State)
    requires Reachable(s) && Filled(s, n) && n <= SETTLED_JOBS_KEPT
    ensures Reachable(s') && Filled(s', n + 1)
  {
    NextIsEnabled(s, n);
    NextBehind(s, n);
    var begun := StepReaches(s, NextStart(n));
    s' := Ended(s, n, begun);
  }

  lemma {:induction false} FilledReached(n: nat) returns (s: State)
    requires n <= SETTLED_JOBS_KEPT + 1
    ensures Reachable(s) && Filled(s, n)
  {
    if n == 0 {
      s := INITIAL;
      InitialReached();
    } else {
      s := FilledReached(n - 1);
      s := NextReached(s, n - 1);
    }
  }

  // ---- the eviction ----------------------------------------------------------------------

  lemma ListingExists(s: State, sid: StreamId) returns (rows: seq<EventRow>)
    requires Inv(s) && (sid in s.owner || sid in s.docs.turns)
    ensures IsListing(s.docs.events, sid, rows)
  {
    assert StreamOk(s, sid);
    var ledger :| Stored(s.docs, s.heap[s.owner[sid]], ledger);
    rows := seq(|ledger|, i requires 0 <= i < |ledger| => EventRow(sid, i + 1, ledger[i]));
    assert EventsOf(s.docs.events, sid) == LedgerRows(sid, ledger, 0);
    forall r | r in EventsOf(s.docs.events, sid) ensures r in rows {
      var i :| 0 <= i < |ledger| && r == EventRow(sid, i + 1, ledger[i]);
      assert rows[i] == r;
    }
  }

  /** The process gets there: a reachable state, a start it admits and a read of the evicted stream
      after which a follower of the first turn is told another ending than the one it saw. */
  lemma UnsavedEvictionHappens()
      returns (s: State, start: Step, rows: seq<EventRow>, ledger: seq<Frame>)
    ensures Reachable(s) && start.Reserve? && Enabled(s, start) && Tag(0) in start.evicted
    ensures Tag(0) in s.registry && s.registry[Tag(0)] < |s.heap| && s.heap[s.registry[Tag(0)]].phase.Unsaved?
    ensures IsListing(s.docs.events, Tag(0), rows) && Enabled(Apply(s, start), Reconcile(Tag(0), rows))
    ensures Visible(Apply(Apply(s, start), Reconcile(Tag(0), rows)), Tag(0), Aborted, ledger)
    ensures !(s.heap[s.registry[Tag(0)]].frames <= ledger)
  {
    var n := SETTLED_JOBS_KEPT + 1;
    s := FilledReached(n);
    assert TurnAt(s, 0);
    start := NextStart(n);
    NextIsEnabled(s, n);
    ReachableHolds(s);
    assert RegistryOk(s, Tag(0)) && JobOk(s, 0);
    rows := ListingExists(s, Tag(0));
    ledger := UnsavedEvictionBreaksFollowers(s, start, Tag(0), rows);
  }
}
