/** Bundle blobs over the life of a store: ingests in flight, rollbacks, commits, the collection of
    pruned digests and the sweep of aged blobs. */
module BlobSafety {
  import opened BundlePruning

  const GC_GRACE: nat := 15 * 60

  datatype Phase = Open | Committed | RolledBack

  /** One ingest's transaction. It has put its blob before anything else; `drops` are the run rows
      its pruning deletes, `candidates` their digests, to be collected after its commit. */
  datatype Ingest = Ingest(runId: nat, digest: Digest, drops: set<nat>, candidates: set<Digest>,
                           phase: Phase)

  /** `stamps` gives each stored blob's modification time, `rows` each committed run's digest. */
  datatype State = State(now: nat, stamps: map<Digest, nat>, rows: map<nat, Digest>, ingests: seq<Ingest>)

  datatype Step =
    | Tick(seconds: nat)
    | Begin(runId: nat, digest: Digest)
    | Prune(k: nat, drops: set<nat>)
    | Commit(k: nat)
    | Rollback(k: nat)
    | Collect(k: nat)
    | Sweep
    | Restore(runId: nat)

  /** Storing bytes under their digest leaves a blob that is already there as it is. */
  function Put(stamps: map<Digest, nat>, digest: Digest, now: nat): map<Digest, nat> {
    if digest in stamps then stamps else stamps[digest := now]
  }

  predicate Referenced(s: State, digest: Digest) {
    exists id :: id in s.rows && s.rows[id] == digest
  }

  predicate IsOpen(s: State, k: nat) {
    k < |s.ingests| && s.ingests[k].phase.Open?
  }

  predicate Enabled(s: State, step: Step) {
    match step
    case Tick(_) => true
    case Begin(runId, _) => true
    case Prune(k, drops) => IsOpen(s, k) && s.ingests[k].runId !in drops && forall id :: id in drops ==> id in s.rows
    case Commit(k) => IsOpen(s, k)
    case Rollback(k) => IsOpen(s, k)
    case Collect(k) => k < |s.ingests| && s.ingests[k].phase.Committed?
    case Sweep => true
    case Restore(runId) => runId in s.rows
  }

  /** The blobs a collection or a sweep unlinks. */
  function Unlinked(s: State, step: Step): set<Digest>
    requires Enabled(s, step)
  {
    match step
    case Collect(k) => set d | d in s.ingests[k].candidates && d in s.stamps && !Referenced(s, d)
    case Sweep => set d | d in s.stamps && !Referenced(s, d) && s.now - s.stamps[d] >= GC_GRACE
    case _ => {}
  }

  function SetIngest(s: State, k: nat, ingest: Ingest): State
    requires k < |s.ingests|
  {
    s.(ingests := s.ingests[k := ingest])
  }

  function Apply(s: State, step: Step): State
    requires Enabled(s, step)
  {
    match step
    case Tick(seconds) => s.(now := s.now + seconds)
    case Begin(runId, digest) =>
      s.(stamps := Put(s.stamps, digest, s.now), ingests := s.ingests + [Ingest(runId, digest, {}, {}, Open)])
    case Prune(k, drops) =>
      SetIngest(s, k, s.ingests[k].(drops := drops, candidates := set id | id in drops :: s.rows[id]))
    case Commit(k) =>
      var i := s.ingests[k];
      SetIngest(s, k, i.(phase := Committed)).(rows := (s.rows - i.drops)[i.runId := i.digest])
    case Rollback(k) => SetIngest(s, k, s.ingests[k].(phase := RolledBack))
    case Collect(k) => SetIngest(s, k, s.ingests[k].(candidates := {})).(stamps := s.stamps - Unlinked(s, step))
    case Sweep => s.(stamps := s.stamps - Unlinked(s, step))
    case Restore(runId) => s.(stamps := Put(s.stamps, s.rows[runId], s.now))
  }

  predicate IsRun(s: State, steps: seq<Step>)
    decreases |steps|
  {
    steps == [] || (Enabled(s, steps[0]) && IsRun(Apply(s, steps[0]), steps[1..]))
  }

  function After(s: State, steps: seq<Step>): State
    requires IsRun(s, steps)
    decreases |steps|
  {
    if steps == [] then s else After(Apply(s, steps[0]), steps[1..])
  }

  const EMPTY := State(0, map[], map[], [])

  // ---- safety ----------------------------------------------------------------------------

  /** Every committed run keeps its evidence. */
  ghost predicate Evidence(s: State) {
    forall id :: id in s.rows ==> s.rows[id] in s.stamps
  }

  /** Every ingest in flight still has the blob it put. */
  ghost predicate InFlight(s: State) {
    forall k :: 0 <= k < |s.ingests| && s.ingests[k].phase.Open? ==> s.ingests[k].digest in s.stamps
  }

  /** The step unlinks the blob of an ingest in flight. */
  ghost predicate Hazard(s: State, step: Step)
    requires Enabled(s, step)
  {
    exists k :: 0 <= k < |s.ingests| && s.ingests[k].phase.Open? && s.ingests[k].digest in Unlinked(s, step)
  }

  /** No step takes a committed run's blob away, and a step takes an open ingest's exactly when it
      is a hazard. */
  lemma StepExactlySafe(s: State, step: Step)
    requires Enabled(s, step) && Evidence(s) && InFlight(s)
    ensures Evidence(Apply(s, step))
    ensures InFlight(Apply(s, step)) <==> !Hazard(s, step)
  {
    var s' := Apply(s, step);
    if step.Collect? || step.Sweep? {
      forall id | id in s'.rows ensures s'.rows[id] in s'.stamps {
        assert Referenced(s, s.rows[id]);
      }
      if Hazard(s, step) {
        var k :| 0 <= k < |s.ingests| && s.ingests[k].phase.Open? && s.ingests[k].digest in Unlinked(s, step);
        assert s'.ingests[k].phase.Open? && s'.ingests[k].digest == s.ingests[k].digest;
      }
    }
  }

  /** And a hazard is real: if the ingest that lost its blob commits next, a committed run is left
      without evidence. */
  lemma HazardCosts(s: State, step: Step) returns (k: nat)
    requires Enabled(s, step) && Hazard(s, step)
    ensures Enabled(Apply(s, step), Commit(k))
    ensures !Evidence(Apply(Apply(s, step), Commit(k)))
  {
    k :| 0 <= k < |s.ingests| && s.ingests[k].phase.Open? && s.ingests[k].digest in Unlinked(s, step);
    var s' := Apply(s, step);
    var i := s'.ingests[k];
    assert i == s.ingests[k] && i.digest !in s'.stamps;
    var s'' := Apply(s', Commit(k));
    assert i.runId in s''.rows && s''.rows[i.runId] == i.digest;
  }

  // ---- when there is no hazard -----------------------------------------------------------

  /** The blob is younger than the grace. */
  predicate Young(s: State, digest: Digest) {
    digest in s.stamps && s.now - s.stamps[digest] < GC_GRACE
  }

  /** What callers can see to before a step: a sweep finds the blob of each ingest in flight referenced
      or young, and a collection's candidates are no open ingest's unless referenced. */
  ghost predicate Careful(s: State, step: Step)
    requires Enabled(s, step)
  {
    match step
    case Sweep =>
      forall k :: 0 <= k < |s.ingests| && s.ingests[k].phase.Open? ==>
        Referenced(s, s.ingests[k].digest) || Young(s, s.ingests[k].digest)
    case Collect(c) =>
      forall k :: 0 <= k < |s.ingests| && s.ingests[k].phase.Open? ==>
        s.ingests[k].digest !in s.ingests[c].candidates || Referenced(s, s.ingests[k].digest)
    case _ => true
  }

  /** While every ingest in flight has its blob, a step keeps it so if and only if it is careful. */
  lemma CarefulExactly(s: State, step: Step)
    requires Enabled(s, step) && Evidence(s) && InFlight(s)
    ensures Hazard(s, step) <==> !Careful(s, step)
    ensures InFlight(Apply(s, step)) <==> Careful(s, step)
  {
    StepExactlySafe(s, step);
    if !Careful(s, step) {
      var k: nat :| k < |s.ingests| && s.ingests[k].phase.Open? && !Referenced(s, s.ingests[k].digest) &&
        (if step.Sweep? then !Young(s, s.ingests[k].digest) else s.ingests[k].digest in s.ingests[step.k].candidates);
      assert s.ingests[k].digest in Unlinked(s, step);
    }
  }

  /** Every ingest in flight has its blob in each state of the run. */
  ghost predicate AlwaysInFlight(s: State, steps: seq<Step>)
    requires IsRun(s, steps)
    decreases |steps|
  {
    InFlight(s) && (steps == [] || AlwaysInFlight(Apply(s, steps[0]), steps[1..]))
  }

  /** Over a whole history: no ingest in flight ever loses its blob if and only if every step is
      careful; and then each committed run has its evidence. */
  lemma {:induction false} HistoryExactlySafe(s: State, steps: seq<Step>)
    requires Evidence(s) && InFlight(s) && IsRun(s, steps)
    ensures CarefulRun(s, steps) <==> AlwaysInFlight(s, steps)
    ensures CarefulRun(s, steps) ==> Evidence(After(s, steps))
    decreases |steps|
  {
    if steps != [] {
      var next := Apply(s, steps[0]);
      StepExactlySafe(s, steps[0]);
      CarefulExactly(s, steps[0]);
      if InFlight(next) {
        HistoryExactlySafe(next, steps[1..]);
      }
    }
  }

  ghost predicate CarefulRun(s: State, steps: seq<Step>)
    requires IsRun(s, steps)
    decreases |steps|
  {
    steps == [] || (Careful(s, steps[0]) && CarefulRun(Apply(s, steps[0]), steps[1..]))
  }

  /** Over every careful history of ingests, rollbacks, commits, collections and sweeps, each
      committed run has its blob. */
  lemma BlobSafety(steps: seq<Step>)
    requires IsRun(EMPTY, steps) && CarefulRun(EMPTY, steps)
    ensures Evidence(After(EMPTY, steps))
  {
    HistoryExactlySafe(EMPTY, steps);
  }

  /** A collection never removes what a run pruned but another committed run shares. */
  lemma SharedDigestStays(s: State, k: nat, id: nat)
    requires Enabled(s, Collect(k)) && id in s.rows && s.rows[id] in s.stamps
    ensures s.rows[id] in Apply(s, Collect(k)).stamps
  {
    assert Referenced(s, s.rows[id]);
  }

  /** The grace period shields a blob by its age, and storing the same bytes again does not renew
      it: an ingest that re-uses a blob left by an older, rolled-back one loses it to a sweep even
      if it takes no time at all. */
  lemma ReusedBlobIsSwept(digest: Digest)
    ensures var steps := [Begin(0, digest), Rollback(0), Tick(GC_GRACE), Begin(1, digest), Sweep, Commit(1)];
            IsRun(EMPTY, steps) && !Evidence(After(EMPTY, steps))
  {
    var s1 := Apply(EMPTY, Begin(0, digest));
    var s2 := Apply(s1, Rollback(0));
    var s3 := Apply(s2, Tick(GC_GRACE));
    var s4 := Apply(s3, Begin(1, digest));
    assert s4.stamps[digest] == 0 && !Referenced(s4, digest);
    var s5 := Apply(s4, Sweep);
    assert digest !in s5.stamps && IsOpen(s5, 1);
    var s6 := Apply(s5, Commit(1));
    assert s6.rows[1] == digest;
    var steps := [Begin(0, digest), Rollback(0), Tick(GC_GRACE), Begin(1, digest), Sweep, Commit(1)];
    RunTo(EMPTY, steps, [EMPTY, s1, s2, s3, s4, s5, s6]);
  }

  /** A run through these states. */
  lemma {:induction false} RunTo(s: State, steps: seq<Step>, states: seq<State>)
    requires |states| == |steps| + 1 && states[0] == s
    requires forall i :: 0 <= i < |steps| ==>
              Enabled(states[i], steps[i]) && states[i + 1] == Apply(states[i], steps[i])
    ensures IsRun(s, steps) && After(s, steps) == states[|steps|]
    decreases |steps|
  {
    if steps != [] {
      var rest, later := steps[1..], states[1..];
      assert forall i :: 0 <= i < |rest| ==> rest[i] == steps[i + 1] && later[i] == states[i + 1];
      assert forall i :: 0 <= i < |later| ==> later[i] == states[i + 1];
      RunTo(states[1], rest, later);
    }
  }

  /** The hazard the program can meet: a run's pruning makes its digest a candidate, another ingest
      puts the same bytes, for which the blob is still there, and the collection that follows the first
      commit takes it before the second one. */
  lemma ReusedCandidateIsCollected(digest: Digest, other: Digest)
    requires digest != other
    ensures var steps := [Begin(0, digest), Commit(0), Begin(1, other), Prune(1, {0}), Begin(2, digest),
                          Commit(1), Collect(1), Commit(2)];
            IsRun(EMPTY, steps) && !Evidence(After(EMPTY, steps))
  {
    var s4 := PrunedRun(digest, other);
    var s5 := Apply(s4, Begin(2, digest));
    var s6 := Apply(s5, Commit(1));
    assert s6.ingests[1].candidates == {digest} && !Referenced(s6, digest) && IsOpen(s6, 2);
    var s7 := Apply(s6, Collect(1));
    assert digest !in s7.stamps && IsOpen(s7, 2);
    var s8 := Apply(s7, Commit(2));
    assert s8.rows[2] == digest;
    var start, later := [Begin(0, digest), Commit(0), Begin(1, other), Prune(1, {0})],
                        [Begin(2, digest), Commit(1), Collect(1), Commit(2)];
    RunTo(s4, later, [s4, s5, s6, s7, s8]);
    RunJoin(EMPTY, start, later);
    assert start + later == [Begin(0, digest), Commit(0), Begin(1, other), Prune(1, {0}), Begin(2, digest),
                             Commit(1), Collect(1), Commit(2)];
  }

  /** An ingest in flight has pruned the one committed run. */
  lemma PrunedRun(digest: Digest, other: Digest) returns (s: State)
    requires digest != other
    ensures var steps := [Begin(0, digest), Commit(0), Begin(1, other), Prune(1, {0})];
            IsRun(EMPTY, steps) && After(EMPTY, steps) == s
    ensures s.rows.Keys == {0} && s.rows[0] == digest && digest in s.stamps && |s.ingests| == 2
    ensures s.ingests[1].runId == 1 && s.ingests[1].digest == other && s.ingests[1].phase.Open?
    ensures s.ingests[1].drops == {0} && s.ingests[1].candidates == {digest}
  {
    var s1 := Apply(EMPTY, Begin(0, digest));
    var s2 := Apply(s1, Commit(0));
    var s3 := Apply(s2, Begin(1, other));
    assert 0 in s3.rows && s3.rows[0] == digest;
    s := Apply(s3, Prune(1, {0}));
    RunTo(EMPTY, [Begin(0, digest), Commit(0), Begin(1, other), Prune(1, {0})], [EMPTY, s1, s2, s3, s]);
  }

  lemma {:induction false} RunJoin(s: State, a: seq<Step>, b: seq<Step>)
    requires IsRun(s, a) && IsRun(After(s, a), b)
    ensures IsRun(s, a + b) && After(s, a + b) == After(After(s, a), b)
    decreases |a|
  {
    if a == [] {
      assert a + b == b;
    } else {
      RunJoin(Apply(s, a[0]), a[1..], b);
      assert (a + b)[1..] == a[1..] + b;
    }
  }
}
