/** Pruning runs so that the store of content-addressed bundles fits its budget. */
module BundlePruning {
  import opened Options
  import opened Sequences

  type Digest = string

  /** A run with a bundle; the lists here are oldest first. */
  datatype Run = Run(id: nat, digest: Digest)

  /** The size of each stored blob, 0 for one that is missing. */
  type Sizes = Digest -> nat

  function Digests(rows: seq<Run>): set<Digest> {
    set i | 0 <= i < |rows| :: rows[i].digest
  }

  ghost function Total(size: Sizes, digests: set<Digest>): nat {
    if digests == {} then 0
    else
      var d :| d in digests;
      size(d) + Total(size, digests - {d})
  }

  lemma {:induction false} TotalRemove(size: Sizes, digests: set<Digest>, d: Digest)
    requires d in digests
    ensures Total(size, digests) == size(d) + Total(size, digests - {d})
    decreases |digests|
  {
    var e :| e in digests && Total(size, digests) == size(e) + Total(size, digests - {e});
    if e != d {
      TotalRemove(size, digests - {e}, d);
      TotalRemove(size, digests - {d}, e);
      assert digests - {e} - {d} == digests - {d} - {e};
    }
  }

  lemma {:induction false} TotalMonotone(size: Sizes, fewer: set<Digest>, more: set<Digest>)
    requires fewer <= more
    ensures Total(size, fewer) <= Total(size, more)
    decreases |fewer|
  {
    if fewer != {} {
      var d :| d in fewer;
      TotalRemove(size, fewer, d);
      TotalRemove(size, more, d);
      TotalMonotone(size, fewer - {d}, more - {d});
    }
  }

  /** What the runs occupy, a shared blob counted once. */
  ghost function Weight(size: Sizes, rows: seq<Run>): nat {
    Total(size, Digests(rows))
  }

  // ---- the prefix that goes --------------------------------------------------------------

  /** The older runs without the `k` oldest that may go. */
  function Rest(older: seq<Run>, protect: Option<nat>, k: nat): (rest: seq<Run>)
    ensures |rest| <= |older|
  {
    if older == [] || k == 0 then older
    else if Some(older[0].id) == protect then [older[0]] + Rest(older[1..], protect, k)
    else Rest(older[1..], protect, k - 1)
  }

  /** The digests of the `k` oldest runs that may go. */
  function Gone(older: seq<Run>, protect: Option<nat>, k: nat): seq<Digest> {
    if older == [] || k == 0 then []
    else if Some(older[0].id) == protect then Gone(older[1..], protect, k)
    else [older[0].digest] + Gone(older[1..], protect, k - 1)
  }

  function Prunable(older: seq<Run>, protect: Option<nat>): (n: nat)
    ensures n <= |older|
  {
    if older == [] then 0
    else (if Some(older[0].id) == protect then 0 else 1) + Prunable(older[1..], protect)
  }

  /** What survives pruning `k` runs: the rest of the older ones and always the newest. */
  function Kept(rows: seq<Run>, protect: Option<nat>, k: nat): seq<Run>
    requires rows != []
  {
    Rest(rows[..|rows| - 1], protect, k) + [rows[|rows| - 1]]
  }

  ghost predicate Fits(size: Sizes, rows: seq<Run>, protect: Option<nat>, k: nat, budget: nat)
    requires rows != []
  {
    Weight(size, Kept(rows, protect, k)) <= budget
  }

  /** `i` is the oldest run of `rows` that may go. */
  predicate FirstPrunable(rows: seq<Run>, protect: Option<nat>, i: nat) {
    && i < |rows| && Some(rows[i].id) != protect
    && forall j :: 0 <= j < i ==> Some(rows[j].id) == protect
  }

  /** The runs marked so, in their order. */
  function Marked(older: seq<Run>, goes: seq<bool>, mark: bool): seq<Run>
    requires |goes| == |older|
  {
    if older == [] then []
    else (if goes[0] == mark then [older[0]] else []) + Marked(older[1..], goes[1..], mark)
  }

  function DigestsIn(rows: seq<Run>): (digests: seq<Digest>)
    ensures |digests| == |rows| && forall i :: 0 <= i < |rows| ==> digests[i] == rows[i].digest
  {
    seq(|rows|, i requires 0 <= i < |rows| => rows[i].digest)
  }

  /** Only runs that may go are marked to go, and none that may go and stays is older than one of them. */
  ghost predicate OldestFirst(older: seq<Run>, protect: Option<nat>, goes: seq<bool>) {
    && |goes| == |older|
    && (forall p :: 0 <= p < |older| && goes[p] ==> Some(older[p].id) != protect)
    && (forall p, q :: 0 <= p < |older| && 0 <= q < |older| && goes[p] && !goes[q] ==>
          p < q || Some(older[q].id) == protect)
  }

  lemma OldestFirstMore(older: seq<Run>, protect: Option<nat>, first: bool, goes: seq<bool>)
    requires older != [] && OldestFirst(older[1..], protect, goes)
    requires first <==> Some(older[0].id) != protect
    ensures OldestFirst(older, protect, [first] + goes)
  {
    var all := [first] + goes;
    assert forall p :: 0 < p < |older| ==> all[p] == goes[p - 1] && older[p] == older[1..][p - 1];
  }

  function Nothing(n: nat): (goes: seq<bool>)
    ensures |goes| == n && forall i :: 0 <= i < n ==> !goes[i]
  {
    seq(n, i => false)
  }

  lemma {:induction false} NothingMarked(older: seq<Run>)
    ensures Marked(older, Nothing(|older|), true) == [] && Marked(older, Nothing(|older|), false) == older
  {
    if older != [] {
      NothingMarked(older[1..]);
      assert Nothing(|older|)[1..] == Nothing(|older| - 1);
    }
  }

  lemma MarkedMore(older: seq<Run>, first: bool, goes: seq<bool>, mark: bool)
    requires older != [] && |goes| + 1 == |older|
    ensures Marked(older, [first] + goes, mark) ==
              (if first == mark then [older[0]] else []) + Marked(older[1..], goes, mark)
  {
    assert ([first] + goes)[1..] == goes;
  }

  /** Pruning `k` runs removes the `k` oldest that may go, reports their digests in their order, and
      leaves all others as they were, in theirs. */
  lemma {:induction false} PrunesOldest(older: seq<Run>, protect: Option<nat>, k: nat) returns (goes: seq<bool>)
    requires k <= Prunable(older, protect)
    ensures OldestFirst(older, protect, goes) && |Marked(older, goes, true)| == k
    ensures Gone(older, protect, k) == DigestsIn(Marked(older, goes, true))
    ensures Rest(older, protect, k) == Marked(older, goes, false)
    decreases |older|
  {
    if older == [] || k == 0 {
      goes := Nothing(|older|);
      NothingMarked(older);
    } else {
      var first := Some(older[0].id) != protect;
      var rest := PrunesOldest(older[1..], protect, if first then k - 1 else k);
      goes := [first] + rest;
      OldestFirstMore(older, protect, first, rest);
      MarkedMore(older, first, rest, true);
      MarkedMore(older, first, rest, false);
      FirstDigest(older[0], Marked(older[1..], rest, true));
    }
  }

  lemma FirstDigest(run: Run, more: seq<Run>)
    ensures DigestsIn([run] + more) == [run.digest] + DigestsIn(more)
  {
  }

  /** One more run goes: the oldest that may. */
  lemma {:induction false} RestStep(older: seq<Run>, protect: Option<nat>, k: nat, i: nat)
    requires FirstPrunable(Rest(older, protect, k), protect, i)
    ensures var rest := Rest(older, protect, k);
            && Rest(older, protect, k + 1) == rest[..i] + rest[i + 1..]
            && Gone(older, protect, k + 1) == Gone(older, protect, k) + [rest[i].digest]
    decreases |older|
  {
    if older != [] {
      var tail := older[1..];
      if Some(older[0].id) == protect {
        assert Rest(older, protect, k) == [older[0]] + (if k == 0 then tail else Rest(tail, protect, k));
        assert Rest(tail, protect, 0) == tail;
        forall j | 0 <= j < i - 1 ensures Some(Rest(tail, protect, k)[j].id) == protect {
          assert Rest(older, protect, k)[j + 1] == Rest(tail, protect, k)[j];
        }
        RestStep(tail, protect, k, i - 1);
        PushFront(older[0], Rest(tail, protect, k), i);
      } else if k == 0 {
        assert i == 0;
        assert Rest(tail, protect, 0) == tail && Gone(tail, protect, 0) == [];
      } else {
        RestStep(tail, protect, k - 1, i);
        ConcatAssoc([older[0].digest], Gone(tail, protect, k - 1), [Rest(tail, protect, k - 1)[i].digest]);
      }
    }
  }

  lemma PushFront(r: Run, rest: seq<Run>, i: nat)
    requires 0 < i <= |rest|
    ensures [r] + (rest[..i - 1] + rest[i..]) == ([r] + rest)[..i] + ([r] + rest)[i + 1..]
  {
  }

  lemma {:induction false} SomeLeft(older: seq<Run>, protect: Option<nat>, k: nat)
    requires k < Prunable(older, protect)
    ensures exists r :: r in Rest(older, protect, k) && Some(r.id) != protect
    decreases |older|
  {
    if Some(older[0].id) == protect {
      SomeLeft(older[1..], protect, k);
      assert Rest(older[1..], protect, 0) == older[1..];
      var r :| r in Rest(older[1..], protect, k) && Some(r.id) != protect;
      assert r in Rest(older, protect, k);
    } else if k == 0 {
      assert older[0] in Rest(older, protect, k);
    } else {
      SomeLeft(older[1..], protect, k - 1);
    }
  }

  /** Pruning further never adds weight, so the counts that fit are exactly those from some first
      one on. */
  lemma {:induction false} PruningLightens(size: Sizes, rows: seq<Run>, protect: Option<nat>, j: nat, k: nat)
    requires rows != [] && j <= k
    ensures Weight(size, Kept(rows, protect, k)) <= Weight(size, Kept(rows, protect, j))
  {
    var older := rows[..|rows| - 1];
    RestShrinks(older, protect, j, k);
    var less, more := Kept(rows, protect, k), Kept(rows, protect, j);
    forall d | d in Digests(less) ensures d in Digests(more) {
      var i :| 0 <= i < |less| && less[i].digest == d;
      if i < |less| - 1 {
        assert less[i] in Rest(older, protect, j);
        var p :| 0 <= p < |Rest(older, protect, j)| && Rest(older, protect, j)[p] == less[i];
        assert more[p].digest == d;
      } else {
        assert more[|more| - 1].digest == d;
      }
    }
    TotalMonotone(size, Digests(less), Digests(more));
  }

  lemma {:induction false} RestShrinks(older: seq<Run>, protect: Option<nat>, j: nat, k: nat)
    requires j <= k
    ensures forall r :: r in Rest(older, protect, k) ==> r in Rest(older, protect, j)
    decreases |older|
  {
    if older != [] && k > 0 {
      var tail := older[1..];
      if Some(older[0].id) == protect {
        RestShrinks(tail, protect, j, k);
        assert j == 0 ==> Rest(tail, protect, j) == tail;
      } else {
        RestShrinks(tail, protect, if j == 0 then 0 else j - 1, k - 1);
        assert j == 0 ==> Rest(tail, protect, 0) == tail;
      }
      assert older == [older[0]] + tail;
    }
  }

  /** With every run that may go gone, only protected runs are left beside the newest. */
  lemma {:induction false} AllGone(older: seq<Run>, protect: Option<nat>)
    ensures forall r :: r in Rest(older, protect, Prunable(older, protect)) ==> Some(r.id) == protect
    ensures forall r :: r in older && Some(r.id) == protect ==> r in Rest(older, protect, Prunable(older, protect))
  {
    if older != [] {
      AllGone(older[1..], protect);
      assert older == [older[0]] + older[1..];
    }
  }

  lemma {:induction false} ProtectedStays(older: seq<Run>, protect: Option<nat>, k: nat)
    ensures forall r :: r in older && Some(r.id) == protect ==> r in Rest(older, protect, k)
    decreases |older|
  {
    if older != [] && k > 0 {
      ProtectedStays(older[1..], protect, if Some(older[0].id) == protect then k else k - 1);
    }
  }

  /** `k` is how many runs pruning removes: as few as fit the budget, or all that may go. */
  ghost predicate IsPruneCount(size: Sizes, rows: seq<Run>, protect: Option<nat>, budget: nat, k: nat)
    requires rows != []
  {
    var most := Prunable(rows[..|rows| - 1], protect);
    && k <= most
    && (forall j :: 0 <= j < k ==> !Fits(size, rows, protect, j, budget))
    && (Fits(size, rows, protect, k, budget) || k == most)
  }

  /** The count is unique; it fits exactly when anything does; otherwise only protected runs and the
      newest remain. The newest and the protected run always remain. */
  lemma PruningIsMinimal(size: Sizes, rows: seq<Run>, protect: Option<nat>, budget: nat, k: nat)
    requires rows != [] && IsPruneCount(size, rows, protect, budget, k)
    ensures forall m: nat :: m <= Prunable(rows[..|rows| - 1], protect) ==>
              (Fits(size, rows, protect, m, budget) <==> k <= m && Fits(size, rows, protect, k, budget))
    ensures forall m: nat :: IsPruneCount(size, rows, protect, budget, m) ==> m == k
    ensures !Fits(size, rows, protect, k, budget) ==>
              forall r :: r in Kept(rows, protect, k) ==> r == rows[|rows| - 1] || Some(r.id) == protect
    ensures forall r :: r in rows && (r == rows[|rows| - 1] || Some(r.id) == protect) ==> r in Kept(rows, protect, k)
  {
    var older, most := rows[..|rows| - 1], Prunable(rows[..|rows| - 1], protect);
    forall m: nat | m <= most
      ensures Fits(size, rows, protect, m, budget) <==> k <= m && Fits(size, rows, protect, k, budget)
    {
      if k <= m {
        PruningLightens(size, rows, protect, k, m);
      }
    }
    AllGone(older, protect);
    ProtectedStays(older, protect, k);
    assert rows == older + [rows[|rows| - 1]];
  }

  // ---- the loop --------------------------------------------------------------------------

  /** The bytes the runs' distinct blobs take. */
  method Weigh(size: Sizes, rows: seq<Run>) returns (bytes: nat)
    ensures bytes == Weight(size, rows)
  {
    bytes := 0;
    var seen: set<Digest> := {};
    for i := 0 to |rows|
      invariant seen == Digests(rows[..i]) && bytes == Total(size, seen)
    {
      assert rows[..i + 1] == rows[..i] + [rows[i]];
      assert Digests(rows[..i + 1]) == Digests(rows[..i]) + {rows[i].digest} by {
        DigestsOneMore(rows[..i], rows[i]);
      }
      if rows[i].digest !in seen {
        TotalRemove(size, seen + {rows[i].digest}, rows[i].digest);
        assert seen + {rows[i].digest} - {rows[i].digest} == seen;
        bytes := bytes + size(rows[i].digest);
        seen := seen + {rows[i].digest};
      }
    }
    assert rows[..|rows|] == rows;
  }

  lemma DigestsOneMore(rows: seq<Run>, r: Run)
    ensures Digests(rows + [r]) == Digests(rows) + {r.digest}
  {
    var all := rows + [r];
    forall d ensures d in Digests(all) <==> d in Digests(rows) || d == r.digest {
      if d in Digests(rows) {
        var i :| 0 <= i < |rows| && rows[i].digest == d;
        assert all[i].digest == d;
      }
      assert all[|rows|] == r;
      if d in Digests(all) {
        var i :| 0 <= i < |all| && all[i].digest == d;
        assert i < |rows| ==> rows[i].digest == d;
      }
    }
  }

  /** Delete the oldest runs until the store fits: the runs left and, in order, the digests of those
      deleted, which are the blobs to collect once the deletion has committed. No budget, no pruning. */
  method PruneOverBudget(size: Sizes, budget: Option<nat>, runs: seq<Run>, protect: Option<nat>)
      returns (rows: seq<Run>, pruned: seq<Digest>, ghost k: nat)
    ensures budget.None? || runs == [] ==> rows == runs && pruned == []
    ensures budget.Some? && runs != [] ==>
              && IsPruneCount(size, runs, protect, budget.value, k)
              && rows == Kept(runs, protect, k) && pruned == Gone(runs[..|runs| - 1], protect, k)
  {
    rows, pruned, k := runs, [], 0;
    if budget.None? || runs == [] {
      return;
    }
    while |rows| > 1
      invariant Pruning(size, runs, protect, budget.value, rows, pruned, k)
      decreases |rows|
    {
      var weight := Weigh(size, rows);
      if weight <= budget.value {
        PruneEnds(size, runs, protect, budget.value, rows, pruned, k);
        return;
      }
      var i := OldestPrunable(rows[..|rows| - 1], protect);
      if i == |rows| - 1 {
        PruneEnds(size, runs, protect, budget.value, rows, pruned, k);
        return;
      }
      PruneGoesOn(size, runs, protect, budget.value, rows, pruned, k, i);
      pruned := pruned + [rows[i].digest];
      rows := rows[..i] + rows[i + 1..];
      k := k + 1;
    }
    PruneEnds(size, runs, protect, budget.value, rows, pruned, k);
  }

  /** What holds before each round of the loop, `k` runs having gone. */
  ghost predicate Pruning(size: Sizes, runs: seq<Run>, protect: Option<nat>, budget: nat, rows: seq<Run>,
                          pruned: seq<Digest>, k: nat) {
    && runs != [] && k <= Prunable(runs[..|runs| - 1], protect) && rows == Kept(runs, protect, k)
    && pruned == Gone(runs[..|runs| - 1], protect, k)
    && forall j :: 0 <= j < k ==> !Fits(size, runs, protect, j, budget)
  }

  lemma PruneGoesOn(size: Sizes, runs: seq<Run>, protect: Option<nat>, budget: nat, rows: seq<Run>,
                    pruned: seq<Digest>, k: nat, i: nat)
    requires Pruning(size, runs, protect, budget, rows, pruned, k) && Weight(size, rows) > budget
    requires |rows| > 1 && FirstPrunable(rows[..|rows| - 1], protect, i)
    ensures Pruning(size, runs, protect, budget, rows[..i] + rows[i + 1..], pruned + [rows[i].digest], k + 1)
  {
    KeptParts(runs, protect, k, rows);
    NextGone(runs[..|runs| - 1], protect, k, i);
    PruneStep(runs, protect, k, i);
  }

  lemma PruneEnds(size: Sizes, runs: seq<Run>, protect: Option<nat>, budget: nat, rows: seq<Run>,
                  pruned: seq<Digest>, k: nat)
    requires Pruning(size, runs, protect, budget, rows, pruned, k)
    requires Weight(size, rows) <= budget || |rows| <= 1 || forall r :: r in rows[..|rows| - 1] ==>
              Some(r.id) == protect
    ensures IsPruneCount(size, runs, protect, budget, k)
  {
    KeptParts(runs, protect, k, rows);
    if Weight(size, rows) > budget {
      NothingLeft(runs[..|runs| - 1], protect, k);
    }
  }

  lemma KeptParts(runs: seq<Run>, protect: Option<nat>, k: nat, rows: seq<Run>)
    requires runs != [] && rows == Kept(runs, protect, k)
    ensures rows[..|rows| - 1] == Rest(runs[..|runs| - 1], protect, k)
  {
  }

  lemma PruneStep(runs: seq<Run>, protect: Option<nat>, k: nat, i: nat)
    requires runs != [] && FirstPrunable(Rest(runs[..|runs| - 1], protect, k), protect, i)
    ensures var older, kept := runs[..|runs| - 1], Kept(runs, protect, k);
            && Kept(runs, protect, k + 1) == kept[..i] + kept[i + 1..]
            && Gone(older, protect, k + 1) == Gone(older, protect, k) + [kept[i].digest]
  {
    RestStep(runs[..|runs| - 1], protect, k, i);
  }

  method OldestPrunable(rows: seq<Run>, protect: Option<nat>) returns (i: nat)
    ensures if i < |rows| then FirstPrunable(rows, protect, i)
            else i == |rows| && forall r :: r in rows ==> Some(r.id) == protect
  {
    i := 0;
    while i < |rows| && Some(rows[i].id) == protect
      invariant i <= |rows| && forall j :: 0 <= j < i ==> Some(rows[j].id) == protect
    {
      i := i + 1;
    }
  }

  lemma NothingLeft(older: seq<Run>, protect: Option<nat>, k: nat)
    requires k <= Prunable(older, protect)
    requires forall r :: r in Rest(older, protect, k) ==> Some(r.id) == protect
    ensures k == Prunable(older, protect)
  {
    if k < Prunable(older, protect) {
      SomeLeft(older, protect, k);
    }
  }

  lemma NextGone(older: seq<Run>, protect: Option<nat>, k: nat, i: nat)
    requires k <= Prunable(older, protect) && FirstPrunable(Rest(older, protect, k), protect, i)
    ensures k < Prunable(older, protect)
  {
    AllGone(older, protect);
    assert Rest(older, protect, k)[i] in Rest(older, protect, k);
  }
}
