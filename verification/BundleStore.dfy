/** The content-addressed store: one blob per digest, written once and unlinked in place. */
module BundleStore {
  import opened Options
  import opened BundlePruning

  datatype Blob = Blob(data: string, stamp: nat)

  class Store {
    const sha: string -> Digest
    var blobs: map<Digest, Blob>

    /** Every blob is filed under the digest of its bytes. */
    ghost predicate Valid()
      reads this
    {
      forall d :: d in blobs ==> sha(blobs[d].data) == d
    }

    constructor (sha: string -> Digest)
      ensures Valid() && this.sha == sha && blobs.Keys == {}
    {
      this.sha := sha;
      blobs := map[];
    }

    /** What every operation here leaves alone: the blobs both before and after are the same. */
    twostate predicate Untouched()
      reads this
    {
      forall d :: d in old(blobs) && d in blobs ==> blobs[d] == old(blobs)[d]
    }

    /** Store bytes under their digest; the same content again changes nothing. */
    method Put(data: string, now: nat) returns (digest: Digest)
      requires Valid()
      modifies this
      ensures Valid() && Untouched() && digest == sha(data)
      ensures blobs.Keys == old(blobs).Keys + {digest}
      ensures digest !in old(blobs) ==> blobs[digest] == Blob(data, now)
    {
      digest := sha(data);
      if digest in blobs {
        return;
      }
      blobs := blobs[digest := Blob(data, now)];
    }

    /** Bytes with that digest, or None when there is no such blob. */
    method Get(digest: Digest) returns (data: Option<string>)
      requires Valid()
      ensures data.Some? <==> digest in blobs
      ensures data.Some? ==> sha(data.value) == digest && data.value == blobs[digest].data
    {
      data := if digest in blobs then Some(blobs[digest].data) else None;
    }

    /** The blobs a sweep removes: unreferenced, and past the age if one is asked for. */
    predicate Sweepable(digest: Digest, referenced: set<Digest>, minAge: nat, now: int)
      reads this
    {
      digest in blobs && digest !in referenced && (minAge == 0 || now - blobs[digest].stamp >= minAge)
    }

    method Gc(referenced: set<Digest>, minAge: nat, now: int) returns (removed: set<Digest>)
      requires Valid()
      modifies this
      ensures Valid() && Untouched()
      ensures forall d :: d in removed <==> old(Sweepable(d, referenced, minAge, now))
      ensures blobs.Keys == old(blobs).Keys - removed
    {
      removed := {};
      var left := blobs.Keys - referenced;
      while left != {}
        invariant left <= blobs.Keys - referenced && Untouched() && Valid()
        invariant blobs.Keys == old(blobs).Keys - removed
        invariant forall d :: d in old(blobs) && d !in left ==>
                    (d in removed <==> old(Sweepable(d, referenced, minAge, now)))
        invariant removed <= old(blobs).Keys - left
        decreases left
      {
        var d :| d in left;
        left := left - {d};
        if minAge == 0 || now - blobs[d].stamp >= minAge {
          blobs := blobs - {d};
          removed := removed + {d};
        }
      }
    }

    /** Unlink exactly the candidates no committed run references. */
    method CollectCandidates(candidates: seq<Digest>, referenced: set<Digest>) returns (removed: seq<Digest>)
      requires Valid()
      modifies this
      ensures Valid() && Untouched()
      ensures forall d :: d in removed <==> d in candidates && d !in referenced && d in old(blobs)
      ensures blobs.Keys == old(blobs).Keys - (set d | d in removed)
      ensures forall i, j :: 0 <= i < j < |removed| ==> removed[i] != removed[j]
    {
      removed := [];
      for i := 0 to |candidates|
        invariant Valid() && Untouched()
        invariant forall d :: d in removed <==> d in candidates[..i] && d !in referenced && d in old(blobs)
        invariant forall d :: d in blobs <==> d in old(blobs) && d !in removed
        invariant forall p, q :: 0 <= p < q < |removed| ==> removed[p] != removed[q]
      {
        var d := candidates[i];
        if d !in referenced && d in blobs {
          blobs := blobs - {d};
          removed := removed + [d];
        }
      }
    }
  }
}
