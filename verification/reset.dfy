/** `deleteCollection`: empty one collection in batches of at most 500
    deletes (lines 30-39 of the import script). */
module Reset {
  import opened Outcomes
  import opened Firestore

  function CeilDiv(n: nat, k: nat): nat
    requires k > 0
  {
    (n + k - 1) / k
  }

  function Sum(s: seq<nat>): nat
    decreases |s|
  {
    if s == [] then 0 else Sum(s[..|s| - 1]) + s[|s| - 1]
  }

  /** Batch sizes as the loop produces them: each between 1 and the batch
      limit, and all but the last full. */
  predicate FullBatches(sizes: seq<nat>) {
    && (forall k :: 0 <= k < |sizes| ==> 0 < sizes[k] <= BatchLimit)
    && (forall k :: 0 <= k < |sizes| - 1 ==> sizes[k] == BatchLimit)
  }

  lemma {:induction false} FullBatchesSum(sizes: seq<nat>)
    requires FullBatches(sizes) && |sizes| > 0
    ensures Sum(sizes) == BatchLimit * (|sizes| - 1) + sizes[|sizes| - 1]
    ensures BatchLimit * (|sizes| - 1) < Sum(sizes) <= BatchLimit * |sizes|
    decreases |sizes|
  {
    var prefix := sizes[..|sizes| - 1];
    if |prefix| > 0 {
      assert FullBatches(prefix);
      FullBatchesSum(prefix);
      assert prefix[|prefix| - 1] == BatchLimit;
    }
  }

  /** ⌈n / 500⌉ full-or-last batches remove exactly n documents, and no
      fewer batches can. */
  lemma FullBatchesCount(sizes: seq<nat>)
    requires FullBatches(sizes)
    ensures |sizes| == CeilDiv(Sum(sizes), BatchLimit)
  {
    if |sizes| > 0 {
      FullBatchesSum(sizes);
    }
  }

  /** A further batch keeps the batches full-but-last when the one before
      it was full. */
  lemma AppendBatch(sizes: seq<nat>, size: nat)
    requires FullBatches(sizes) && 0 < size <= BatchLimit
    requires |sizes| > 0 ==> sizes[|sizes| - 1] == BatchLimit
    ensures FullBatches(sizes + [size])
    ensures Sum(sizes + [size]) == Sum(sizes) + size
  {
    var more := sizes + [size];
    assert more[..|more| - 1] == sizes;
    forall k | 0 <= k < |sizes|
      ensures more[k] == sizes[k] == BatchLimit
    {
    }
  }

  /** Full-but-last batches deleting at most `n` documents number at most
      `⌈n / 500⌉`. */
  lemma FullBatchesBound(sizes: seq<nat>, n: nat)
    requires FullBatches(sizes) && Sum(sizes) <= n
    ensures |sizes| <= CeilDiv(n, BatchLimit)
  {
    if |sizes| > 0 {
      FullBatchesSum(sizes);
      assert n + BatchLimit - 1 >= BatchLimit * |sizes|;
    }
  }

  /** One fetched batch deleted: the collection shrinks by the batch, and a
      batch short of the limit was the whole rest of the collection. */
  lemma CollectionAfterBatch(docs: Docs, coll: Path, batch: set<Path>)
    requires batch <= CollectionDocs(docs, coll)
    requires |batch| == Min(BatchLimit, |CollectionDocs(docs, coll)|)
    ensures CollectionDocs(docs - batch, coll) == CollectionDocs(docs, coll) - batch
    ensures |CollectionDocs(docs - batch, coll)| == |CollectionDocs(docs, coll)| - |batch|
    ensures |batch| < BatchLimit ==> CollectionDocs(docs - batch, coll) == {}
  {
    var all := CollectionDocs(docs, coll);
    assert CollectionDocs(docs - batch, coll) == all - batch;
    assert all == (all - batch) + batch;
  }

  /** `after` is `before` with some documents of `coll` deleted and nothing
      else changed. */
  predicate DeletedWithin(before: Docs, after: Docs, coll: Path) {
    && after.Keys <= before.Keys
    && (forall p :: p in after ==> after[p] == before[p])
    && (forall p :: p in before && !InCollection(coll, p) ==> p in after)
  }

  lemma DeletedWithinStep(before: Docs, after: Docs, coll: Path, batch: set<Path>)
    requires DeletedWithin(before, after, coll) && batch <= CollectionDocs(after, coll)
    ensures DeletedWithin(before, after - batch, coll)
  {
  }

  /** Deleting within `coll` until none of its documents is left is
      clearing it. */
  lemma DeletedAll(before: Docs, after: Docs, coll: Path)
    requires DeletedWithin(before, after, coll) && CollectionDocs(after, coll) == {}
    ensures after == Clear(before, coll)
  {
    var cleared := Clear(before, coll);
    forall p | p in after
      ensures !InCollection(coll, p)
    {
      assert p !in CollectionDocs(after, coll);
    }
    assert after.Keys == cleared.Keys;
  }

  /** Deletes every document of `coll`, fetching at most 500 at a time and
      committing each fetch as one batched delete, until a fetch comes back
      empty. `failAt`, when present, is the number of batches the database
      accepts before its next round trip fails; the error is returned as
      `ok == false` for the caller to report. `sizes` lists the committed
      batches. */
  method DeleteCollection(db: Store, coll: Path, failAt: Option<nat>) returns (ok: bool, sizes: seq<nat>)
    modifies db
    ensures ok <==> failAt.None? || failAt.value > CeilDiv(|old(CollectionDocs(db.docs, coll))|, BatchLimit)
    ensures ok ==> db.docs == Clear(old(db.docs), coll)
    ensures ok ==> |sizes| == CeilDiv(|old(CollectionDocs(db.docs, coll))|, BatchLimit)
    ensures !ok ==> |sizes| == failAt.value
    ensures FullBatches(sizes)
    ensures Sum(sizes) == |old(CollectionDocs(db.docs, coll))| - |CollectionDocs(db.docs, coll)|
    // a failed reset has deleted some documents of the collection, nothing else
    ensures DeletedWithin(old(db.docs), db.docs, coll)
  {
    ghost var n := |CollectionDocs(db.docs, coll)|;
    sizes := [];
    while true
      invariant DeletedWithin(old(db.docs), db.docs, coll)
      invariant FullBatches(sizes)
      invariant Sum(sizes) + |CollectionDocs(db.docs, coll)| == n
      invariant |sizes| > 0 && sizes[|sizes| - 1] < BatchLimit ==> CollectionDocs(db.docs, coll) == {}
      invariant failAt.Some? ==> failAt.value >= |sizes|
      decreases |CollectionDocs(db.docs, coll)|
    {
      if failAt == Some(|sizes|) {
        FullBatchesBound(sizes, n);
        return false, sizes;
      }
      var snapshot := db.Get(coll, BatchLimit);
      if snapshot == {} {
        FullBatchesCount(sizes);
        DeletedAll(old(db.docs), db.docs, coll);
        return true, sizes;
      }
      ghost var before := db.docs;
      db.CommitDeletes(snapshot);
      CollectionAfterBatch(before, coll, snapshot);
      DeletedWithinStep(old(db.docs), before, coll, snapshot);
      AppendBatch(sizes, |snapshot|);
      sizes := sizes + [|snapshot|];
    }
  }
}
