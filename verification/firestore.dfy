/** An in-memory stand-in for the document database: documents addressed by
    their path, each a map from field name to value. Only the four
    capabilities the import script uses are modelled: fetching a bounded
    slice of a collection, a batched delete, and merge-set. */
module Firestore {
  import opened JsValue

  /** A document path such as ["modules", "m1", "quizzes", "q1"]. */
  type Path = seq<string>
  type Doc = map<string, Value>
  type Docs = map<Path, Doc>

  /** The most operations one batched write may hold. */
  const BatchLimit: nat := 500

  function Min(a: nat, b: nat): nat {
    if a <= b then a else b
  }

  /** The fields of the document at `p`, or none when it does not exist. */
  function DocAt(docs: Docs, p: Path): Doc {
    if p in docs then docs[p] else map[]
  }

  /** `doc(p).set(fields, {merge: true})`: the document is created when
      missing, the given fields are overwritten and every other field, and
      every other document, is left as it was. */
  function Merge(docs: Docs, p: Path, fields: Doc): Docs
  {
    docs[p := DocAt(docs, p) + fields]
  }

  /** What a merge-set does: the given fields of its document are
      overwritten, its other fields and every other document keep their
      values. */
  lemma MergeFields(docs: Docs, p: Path, fields: Doc)
    ensures Merge(docs, p, fields).Keys == docs.Keys + {p}
    ensures forall q :: q in docs && q != p ==> Merge(docs, p, fields)[q] == docs[q]
    ensures Merge(docs, p, fields)[p].Keys == DocAt(docs, p).Keys + fields.Keys
    ensures forall k :: k in fields ==> Merge(docs, p, fields)[p][k] == fields[k]
    ensures forall k :: k in DocAt(docs, p) && k !in fields ==> Merge(docs, p, fields)[p][k] == DocAt(docs, p)[k]
  {
  }

  /** Merging the same fields twice is merging them once. */
  lemma MergeIdempotent(docs: Docs, p: Path, fields: Doc)
    ensures Merge(Merge(docs, p, fields), p, fields) == Merge(docs, p, fields)
  {
    var once := Merge(docs, p, fields);
    assert DocAt(once, p) + fields == DocAt(once, p);
  }

  /** `p` names a document directly inside collection `coll`. */
  predicate InCollection(coll: Path, p: Path) {
    |p| == |coll| + 1 && p[..|coll|] == coll
  }

  /** The documents of collection `coll`. */
  function CollectionDocs(docs: Docs, coll: Path): set<Path> {
    set p | p in docs && InCollection(coll, p)
  }

  /** The store once every document of `coll` is deleted. */
  function Clear(docs: Docs, coll: Path): (r: Docs)
    ensures r.Keys == docs.Keys - CollectionDocs(docs, coll)
    ensures forall p :: p in r ==> r[p] == docs[p]
    ensures CollectionDocs(r, coll) == {}
  {
    map p | p in docs && !InCollection(coll, p) :: docs[p]
  }

  /** A step of the import as the database sees it. */
  datatype Op = MergeSet(path: Path, fields: Doc) | DeleteAll(coll: Path)

  function Apply(docs: Docs, op: Op): Docs {
    match op
    case MergeSet(p, fields) => Merge(docs, p, fields)
    case DeleteAll(coll) => Clear(docs, coll)
  }

  /** The store after the operations, in order. */
  function Execute(docs: Docs, ops: seq<Op>): Docs
    decreases |ops|
  {
    if ops == [] then docs else Apply(Execute(docs, ops[..|ops| - 1]), ops[|ops| - 1])
  }

  /** Whether `op` can change the document at `p`. */
  predicate Touches(op: Op, p: Path) {
    match op
    case MergeSet(q, _) => q == p
    case DeleteAll(coll) => InCollection(coll, p)
  }

  predicate MergesOnly(ops: seq<Op>) {
    forall k :: 0 <= k < |ops| ==> ops[k].MergeSet?
  }

  lemma {:induction false} ExecuteAppend(docs: Docs, a: seq<Op>, b: seq<Op>)
    ensures Execute(docs, a + b) == Execute(Execute(docs, a), b)
    decreases |b|
  {
    if b == [] {
      assert a + b == a;
    } else {
      var b' := b[..|b| - 1];
      assert (a + b)[..|a + b| - 1] == a + b';
      ExecuteAppend(docs, a, b');
    }
  }

  /** Merge-sets never delete a document or a field: a document present
      before the run is present after it, with at least its fields. */
  lemma {:induction false} MergesKeepFields(docs: Docs, ops: seq<Op>, p: Path)
    requires MergesOnly(ops) && p in docs
    ensures p in Execute(docs, ops) && docs[p].Keys <= Execute(docs, ops)[p].Keys
    decreases |ops|
  {
    if ops != [] {
      var prefix := ops[..|ops| - 1];
      assert MergesOnly(prefix) by {
        forall k | 0 <= k < |prefix|
          ensures prefix[k].MergeSet?
        {
          assert prefix[k] == ops[k];
        }
      }
      MergesKeepFields(docs, prefix, p);
      var last := ops[|ops| - 1];
      MergeFields(Execute(docs, prefix), last.path, last.fields);
    }
  }

  /** A document no operation touches keeps its existence and its fields. */
  lemma {:induction false} ExecuteFrame(docs: Docs, ops: seq<Op>, p: Path)
    requires forall k :: 0 <= k < |ops| ==> !Touches(ops[k], p)
    ensures p in Execute(docs, ops) <==> p in docs
    ensures p in docs ==> Execute(docs, ops)[p] == docs[p]
    decreases |ops|
  {
    if ops != [] {
      ExecuteFrame(docs, ops[..|ops| - 1], p);
    }
  }

  /** The store seen through a second layer of fields: where both have a
      document, the fields of `top` win. */
  function Overlay(docs: Docs, top: Docs): Docs {
    map p | p in docs.Keys + top.Keys :: DocAt(docs, p) + DocAt(top, p)
  }

  /** Merge-sets never read the store: their effect is the overlay of what
      they write on an empty store. */
  lemma {:induction false} ExecuteIsOverlay(docs: Docs, ops: seq<Op>)
    requires MergesOnly(ops)
    ensures Execute(docs, ops) == Overlay(docs, Execute(map[], ops))
    decreases |ops|
  {
    if ops == [] {
      var empty: Docs := map[];
      forall p | p in docs
        ensures Overlay(docs, empty)[p] == docs[p]
      {
        assert DocAt(empty, p) == map[];
        assert docs[p] + map[] == docs[p];
      }
    } else {
      var prefix := ops[..|ops| - 1];
      var op := ops[|ops| - 1];
      ExecuteIsOverlay(docs, prefix);
      MergeOverlay(docs, Execute(map[], prefix), op.path, op.fields);
    }
  }

  lemma MergeOverlay(docs: Docs, top: Docs, q: Path, fields: Doc)
    ensures Merge(Overlay(docs, top), q, fields) == Overlay(docs, Merge(top, q, fields))
  {
    var lhs := Merge(Overlay(docs, top), q, fields);
    var rhs := Overlay(docs, Merge(top, q, fields));
    assert lhs.Keys == rhs.Keys by {
      MergeFields(Overlay(docs, top), q, fields);
      MergeFields(top, q, fields);
    }
    forall p
      ensures DocAt(lhs, p) == DocAt(rhs, p)
    {
      var a, b := DocAt(docs, p), DocAt(top, p);
      MergeAt(Overlay(docs, top), q, fields, p);
      OverlayAt(docs, top, p);
      OverlayAt(docs, Merge(top, q, fields), p);
      MergeAt(top, q, fields, p);
      if p == q {
        DocUnionAssoc(a, b, fields);
      }
    }
    DocsExtensional(lhs, rhs);
  }

  lemma MergeAt(docs: Docs, q: Path, fields: Doc, p: Path)
    ensures DocAt(Merge(docs, q, fields), p) == if p == q then DocAt(docs, p) + fields else DocAt(docs, p)
  {
  }

  lemma OverlayAt(docs: Docs, top: Docs, p: Path)
    ensures DocAt(Overlay(docs, top), p) == DocAt(docs, p) + DocAt(top, p)
  {
    if p !in docs && p !in top {
      var empty: Doc := map[];
      assert empty + empty == empty;
    }
  }

  /** Two stores with the same documents at every path are equal (a
      missing document and an empty one are told apart by the keys). */
  lemma DocsExtensional(x: Docs, y: Docs)
    requires x.Keys == y.Keys
    requires forall p :: DocAt(x, p) == DocAt(y, p)
    ensures x == y
  {
    forall p | p in x
      ensures x[p] == y[p]
    {
      assert DocAt(x, p) == DocAt(y, p);
    }
  }

  lemma DocUnionAssoc(a: Doc, b: Doc, c: Doc)
    ensures (a + b) + c == a + (b + c)
  {
  }

  lemma OverlayIdempotent(docs: Docs, top: Docs)
    ensures Overlay(Overlay(docs, top), top) == Overlay(docs, top)
  {
    var once := Overlay(docs, top);
    var twice := Overlay(once, top);
    forall p | p in twice
      ensures twice[p] == once[p]
    {
      assert twice[p] == (DocAt(docs, p) + DocAt(top, p)) + DocAt(top, p);
    }
  }

  /** Replaying the same merge-sets changes nothing more. */
  lemma ExecuteIdempotent(docs: Docs, ops: seq<Op>)
    requires MergesOnly(ops)
    ensures Execute(Execute(docs, ops), ops) == Execute(docs, ops)
  {
    var top := Execute(map[], ops);
    ExecuteIsOverlay(docs, ops);
    ExecuteIsOverlay(Execute(docs, ops), ops);
    OverlayIdempotent(docs, top);
  }

  /** The database client, holding the whole store. */
  class Store {
    var docs: Docs

    constructor (initial: Docs)
      ensures docs == initial
    {
      docs := initial;
    }

    /** `db.collection(coll).limit(limit).get()`: some `limit` documents of
        the collection, or all of them when there are fewer. Which ones the
        database picks is left open. */
    method Get(coll: Path, limit: nat) returns (snapshot: set<Path>)
      ensures snapshot <= CollectionDocs(docs, coll)
      ensures |snapshot| == Min(limit, |CollectionDocs(docs, coll)|)
    {
      var rest := CollectionDocs(docs, coll);
      snapshot := {};
      while |snapshot| < limit && rest != {}
        invariant snapshot !! rest && snapshot + rest == CollectionDocs(docs, coll)
        invariant |snapshot| + |rest| == |CollectionDocs(docs, coll)|
        invariant |snapshot| <= limit
        decreases rest
      {
        var p :| p in rest;
        snapshot, rest := snapshot + {p}, rest - {p};
      }
    }

    /** One committed batch of deletes. */
    method CommitDeletes(batch: set<Path>)
      requires |batch| <= BatchLimit
      modifies this
      ensures docs == old(docs) - batch
    {
      docs := docs - batch;
    }

    /** `doc(p).set(fields, {merge: true})` */
    method SetMerge(p: Path, fields: Doc)
      modifies this
      ensures docs == Merge(old(docs), p, fields)
    {
      docs := Merge(docs, p, fields);
    }
  }
}
