/** `importModules(reset)` and the steps of one module, as imperative code
    over the store (lines 45-148 of the import script). Each method is tied
    to the pure description of the run in ImportPlan. */
module Import {
  import opened Outcomes
  import opened JsValue
  import opened Normalize
  import opened Firestore
  import opened Reset
  import opened ImportPlan

  /** How a reset of `coll` will fail, if it will: after that many
      committed batches. */
  function FaultFor(faults: map<Path, nat>, coll: Path): Option<nat> {
    if coll in faults then Some(faults[coll]) else None
  }

  predicate NoResetFaults(faults: map<Path, nat>, id: string) {
    && ChildCollection(id, FichesName) !in faults
    && ChildCollection(id, VideosName) !in faults
    && ChildCollection(id, QuizzesName) !in faults
  }

  /** `p` is a document of one of the three child collections of `id`. */
  predicate InChildCollection(id: string, p: Path) {
    || InCollection(ChildCollection(id, FichesName), p)
    || InCollection(ChildCollection(id, VideosName), p)
    || InCollection(ChildCollection(id, QuizzesName), p)
  }

  /** The document at `p` is the same in both stores (or absent from both). */
  predicate SameAt(before: Docs, after: Docs, p: Path) {
    (p in after <==> p in before) && (p in after ==> after[p] == before[p])
  }

  /** `p` belongs to module record `m`: Owned by the record's id. A record
      that is null or has no valid id owns nothing, since its import fails
      before it writes anything. */
  predicate Owns(m: Value, p: Path) {
    !Nullish(m) && ValidId(Field(m, "id")) && Owned(Field(m, "id").s, p)
  }

  /** The child collections in the order the reset empties them. */
  const ChildNames: seq<string> := [FichesName, VideosName, QuizzesName]

  /** `after` is `before` with some documents of the child collections of
      `id` deleted, and nothing else changed. */
  predicate ResetOnly(before: Docs, after: Docs, id: string) {
    && after.Keys <= before.Keys
    && (forall p :: p in after ==> after[p] == before[p])
    && (forall p :: p in before && !InChildCollection(id, p) ==> p in after)
  }

  /** Where a reset of `id` stands once the first `emptied` child collections
      are empty: the later ones after the one being emptied are untouched,
      and only child documents were deleted. */
  ghost predicate ResetState(start: Docs, docs: Docs, id: string, emptied: nat) {
    && emptied <= 3
    && ResetOnly(start, docs, id)
    && (forall j :: 0 <= j < emptied ==> CollectionDocs(docs, ChildCollection(id, ChildNames[j])) == {})
    && (forall j, p :: emptied < j < 3 && InCollection(ChildCollection(id, ChildNames[j]), p) ==> SameAt(start, docs, p))
  }

  lemma ChildNamesDistinct(a: nat, b: nat)
    requires a < 3 && b < 3 && a != b
    ensures ChildNames[a] != ChildNames[b]
  {
    assert |ChildNames[0]| == 14 && |ChildNames[1]| == 6 && |ChildNames[2]| == 7;
  }

  /** Deleting within child collection `k` keeps the reset's state, and
      advances it once that collection is empty. */
  lemma ResetStep(start: Docs, mid: Docs, after: Docs, id: string, k: nat)
    requires k < 3 && ResetState(start, mid, id, k)
    requires DeletedWithin(mid, after, ChildCollection(id, ChildNames[k]))
    ensures ResetState(start, after, id, k)
    ensures CollectionDocs(after, ChildCollection(id, ChildNames[k])) == {} ==> ResetState(start, after, id, k + 1)
  {
    var coll := ChildCollection(id, ChildNames[k]);
    forall p | InCollection(coll, p)
      ensures InChildCollection(id, p)
    {
      assert ChildNames[k] == FichesName || ChildNames[k] == VideosName || ChildNames[k] == QuizzesName;
    }
    forall j, p | k < j < 3 && InCollection(ChildCollection(id, ChildNames[j]), p)
      ensures SameAt(start, after, p)
    {
      ChildNamesDistinct(j, k);
      assert p[..3][2] == ChildNames[j];
      assert !InCollection(coll, p);
      assert SameAt(start, mid, p);
    }
  }

  /** The `try` block of lines 59-63: the three child collections are
      emptied in turn, and the first failure skips the rest. The outcome is
      only reported; it never stops the module. `emptied` counts the child
      collections emptied before the failure (all three on success). */
  method ResetModule(db: Store, id: string, faults: map<Path, nat>) returns (ok: bool, ghost emptied: nat)
    modifies db
    ensures NoResetFaults(faults, id) ==> ok
    ensures ok ==> db.docs == Execute(old(db.docs), ResetOps(id))
    ensures emptied <= 3 && (ok <==> emptied == 3)
    ensures !ok ==> ChildCollection(id, ChildNames[emptied]) in faults
    ensures ResetState(old(db.docs), db.docs, id, emptied)
  {
    ghost var start := db.docs;
    var fiches, videos, quizzes := ChildCollection(id, FichesName), ChildCollection(id, VideosName), ChildCollection(id, QuizzesName);
    var batches;
    emptied := 0;
    ok, batches := DeleteCollection(db, fiches, FaultFor(faults, fiches));
    ResetStep(start, start, db.docs, id, 0);
    if !ok {
      return;
    }
    emptied := 1;
    ghost var afterFiches := db.docs;
    ok, batches := DeleteCollection(db, videos, FaultFor(faults, videos));
    ResetStep(start, afterFiches, db.docs, id, 1);
    if !ok {
      return;
    }
    emptied := 2;
    ghost var afterVideos := db.docs;
    ok, batches := DeleteCollection(db, quizzes, FaultFor(faults, quizzes));
    ResetStep(start, afterVideos, db.docs, id, 2);
    if !ok {
      return;
    }
    emptied := 3;
    ghost var ops := ResetOps(id);
    assert ops[..2] == [ops[0], ops[1]] && ops[..2][..1] == [ops[0]];
    ExecuteSingle(start, ops[0]);
    assert Execute(start, ops[..2]) == Clear(afterFiches, videos);
  }

  /** Lines 86-88 (fiches) and 98-100 (videos): each record is merged into
      the child collection under its own id, in file order, until one fails. */
  method ImportRecords(db: Store, ds: Dataset, records: seq<Value>) returns (error: Option<Error>)
    requires ds.Records?
    modifies db
    ensures error == Stage(ds, records).error
    ensures db.docs == Execute(old(db.docs), Stage(ds, records).ops)
  {
    for i := 0 to |records|
      invariant Stage(ds, records[..i]).error.None?
      invariant db.docs == Execute(old(db.docs), Stage(ds, records[..i]).ops)
    {
      StageStep(ds, records, i);
      var f := records[i];
      if Nullish(f) {
        StageErrorSticky(ds, records, i + 1);
        return Some(TypeError);
      }
      var id := Field(f, "id");
      if !ValidId(id) {
        StageErrorSticky(ds, records, i + 1);
        return Some(InvalidDocumentId);
      }
      ghost var ops := Stage(ds, records[..i]).ops;
      db.SetMerge(ds.coll + [id.s], f.fields);
      assert (ops + [MergeSet(ds.coll + [id.s], f.fields)])[..|ops|] == ops;
    }
    assert records[..|records|] == records;
    return None;
  }

  /** Lines 108-137: each quiz record is normalised and merged under its own
      id, counting the quizzes written. */
  method ImportQuizzes(db: Store, id: string, records: seq<Value>) returns (quizzesCount: nat, error: Option<Error>)
    modifies db
    ensures var stage := Stage(Quizzes(ChildCollection(id, QuizzesName), Str(id)), records);
      && error == stage.error
      && db.docs == Execute(old(db.docs), stage.ops)
      && quizzesCount == |stage.ops|
    ensures error.None? ==> quizzesCount == |records|
  {
    var ds := Quizzes(ChildCollection(id, QuizzesName), Str(id));
    quizzesCount := 0;
    for i := 0 to |records|
      invariant Stage(ds, records[..i]).error.None?
      invariant db.docs == Execute(old(db.docs), Stage(ds, records[..i]).ops)
      invariant quizzesCount == |Stage(ds, records[..i]).ops|
    {
      StageStep(ds, records, i);
      var q := records[i];
      var quiz := NormalizeQuiz(q, Str(id));
      if quiz.Err? {
        StageErrorSticky(ds, records, i + 1);
        return quizzesCount, Some(quiz.error);
      }
      if !ValidId(quiz.value.id) {
        StageErrorSticky(ds, records, i + 1);
        return quizzesCount, Some(InvalidDocumentId);
      }
      ghost var ops := Stage(ds, records[..i]).ops;
      var op := MergeSet(ds.coll + [quiz.value.id.s], QuizFields(quiz.value));
      db.SetMerge(op.path, op.fields);
      assert (ops + [op])[..|ops|] == ops;
      quizzesCount := quizzesCount + 1;
    }
    assert records[..|records|] == records;
    StageShape(ds, records);
    return quizzesCount, None;
  }

  lemma ThenExecute(docs: Docs, first: Plan, next: Plan)
    requires first.error.None?
    ensures Execute(docs, Then(first, next).ops) == Execute(Execute(docs, first.ops), next.ops)
  {
    ExecuteAppend(docs, first.ops, next.ops);
  }

  lemma ExecuteSingle(docs: Docs, op: Op)
    ensures Execute(docs, [op]) == Apply(docs, op)
  {
    assert [op][..0] == [];
  }

  /** The `if (fs.existsSync(...))` blocks of lines 84-92 and 96-104: a
      missing file writes nothing. */
  method ImportRecordsFile(db: Store, ds: Dataset, file: Option<seq<Value>>) returns (error: Option<Error>)
    requires ds.Records?
    modifies db
    ensures error == Stage(ds, RecordsOf(file)).error
    ensures db.docs == Execute(old(db.docs), Stage(ds, RecordsOf(file)).ops)
  {
    if file.None? {
      return None;
    }
    error := ImportRecords(db, ds, file.value);
  }

  /** The `if (fs.existsSync(...))` block of lines 109-134: a missing file
      writes nothing and counts no quiz. */
  method ImportQuizzesFile(db: Store, id: string, file: Option<seq<Value>>) returns (quizzesCount: nat, error: Option<Error>)
    modifies db
    ensures var stage := Stage(Quizzes(ChildCollection(id, QuizzesName), Str(id)), RecordsOf(file));
      && error == stage.error
      && db.docs == Execute(old(db.docs), stage.ops)
      && quizzesCount == |stage.ops|
  {
    if file.None? {
      return 0, None;
    }
    quizzesCount, error := ImportQuizzes(db, id, file.value);
  }

  /** Lines 69-147 once the module id is known and the optional reset is
      over: the header, the fiches, the videos, the quizzes, and finally
      the quiz count, which overwrites whatever the header or an earlier run
      stored. */
  method WriteModule(db: Store, m: Value, id: string, fx: Fixtures) returns (error: Option<Error>)
    modifies db
    ensures error == ModuleBody(m, id, fx).error
    ensures db.docs == Execute(old(db.docs), ModuleBody(m, id, fx).ops)
  {
    ghost var start := db.docs;
    var moduleRef := ModuleRef(id);
    db.SetMerge(moduleRef, ModuleFields(m));
    ghost var plan := Plan([MergeSet(moduleRef, ModuleFields(m))], None);
    ExecuteSingle(start, plan.ops[0]);

    var fichesDs := Records(ChildCollection(id, FichesName));
    error := ImportRecordsFile(db, fichesDs, FixtureFile(fx.fiches, id));
    ThenExecute(start, plan, Stage(fichesDs, RecordsOf(FixtureFile(fx.fiches, id))));
    plan := Then(plan, Stage(fichesDs, RecordsOf(FixtureFile(fx.fiches, id))));
    if error.Some? {
      return;
    }

    var videosDs := Records(ChildCollection(id, VideosName));
    error := ImportRecordsFile(db, videosDs, FixtureFile(fx.videos, id));
    ThenExecute(start, plan, Stage(videosDs, RecordsOf(FixtureFile(fx.videos, id))));
    plan := Then(plan, Stage(videosDs, RecordsOf(FixtureFile(fx.videos, id))));
    if error.Some? {
      return;
    }

    var quizzesCount;
    ghost var quizzes := Stage(Quizzes(ChildCollection(id, QuizzesName), Str(id)), RecordsOf(FixtureFile(fx.quizzes, id)));
    quizzesCount, error := ImportQuizzesFile(db, id, FixtureFile(fx.quizzes, id));
    ThenExecute(start, plan, quizzes);
    plan := Then(plan, quizzes);
    if error.Some? {
      return;
    }

    ghost var count := Plan([MergeSet(moduleRef, CountFields(quizzesCount))], None);
    ghost var mid := db.docs;
    db.SetMerge(moduleRef, CountFields(quizzesCount));
    ExecuteSingle(mid, count.ops[0]);
    ThenExecute(start, plan, count);
  }

  /** Writing the body of module `id` leaves every document outside the
      module's own tree as it was. */
  lemma BodyFrame(docs: Docs, m: Value, id: string, fx: Fixtures, p: Path)
    requires !Owned(id, p)
    ensures SameAt(docs, Execute(docs, ModuleBody(m, id, fx).ops), p)
  {
    var ops := ModuleBody(m, id, fx).ops;
    BodyOpsOwned(m, id, fx);
    assert forall k :: 0 <= k < |ops| ==> !Touches(ops[k], p);
    ExecuteFrame(docs, ops, p);
  }

  lemma ChildrenOwned(id: string, p: Path)
    requires InChildCollection(id, p)
    ensures Owned(id, p)
  {
    assert p[..3][0] == "modules" && p[..3][1] == id;
  }

  /** The reset of module `id` leaves alone every document outside the
      module's tree. */
  lemma ResetFrame(before: Docs, after: Docs, id: string)
    requires ResetOnly(before, after, id)
    ensures forall p :: !Owned(id, p) ==> SameAt(before, after, p)
  {
    forall p | !Owned(id, p)
      ensures SameAt(before, after, p)
    {
      if InChildCollection(id, p) {
        ChildrenOwned(id, p);
      }
    }
  }

  /** What a module's writes add up to, once the reset (if any) has left
      everything outside the module's tree alone. */
  lemma ModuleOutcome(before: Docs, cleared: Docs, m: Value, fx: Fixtures, reset: bool, exact: bool)
    requires !Nullish(m) && ValidId(Field(m, "id"))
    requires forall p :: !Owned(Field(m, "id").s, p) ==> SameAt(before, cleared, p)
    requires exact ==> cleared == Execute(before, if reset then ResetOps(Field(m, "id").s) else [])
    ensures ModulePlan(m, fx, reset).error == ModuleBody(m, Field(m, "id").s, fx).error
    ensures var after := Execute(cleared, ModuleBody(m, Field(m, "id").s, fx).ops);
      && (exact ==> after == Execute(before, ModulePlan(m, fx, reset).ops))
      && (forall p :: !Owns(m, p) ==> SameAt(before, after, p))
      && (ModulePlan(m, fx, reset).error.None? ==> CountSet(after, m, fx))
  {
    var id := Field(m, "id").s;
    var body := ModuleBody(m, id, fx);
    var resets := Plan(if reset then ResetOps(id) else [], None);
    assert ModulePlan(m, fx, reset) == Then(resets, body);
    ThenExecute(before, resets, body);
    if body.error.None? {
      BodySetsCount(cleared, m, fx);
    }
    forall p | !Owns(m, p)
      ensures SameAt(before, Execute(cleared, body.ops), p)
    {
      BodyFrame(cleared, m, id, fx, p);
    }
  }

  /** A module's writes leave its document in place with at least the
      header fields, whatever fails after the header. */
  lemma HeaderWritten(docs: Docs, m: Value, id: string, fx: Fixtures)
    ensures var after := Execute(docs, ModuleBody(m, id, fx).ops);
      ModuleRef(id) in after && ModuleFields(m).Keys <= after[ModuleRef(id)].Keys
  {
    var ops := ModuleBody(m, id, fx).ops;
    var ref := ModuleRef(id);
    ModuleBodyShape(m, id, fx);
    BodyMergesOnly(m, id, fx);
    var rest := ops[1..];
    assert ops == [ops[0]] + rest;
    assert MergesOnly(rest) by {
      forall k | 0 <= k < |rest|
        ensures rest[k].MergeSet?
      {
        assert rest[k] == ops[k + 1];
      }
    }
    ExecuteAppend(docs, [ops[0]], rest);
    ExecuteSingle(docs, ops[0]);
    MergeFields(docs, ref, ModuleFields(m));
    MergesKeepFields(Merge(docs, ref, ModuleFields(m)), rest, ref);
  }

  /** No reset of module record `m` will fail: a record with a valid id has
      no fault planned on any of its child collections. */
  predicate ResetFree(m: Value, faults: map<Path, nat>) {
    !Nullish(m) && ValidId(Field(m, "id")) ==> NoResetFaults(faults, Field(m, "id").s)
  }

  /** A fault planned on another module's collection leaves the reset of
      module m1 free to succeed. */
  lemma FaultElsewhere()
    ensures ResetFree(MathModule(), map[ChildCollection("m2", VideosName) := 0])
  {
    assert Field(MathModule(), "id") == Str("m1");
  }

  /** One iteration of the module loop (lines 53-147). `cleared` is the
      store once the optional reset is over, successful or not: the module's
      writes then run on it to the end. */
  method ImportModule(db: Store, m: Value, fx: Fixtures, reset: bool, faults: map<Path, nat>)
    returns (error: Option<Error>, ghost cleared: Docs, ghost resetOk: bool, ghost emptied: nat)
    modifies db
    ensures error == ModulePlan(m, fx, reset).error
    ensures Nullish(m) || !ValidId(Field(m, "id")) ==> db.docs == old(db.docs)
    ensures !Nullish(m) && ValidId(Field(m, "id")) ==>
              var id := Field(m, "id").s;
              && ResetOnly(old(db.docs), cleared, id)
              && (!reset ==> cleared == old(db.docs))
              && (reset ==> ResetState(old(db.docs), cleared, id, emptied) && (resetOk <==> emptied == 3))
              && (!resetOk ==> reset && emptied < 3 && ChildCollection(id, ChildNames[emptied]) in faults)
              && db.docs == Execute(cleared, ModuleBody(m, id, fx).ops)
              && ModuleRef(id) in db.docs && ModuleFields(m).Keys <= db.docs[ModuleRef(id)].Keys
    ensures !reset || ResetFree(m, faults) ==> resetOk
    ensures resetOk ==> db.docs == Execute(old(db.docs), ModulePlan(m, fx, reset).ops)
    ensures forall p :: !Owns(m, p) ==> SameAt(old(db.docs), db.docs, p)
    ensures error.None? ==> CountSet(db.docs, m, fx)
  {
    cleared, resetOk, emptied := db.docs, true, 0;
    if Nullish(m) {
      assert db.docs == Execute(old(db.docs), []);
      return Some(TypeError), cleared, resetOk, emptied;
    }
    var id := Field(m, "id");
    if StringThrows(id) {
      assert db.docs == Execute(old(db.docs), []);
      return Some(TypeError), cleared, resetOk, emptied;
    }
    if !ValidId(id) {
      assert db.docs == Execute(old(db.docs), []);
      return Some(InvalidDocumentId), cleared, resetOk, emptied;
    }
    if reset {
      resetOk, emptied := ResetModule(db, id.s, faults);
    } else {
      assert db.docs == Execute(old(db.docs), []);
    }
    cleared := db.docs;
    ResetFrame(old(db.docs), cleared, id.s);
    error := WriteModule(db, m, id.s, fx);
    ModuleOutcome(old(db.docs), cleared, m, fx, reset, resetOk);
    HeaderWritten(cleared, m, id.s, fx);
  }

  lemma RunModulesStep(modules: seq<Value>, fx: Fixtures, reset: bool, i: nat)
    requires i < |modules|
    ensures RunModules(modules[..i + 1], fx, reset) == Then(RunModules(modules[..i], fx, reset), ModulePlan(modules[i], fx, reset))
  {
    assert modules[..i + 1][..i] == modules[..i];
  }

  /** When the run so far and module `i` both executed exactly their plans,
      so did the run through module `i`. */
  lemma RunStepExecuted(start: Docs, before: Docs, after: Docs, modules: seq<Value>, fx: Fixtures, reset: bool, i: nat,
                        resetsOk: bool, resetOk: bool)
    requires i < |modules| && RunModules(modules[..i], fx, reset).error.None?
    requires resetsOk ==> before == Execute(start, RunModules(modules[..i], fx, reset).ops)
    requires resetOk ==> after == Execute(before, ModulePlan(modules[i], fx, reset).ops)
    ensures resetsOk && resetOk ==> after == Execute(start, RunModules(modules[..i + 1], fx, reset).ops)
  {
    RunModulesStep(modules, fx, reset, i);
    ThenExecute(start, RunModules(modules[..i], fx, reset), ModulePlan(modules[i], fx, reset));
  }

  /** Documents no module up to `i` owns keep their state through module
      `i`'s import. */
  lemma FrameKept(start: Docs, before: Docs, after: Docs, modules: seq<Value>, i: nat)
    requires i < |modules|
    requires forall p :: OwnedByNone(modules, i, p) ==> SameAt(start, before, p)
    requires forall p :: !Owns(modules[i], p) ==> SameAt(before, after, p)
    ensures forall p :: OwnedByNone(modules, |modules|, p) ==> SameAt(start, after, p)
    ensures forall p :: OwnedByNone(modules, i + 1, p) ==> SameAt(start, after, p)
  {
    forall p | OwnedByNone(modules, i + 1, p)
      ensures SameAt(start, after, p)
    {
      assert OwnedByNone(modules, i, p);
      assert !Owns(modules[i], p);
    }
    forall p | OwnedByNone(modules, |modules|, p)
      ensures OwnedByNone(modules, i + 1, p)
    {
    }
  }

  /** Importing module `i` keeps the counts of the modules before it: it
      either writes elsewhere or, sharing their id, writes the same count. */
  lemma CountsKept(before: Docs, after: Docs, modules: seq<Value>, fx: Fixtures, i: nat)
    requires i < |modules|
    requires forall j :: 0 <= j < i ==> CountSet(before, modules[j], fx)
    requires forall p :: !Owns(modules[i], p) ==> SameAt(before, after, p)
    requires CountSet(after, modules[i], fx)
    ensures forall j :: 0 <= j <= i ==> CountSet(after, modules[j], fx)
  {
    forall j | 0 <= j < i
      ensures CountSet(after, modules[j], fx)
    {
      var ref := ModuleRef(Field(modules[j], "id").s);
      assert CountSet(before, modules[j], fx);
      if Owns(modules[i], ref) {
        assert Field(modules[j], "id") == Field(modules[i], "id");
      } else {
        assert SameAt(before, after, ref);
      }
    }
  }

  /** No module among the first `n` of `modules` owns `p`. */
  predicate OwnedByNone(modules: seq<Value>, n: nat, p: Path) {
    forall j :: 0 <= j < n && j < |modules| ==> !Owns(modules[j], p)
  }

  /** `importModules(reset)` (lines 45-151): the modules in file order, the
      first error ending the run with everything written so far kept. */
  method ImportModules(db: Store, fx: Fixtures, reset: bool, faults: map<Path, nat>)
    returns (error: Option<Error>, ghost resetsOk: bool)
    modifies db
    ensures error == Run(fx, reset).error
    ensures !reset || fx.modules.None? || (forall j :: 0 <= j < |fx.modules.value| ==> ResetFree(fx.modules.value[j], faults)) ==> resetsOk
    ensures resetsOk ==> db.docs == Execute(old(db.docs), Run(fx, reset).ops)
    ensures fx.modules.None? ==> db.docs == old(db.docs)
    ensures error.None? ==> forall j :: 0 <= j < |fx.modules.value| ==> CountSet(db.docs, fx.modules.value[j], fx)
    ensures fx.modules.Some? ==>
              forall p :: OwnedByNone(fx.modules.value, |fx.modules.value|, p) ==> SameAt(old(db.docs), db.docs, p)
  {
    resetsOk := true;
    if fx.modules.None? {
      return Some(ModulesFileMissing), resetsOk;
    }
    var modules := fx.modules.value;
    for i := 0 to |modules|
      invariant RunModules(modules[..i], fx, reset).error.None?
      invariant !reset || (forall j :: 0 <= j < i ==> ResetFree(modules[j], faults)) ==> resetsOk
      invariant resetsOk ==> db.docs == Execute(old(db.docs), RunModules(modules[..i], fx, reset).ops)
      invariant forall j :: 0 <= j < i ==> CountSet(db.docs, modules[j], fx)
      invariant forall p :: OwnedByNone(modules, i, p) ==> SameAt(old(db.docs), db.docs, p)
    {
      ghost var before := db.docs;
      RunModulesStep(modules, fx, reset, i);
      ghost var cleared, resetOk, emptied;
      error, cleared, resetOk, emptied := ImportModule(db, modules[i], fx, reset, faults);
      RunStepExecuted(old(db.docs), before, db.docs, modules, fx, reset, i, resetsOk, resetOk);
      resetsOk := resetsOk && resetOk;
      FrameKept(old(db.docs), before, db.docs, modules, i);
      if error.Some? {
        RunModulesErrorSticky(modules, fx, reset, i + 1);
        return error, resetsOk;
      }
      CountsKept(before, db.docs, modules, fx, i);
    }
    assert modules[..|modules|] == modules;
    return None, resetsOk;
  }
}
