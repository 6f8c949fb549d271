/** What `importModules` does to the database, as a pure function of the
    fixtures: the sequence of merge-sets and collection resets it performs,
    in order, and the error that stops it, if any. None of these writes
    depends on what the store held before, which is what makes a rerun
    without reset idempotent. */
module ImportPlan {
  import opened Outcomes
  import opened JsValue
  import opened Normalize
  import opened Firestore

  /** The parsed fixture files. A per-module map has an entry for each
      module id that has a file (`fiches_<id>.json` and so on). */
  datatype Fixtures = Fixtures(
    modules: Option<seq<Value>>,
    fiches: map<string, seq<Value>>,
    videos: map<string, seq<Value>>,
    quizzes: map<string, seq<Value>>)

  /** The file of module `id` in a per-module map: None when absent. */
  function FixtureFile(files: map<string, seq<Value>>, id: string): Option<seq<Value>> {
    if id in files then Some(files[id]) else None
  }

  /** The records of a file; an absent file contributes none. */
  function RecordsOf(file: Option<seq<Value>>): seq<Value> {
    match file
    case None => []
    case Some(records) => records
  }

  const FichesName: string := "fichesSynthese"
  const VideosName: string := "videos"
  const QuizzesName: string := "quizzes"

  function ModuleRef(id: string): Path {
    ["modules", id]
  }

  function ChildCollection(id: string, name: string): Path {
    ["modules", id, name]
  }

  /** The paths the import of module `id` may change: its own document and
      the documents of its child collections. */
  predicate Owned(id: string, p: Path) {
    p == ModuleRef(id) || (|p| == 4 && p[0] == "modules" && p[1] == id)
  }

  /** A document id the database client accepts: a non-empty string that
      names one document (no '/'). */
  predicate ValidId(v: Value) {
    v.Str? && v.s != [] && '/' !in v.s
  }

  /** The operations performed, in order, and the error that stopped the
      run (None when it completed). */
  datatype Plan = Plan(ops: seq<Op>, error: Option<Error>)

  /** `first`, then `next` unless `first` was stopped by an error. */
  function Then(first: Plan, next: Plan): Plan {
    if first.error.Some? then first else Plan(first.ops + next.ops, next.error)
  }

  /** A child collection and how its records are written: as they are
      (fiches and videos), or normalised as quizzes of module `moduleId`. */
  datatype Dataset = Records(coll: Path) | Quizzes(coll: Path, moduleId: Value)

  /** The merge-set for one record, or the error raised on it. */
  function RecordOp(ds: Dataset, record: Value): (r: Result<Op>)
    ensures r.Ok? ==> r.value.MergeSet? && InCollection(ds.coll, r.value.path)
    ensures ds.Records? && r.Ok? ==>
              record.Obj? && ValidId(Field(record, "id")) &&
              r.value == MergeSet(ds.coll + [Field(record, "id").s], record.fields)
    ensures ds.Records? ==> (r.Err? <==> Nullish(record) || !ValidId(Field(record, "id")))
    ensures ds.Records? && r.Err? ==> (r.error == TypeError <==> Nullish(record))
  {
    match ds
    case Records(coll) =>
      if Nullish(record) then Err(TypeError)
      else if !ValidId(Field(record, "id")) then Err(InvalidDocumentId)
      else Ok(MergeSet(coll + [Field(record, "id").s], record.fields))
    case Quizzes(coll, moduleId) =>
      match NormalizeQuiz(record, moduleId)
      case Err(e) => Err(e)
      case Ok(quiz) =>
        if !ValidId(quiz.id) then Err(InvalidDocumentId)
        else Ok(MergeSet(coll + [quiz.id.s], QuizFields(quiz)))
  }

  /** A quiz record fails with a TypeError exactly when normalising it
      throws, and otherwise with InvalidDocumentId exactly when its id is not
      a valid document id; a quiz that passes is written normalised under its
      own id. */
  lemma QuizRecordOp(coll: Path, moduleId: Value, record: Value)
    ensures var r := RecordOp(Quizzes(coll, moduleId), record);
      && (r.Err? <==> Nullish(record) || QuestionsMalformed(record) || !ValidId(Field(record, "id")))
      && (r.Err? ==> (r.error == TypeError <==> Nullish(record) || QuestionsMalformed(record)))
      && (r.Ok? ==> r.value == MergeSet(coll + [Field(record, "id").s], QuizFields(NormalizeQuiz(record, moduleId).value)))
  {
  }

  /** The records of one file, written one after the other until one fails. */
  function Stage(ds: Dataset, records: seq<Value>): (r: Plan)
    ensures |r.ops| <= |records|
    ensures r.error.None? ==> |r.ops| == |records|
    ensures forall k :: 0 <= k < |r.ops| ==> r.ops[k].MergeSet? && InCollection(ds.coll, r.ops[k].path)
    decreases |records|
  {
    if records == [] then Plan([], None)
    else
      var before := Stage(ds, records[..|records| - 1]);
      if before.error.Some? then before
      else match RecordOp(ds, records[|records| - 1])
        case Err(e) => Plan(before.ops, Some(e))
        case Ok(op) => Plan(before.ops + [op], None)
  }

  function CountFields(count: nat): Doc {
    map["countQuizzes" := Int(count), "updatedAt" := ServerTimestamp]
  }

  function ResetOps(id: string): seq<Op> {
    [DeleteAll(ChildCollection(id, FichesName)),
     DeleteAll(ChildCollection(id, VideosName)),
     DeleteAll(ChildCollection(id, QuizzesName))]
  }

  /** The writes of module `m`, whose id is `id`, after its optional reset:
      header, fiches, videos, quizzes, then the quiz count. */
  function ModuleBody(m: Value, id: string, fx: Fixtures): Plan
  {
    var header := Plan([MergeSet(ModuleRef(id), ModuleFields(m))], None);
    var fiches := Stage(Records(ChildCollection(id, FichesName)), RecordsOf(FixtureFile(fx.fiches, id)));
    var videos := Stage(Records(ChildCollection(id, VideosName)), RecordsOf(FixtureFile(fx.videos, id)));
    var quizzes := Stage(Quizzes(ChildCollection(id, QuizzesName), Str(id)), RecordsOf(FixtureFile(fx.quizzes, id)));
    var count := Plan([MergeSet(ModuleRef(id), CountFields(|quizzes.ops|))], None);
    Then(Then(Then(Then(header, fiches), videos), quizzes), count)
  }

  /** One iteration of the module loop (lines 53-147). The id is first
      converted to a string for the log line (line 54), which throws for an
      object with its own `toString` key, before it is used as a document id. */
  function ModulePlan(m: Value, fx: Fixtures, reset: bool): Plan
  {
    if Nullish(m) then Plan([], Some(TypeError))
    else if StringThrows(Field(m, "id")) then Plan([], Some(TypeError))
    else if !ValidId(Field(m, "id")) then Plan([], Some(InvalidDocumentId))
    else
      var id := Field(m, "id").s;
      Then(Plan(if reset then ResetOps(id) else [], None), ModuleBody(m, id, fx))
  }

  function RunModules(modules: seq<Value>, fx: Fixtures, reset: bool): (r: Plan)
    decreases |modules|
  {
    if modules == [] then Plan([], None)
    else
      Then(RunModules(modules[..|modules| - 1], fx, reset), ModulePlan(modules[|modules| - 1], fx, reset))
  }

  /** The whole run of `importModules(reset)`. */
  function Run(fx: Fixtures, reset: bool): Plan
  {
    match fx.modules
    case None => Plan([], Some(ModulesFileMissing))
    case Some(modules) => RunModules(modules, fx, reset)
  }

  /** After module `m` is imported, its document holds as `countQuizzes` the
      number of records in its quizzes file, 0 when there is none. */
  predicate CountSet(docs: Docs, m: Value, fx: Fixtures) {
    && !Nullish(m) && ValidId(Field(m, "id"))
    && var ref := ModuleRef(Field(m, "id").s);
    && ref in docs && "countQuizzes" in docs[ref]
    && docs[ref]["countQuizzes"] == Int(|RecordsOf(FixtureFile(fx.quizzes, Field(m, "id").s))|)
  }

  // ---------------------------------------------------------------------
  // Lemmas

  /** A stage writes the records in order, one merge-set each, up to the
      first record that fails; the error is that record's. */
  lemma StageShape(ds: Dataset, records: seq<Value>)
    ensures var p := Stage(ds, records);
      && |p.ops| <= |records|
      && (forall k :: 0 <= k < |p.ops| ==> RecordOp(ds, records[k]) == Ok(p.ops[k]))
      && (p.error.None? ==> |p.ops| == |records|)
      && (p.error.Some? ==> |p.ops| < |records| && RecordOp(ds, records[|p.ops|]) == Err(p.error.value))
  {
    StageOps(ds, records);
    StageError(ds, records);
  }

  /** The operations of a stage are, in order, those of its first records. */
  lemma StageOps(ds: Dataset, records: seq<Value>)
    ensures forall k :: 0 <= k < |Stage(ds, records).ops| ==> RecordOp(ds, records[k]) == Ok(Stage(ds, records).ops[k])
  {
    forall k | 0 <= k < |Stage(ds, records).ops|
      ensures RecordOp(ds, records[k]) == Ok(Stage(ds, records).ops[k])
    {
      StageOp(ds, records, k);
    }
  }

  /** The k-th operation of a stage is the merge-set of its k-th record. */
  lemma {:induction false} StageOp(ds: Dataset, records: seq<Value>, k: nat)
    requires k < |Stage(ds, records).ops|
    ensures RecordOp(ds, records[k]) == Ok(Stage(ds, records).ops[k])
    decreases |records|
  {
    var prefix := records[..|records| - 1];
    var before := Stage(ds, prefix);
    var last := RecordOp(ds, records[|records| - 1]);
    if k < |before.ops| {
      StageOp(ds, prefix, k);
      assert records[k] == prefix[k];
      assert Stage(ds, records).ops[k] == before.ops[k];
    } else {
      assert before.error.None? && last.Ok?;
      assert Stage(ds, records).ops == before.ops + [last.value];
      assert k == |records| - 1;
    }
  }

  /** A stage that fails stops at the record that raised its error. */
  lemma {:induction false} StageError(ds: Dataset, records: seq<Value>)
    ensures var p := Stage(ds, records);
      p.error.Some? ==> |p.ops| < |records| && RecordOp(ds, records[|p.ops|]) == Err(p.error.value)
    decreases |records|
  {
    if records != [] {
      var prefix := records[..|records| - 1];
      var before := Stage(ds, prefix);
      StageError(ds, prefix);
      if before.error.Some? {
        assert records[|before.ops|] == prefix[|before.ops|];
      }
    }
  }

  /** Once a stage has failed, the later records change nothing. */
  lemma {:induction false} StageErrorSticky(ds: Dataset, records: seq<Value>, i: nat)
    requires i <= |records| && Stage(ds, records[..i]).error.Some?
    ensures Stage(ds, records) == Stage(ds, records[..i])
    decreases |records|
  {
    if i < |records| {
      var prefix := records[..|records| - 1];
      assert prefix[..i] == records[..i];
      StageErrorSticky(ds, prefix, i);
    } else {
      assert records[..i] == records;
    }
  }

  /** Extending the records by one extends the stage by that record's step. */
  lemma StageStep(ds: Dataset, records: seq<Value>, i: nat)
    requires i < |records| && Stage(ds, records[..i]).error.None?
    ensures Stage(ds, records[..i + 1]) ==
      match RecordOp(ds, records[i])
      case Err(e) => Plan(Stage(ds, records[..i]).ops, Some(e))
      case Ok(op) => Plan(Stage(ds, records[..i]).ops + [op], None)
  {
    assert records[..i + 1][..i] == records[..i];
  }

  /** The run completes exactly when every module's import does; otherwise
      its error is that of one of the modules. */
  lemma {:induction false} RunModulesCompletes(modules: seq<Value>, fx: Fixtures, reset: bool)
    ensures var r := RunModules(modules, fx, reset);
      && (r.error.None? <==> forall j :: 0 <= j < |modules| ==> ModulePlan(modules[j], fx, reset).error.None?)
      && (r.error.Some? ==> exists j :: 0 <= j < |modules| && r.error == ModulePlan(modules[j], fx, reset).error)
    decreases |modules|
  {
    if modules != [] {
      var prefix := modules[..|modules| - 1];
      var before := RunModules(prefix, fx, reset);
      var last := ModulePlan(modules[|modules| - 1], fx, reset);
      assert RunModules(modules, fx, reset) == Then(before, last);
      RunModulesCompletes(prefix, fx, reset);
      assert forall j :: 0 <= j < |prefix| ==> prefix[j] == modules[j];
      if before.error.Some? {
        var j :| 0 <= j < |prefix| && before.error == ModulePlan(prefix[j], fx, reset).error;
        assert modules[j] == prefix[j];
      }
    }
  }

  /** A module's writes start with its header and, when they complete,
      end with its quiz count: the number of records in its quizzes file. */
  lemma ModuleBodyShape(m: Value, id: string, fx: Fixtures)
    ensures var r := ModuleBody(m, id, fx);
      && |r.ops| > 0 && r.ops[0] == MergeSet(ModuleRef(id), ModuleFields(m))
      && (r.error.None? ==>
            r.ops[|r.ops| - 1] == MergeSet(ModuleRef(id), CountFields(|RecordsOf(FixtureFile(fx.quizzes, id))|)))
  {
  }

  /** A null module record, or one whose id cannot be converted to a
      string, fails with a TypeError, and any other invalid id with
      InvalidDocumentId, all before any write; otherwise the reset, when
      asked for, comes first and the header right after it, and the module
      fails exactly as its writes do. */
  lemma ModulePlanShape(m: Value, fx: Fixtures, reset: bool)
    ensures var r := ModulePlan(m, fx, reset);
      && (Nullish(m) ==> r.ops == [] && r.error == Some(TypeError))
      && (!Nullish(m) && StringThrows(Field(m, "id")) ==> r.ops == [] && r.error == Some(TypeError))
      && (!Nullish(m) && !StringThrows(Field(m, "id")) && !ValidId(Field(m, "id")) ==>
            r.ops == [] && r.error == Some(InvalidDocumentId))
      && (!Nullish(m) && ValidId(Field(m, "id")) ==>
            var id := Field(m, "id").s;
            var resets := if reset then ResetOps(id) else [];
            && r.error == ModuleBody(m, id, fx).error
            && |r.ops| > |resets| && r.ops[..|resets|] == resets
            && r.ops[|resets|] == MergeSet(ModuleRef(id), ModuleFields(m)))
  {
    if !Nullish(m) && ValidId(Field(m, "id")) {
      ModuleBodyShape(m, Field(m, "id").s, fx);
    }
  }

  /** Without a modules file the run stops before any write; otherwise it
      completes exactly when every module's import does. */
  lemma RunCompletes(fx: Fixtures, reset: bool)
    ensures fx.modules.None? ==> Run(fx, reset).ops == [] && Run(fx, reset).error == Some(ModulesFileMissing)
    ensures Run(fx, reset).error.None? <==>
              fx.modules.Some? && forall j :: 0 <= j < |fx.modules.value| ==> ModulePlan(fx.modules.value[j], fx, reset).error.None?
  {
    if fx.modules.Some? {
      RunModulesCompletes(fx.modules.value, fx, reset);
    }
  }

  lemma {:induction false} RunModulesErrorSticky(modules: seq<Value>, fx: Fixtures, reset: bool, i: nat)
    requires i <= |modules| && RunModules(modules[..i], fx, reset).error.Some?
    ensures RunModules(modules, fx, reset) == RunModules(modules[..i], fx, reset)
    decreases |modules|
  {
    if i < |modules| {
      var prefix := modules[..|modules| - 1];
      assert prefix[..i] == modules[..i];
      RunModulesErrorSticky(prefix, fx, reset, i);
    } else {
      assert modules[..i] == modules;
    }
  }

  /** No operation of `ops` touches a path outside module `id`. */
  ghost predicate AllOwned(id: string, ops: seq<Op>) {
    forall k, p :: 0 <= k < |ops| && Touches(ops[k], p) ==> Owned(id, p)
  }

  lemma ThenAllOwned(id: string, first: Plan, next: Plan)
    requires AllOwned(id, first.ops) && AllOwned(id, next.ops)
    ensures AllOwned(id, Then(first, next).ops)
  {
    if first.error.None? {
      var ops := first.ops + next.ops;
      forall k, p | 0 <= k < |ops| && Touches(ops[k], p)
        ensures Owned(id, p)
      {
        if k >= |first.ops| {
          assert ops[k] == next.ops[k - |first.ops|];
        }
      }
    }
  }

  lemma StageAllOwned(id: string, name: string, ds: Dataset, records: seq<Value>)
    requires ds.coll == ChildCollection(id, name)
    ensures AllOwned(id, Stage(ds, records).ops)
  {
    var ops := Stage(ds, records).ops;
    StageInCollection(ds, records);
    forall k, p | 0 <= k < |ops| && Touches(ops[k], p)
      ensures Owned(id, p)
    {
      assert InCollection(ds.coll, p);
      assert p[..3][0] == "modules" && p[..3][1] == id;
    }
  }

  /** Every operation of a module's import stays inside that module. */
  lemma ModuleOpsOwned(m: Value, fx: Fixtures, reset: bool)
    requires !Nullish(m) && ValidId(Field(m, "id"))
    ensures AllOwned(Field(m, "id").s, ModulePlan(m, fx, reset).ops)
  {
    var id := Field(m, "id").s;
    var resets := Plan(if reset then ResetOps(id) else [], None);
    ResetOpsOwned(id);
    BodyOpsOwned(m, id, fx);
    ThenAllOwned(id, resets, ModuleBody(m, id, fx));
  }

  lemma ResetOpsOwned(id: string)
    ensures AllOwned(id, ResetOps(id))
  {
    var ops := ResetOps(id);
    forall k, p | 0 <= k < |ops| && Touches(ops[k], p)
      ensures Owned(id, p)
    {
      assert p[..3][0] == "modules" && p[..3][1] == id;
    }
  }

  lemma BodyOpsOwned(m: Value, id: string, fx: Fixtures)
    ensures AllOwned(id, ModuleBody(m, id, fx).ops)
  {
    var header := Plan([MergeSet(ModuleRef(id), ModuleFields(m))], None);
    var fichesDs := Records(ChildCollection(id, FichesName));
    var videosDs := Records(ChildCollection(id, VideosName));
    var quizzesDs := Quizzes(ChildCollection(id, QuizzesName), Str(id));
    var fiches := Stage(fichesDs, RecordsOf(FixtureFile(fx.fiches, id)));
    var videos := Stage(videosDs, RecordsOf(FixtureFile(fx.videos, id)));
    var quizzes := Stage(quizzesDs, RecordsOf(FixtureFile(fx.quizzes, id)));
    var count := Plan([MergeSet(ModuleRef(id), CountFields(|quizzes.ops|))], None);
    StageAllOwned(id, FichesName, fichesDs, RecordsOf(FixtureFile(fx.fiches, id)));
    StageAllOwned(id, VideosName, videosDs, RecordsOf(FixtureFile(fx.videos, id)));
    StageAllOwned(id, QuizzesName, quizzesDs, RecordsOf(FixtureFile(fx.quizzes, id)));
    assert AllOwned(id, header.ops);
    assert AllOwned(id, count.ops);
    ThenAllOwned(id, header, fiches);
    ThenAllOwned(id, Then(header, fiches), videos);
    ThenAllOwned(id, Then(Then(header, fiches), videos), quizzes);
    ThenAllOwned(id, Then(Then(Then(header, fiches), videos), quizzes), count);
  }

  lemma StageInCollection(ds: Dataset, records: seq<Value>)
    ensures forall k :: 0 <= k < |Stage(ds, records).ops| ==>
              Stage(ds, records).ops[k].MergeSet? && InCollection(ds.coll, Stage(ds, records).ops[k].path)
  {
    StageShape(ds, records);
  }

  /** The last operation of a completed module sets its quiz count. */
  lemma BodySetsCount(docs: Docs, m: Value, fx: Fixtures)
    requires !Nullish(m) && ValidId(Field(m, "id"))
    requires ModuleBody(m, Field(m, "id").s, fx).error.None?
    ensures CountSet(Execute(docs, ModuleBody(m, Field(m, "id").s, fx).ops), m, fx)
  {
    var id := Field(m, "id").s;
    var quizzesDs := Quizzes(ChildCollection(id, QuizzesName), Str(id));
    var records := RecordsOf(FixtureFile(fx.quizzes, id));
    StageShape(quizzesDs, records);
    var ops := ModuleBody(m, id, fx).ops;
    var last := MergeSet(ModuleRef(id), CountFields(|Stage(quizzesDs, records).ops|));
    assert ops[|ops| - 1] == last;
    MergeFields(Execute(docs, ops[..|ops| - 1]), last.path, last.fields);
  }

  /** Without reset the run only merges fields. */
  lemma {:induction false} RunModulesMergesOnly(modules: seq<Value>, fx: Fixtures)
    ensures MergesOnly(RunModules(modules, fx, false).ops)
    decreases |modules|
  {
    if modules != [] {
      RunModulesMergesOnly(modules[..|modules| - 1], fx);
      var m := modules[|modules| - 1];
      if !Nullish(m) && ValidId(Field(m, "id")) {
        BodyMergesOnly(m, Field(m, "id").s, fx);
      }
    }
  }

  lemma BodyMergesOnly(m: Value, id: string, fx: Fixtures)
    ensures MergesOnly(ModuleBody(m, id, fx).ops)
  {
    var header := Plan([MergeSet(ModuleRef(id), ModuleFields(m))], None);
    var fiches := Stage(Records(ChildCollection(id, FichesName)), RecordsOf(FixtureFile(fx.fiches, id)));
    var videos := Stage(Records(ChildCollection(id, VideosName)), RecordsOf(FixtureFile(fx.videos, id)));
    var quizzes := Stage(Quizzes(ChildCollection(id, QuizzesName), Str(id)), RecordsOf(FixtureFile(fx.quizzes, id)));
    var count := Plan([MergeSet(ModuleRef(id), CountFields(|quizzes.ops|))], None);
    StageInCollection(Records(ChildCollection(id, FichesName)), RecordsOf(FixtureFile(fx.fiches, id)));
    StageInCollection(Records(ChildCollection(id, VideosName)), RecordsOf(FixtureFile(fx.videos, id)));
    StageInCollection(Quizzes(ChildCollection(id, QuizzesName), Str(id)), RecordsOf(FixtureFile(fx.quizzes, id)));
    ThenMergesOnly(header, fiches);
    ThenMergesOnly(Then(header, fiches), videos);
    ThenMergesOnly(Then(Then(header, fiches), videos), quizzes);
    ThenMergesOnly(Then(Then(Then(header, fiches), videos), quizzes), count);
  }

  lemma ThenMergesOnly(first: Plan, next: Plan)
    requires MergesOnly(first.ops) && MergesOnly(next.ops)
    ensures MergesOnly(Then(first, next).ops)
  {
    if first.error.None? {
      var ops := first.ops + next.ops;
      forall k | 0 <= k < |ops|
        ensures ops[k].MergeSet?
      {
        if k >= |first.ops| {
          assert ops[k] == next.ops[k - |first.ops|];
        }
      }
    }
  }

  /** Importing twice with the same fixtures and no reset leaves the store
      as importing once did (the timestamp markers are equal values here;
      the real server clock would advance them). */
  lemma ImportIdempotent(docs: Docs, fx: Fixtures)
    ensures var ops := Run(fx, false).ops; Execute(Execute(docs, ops), ops) == Execute(docs, ops)
  {
    if fx.modules.Some? {
      RunModulesMergesOnly(fx.modules.value, fx);
    }
    ExecuteIdempotent(docs, Run(fx, false).ops);
  }

  /** A module without fiches, videos or quizzes files gets its header and
      then a quiz count of 0, whatever it held before. */
  lemma BodyWithoutFiles(m: Value, id: string, fx: Fixtures)
    requires id !in fx.fiches && id !in fx.videos && id !in fx.quizzes
    ensures ModuleBody(m, id, fx) ==
      Plan([MergeSet(ModuleRef(id), ModuleFields(m)), MergeSet(ModuleRef(id), CountFields(0))], None)
  {
    var header := Plan([MergeSet(ModuleRef(id), ModuleFields(m))], None);
    var empty := Plan([], None);
    assert Stage(Records(ChildCollection(id, FichesName)), RecordsOf(FixtureFile(fx.fiches, id))) == empty;
    assert Stage(Records(ChildCollection(id, VideosName)), RecordsOf(FixtureFile(fx.videos, id))) == empty;
    assert Stage(Quizzes(ChildCollection(id, QuizzesName), Str(id)), RecordsOf(FixtureFile(fx.quizzes, id))) == empty;
    assert Then(header, empty) == header;
  }

  /** A modules list `[{id: "m1", title: "Math"}]` with no other file gives
      one module document with zero counts and no child documents. */
  lemma SingleModuleNoFiles()
    ensures var fx := Fixtures(Some([MathModule()]), map[], map[], map[]);
      && Run(fx, false).error.None?
      && Execute(map[], Run(fx, false).ops) == map[ModuleRef("m1") := MathHeader()]
  {
    var m1 := MathModule();
    var fx := Fixtures(Some([m1]), map[], map[], map[]);
    var ref := ModuleRef("m1");
    BodyWithoutFiles(m1, "m1", fx);
    var ops := [MergeSet(ref, ModuleFields(m1)), MergeSet(ref, CountFields(0))];
    assert ModulePlan(m1, fx, false) == Plan(ops, None) by {
      assert Field(m1, "id") == Str("m1");
      assert Then(Plan([], None), Plan(ops, None)) == Plan(ops, None);
    }
    assert RunModules([m1], fx, false) == Plan(ops, None) by {
      assert [m1][..0] == [];
      assert RunModules([m1], fx, false) == Then(RunModules([], fx, false), ModulePlan(m1, fx, false));
    }
    TwoMergesOnEmpty(ref, ModuleFields(m1), CountFields(0));
    MathModuleFields();
    MathHeaderCounted();
  }

  lemma TwoMergesOnEmpty(ref: Path, first: Doc, second: Doc)
    ensures Execute(map[], [MergeSet(ref, first), MergeSet(ref, second)]) == map[ref := first + second]
  {
    var ops := [MergeSet(ref, first), MergeSet(ref, second)];
    var none: Docs := map[];
    var empty: Doc := map[];
    assert ops[..1] == [ops[0]] && ops[..1][..0] == [];
    assert empty + first == first;
    assert Execute(none, ops[..1]) == Merge(none, ref, first) == map[ref := first];
    assert Execute(none, ops) == Merge(map[ref := first], ref, second);
    assert DocAt(map[ref := first], ref) == first;
  }

  lemma MathHeaderCounted()
    ensures MathHeader() + CountFields(0) == MathHeader()
  {
    var header := MathHeader();
    var counted := header + CountFields(0);
    assert counted.Keys == header.Keys;
    forall k | k in counted
      ensures counted[k] == header[k]
    {
    }
  }

  function MathModule(): Value {
    Obj(map["id" := Str("m1"), "title" := Str("Math")])
  }

  function MathHeader(): Doc {
    map["title" := Str("Math"), "description" := Str(""), "countFiches" := Int(0),
        "countVideos" := Int(0), "countQuizzes" := Int(0), "tags" := Arr([]),
        "imageUrl" := Str(""), "updatedAt" := ServerTimestamp]
  }

  lemma MathModuleFields()
    ensures ModuleFields(MathModule()) == MathHeader()
  {
    var fields := ModuleFields(MathModule());
    var header := MathHeader();
    MathModuleKeys();
    forall k | k in header
      ensures fields[k] == header[k]
    {
      MathModuleField(k);
    }
  }

  /** The example module's document has exactly the header's fields. */
  lemma MathModuleKeys()
    ensures ModuleFields(MathModule()).Keys == MathHeader().Keys
  {
    assert ModuleDefaults.Keys + {"updatedAt"} == MathHeader().Keys;
  }

  /** Each field of the example module's document, one key at a time. */
  lemma MathModuleField(k: string)
    requires k in MathHeader()
    ensures k in ModuleFields(MathModule()) && ModuleFields(MathModule())[k] == MathHeader()[k]
  {
    MathModuleKeys();
    var m1 := MathModule();
    if k != "updatedAt" {
      assert Field(m1, k) == if k == "title" then Str("Math") else Undefined;
    }
  }


}
