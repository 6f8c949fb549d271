# Firestore course-module import, modelled in Dafny

The import script `lib/firebase-import/import.js` loads a list of course
modules and their per-module fixture files into Firestore:

- the fixture files are fiches de synthèse, videos and quizzes;
- it can optionally reset each module's child collections first, by deleting
  their documents in batches of 500;
- it merge-writes a module header with `||` defaults;
- it merge-writes every fiche and video as it is given;
- it normalises every quiz into a canonical document;
- it finishes each module by overwriting `countQuizzes` with the number of
  quizzes written.

The project models this as follows.

- `JsValue` models the JavaScript values read from the JSON fixtures and the
  language operations the script relies on:
  - truthiness behind `||` and nullishness behind `??`;
  - property access;
  - `String(...)`;
  - `parseInt(..., 10)`: leading white space, an optional sign, then leading
    decimal digits, NaN otherwise.
- `Normalize` holds the two documents built from untrusted records, both as
  pure functions: the quiz with its embedded questions, and the module
  header.
- `Firestore` is an in-memory store: a map from document path to a map of
  fields.
  - Merge-set, `set(fields, {merge: true})`, overwrites the given fields and
    keeps every other field.
  - A `Store` class holds the store and offers the three calls the script
    makes: a bounded collection fetch, a batched delete and a merge-set.
- `Reset` holds `deleteCollection` as the imperative `while` loop of the
  script, proved to empty the collection in `⌈n/500⌉` batches.
- `ImportPlan` describes a whole run as a pure value: the ordered sequence of
  merge-sets and collection resets, and the error that stops the run, if any.
  - Whether a record fails depends only on the record, never on the store.
  - So the ordering, the abort on the first failing record, ownership of the
    written paths and idempotence are all proved once, on this value.
- `Import` holds the loops of `importModules` as imperative methods over the
  `Store`. Each is proved to return its plan's error.
  - When no reset fails, each leaves the store exactly as executing its plan
    would.
  - When a reset fails part-way, the store after each module is the
    module's writes executed on the partly reset store, the collections after
    the failing one are untouched, and nothing outside the module's tree
    changes.

The script raises, and the model returns as an `Error`, in these cases (the
errors the database itself may raise are listed under "Left out"):

- a `TypeError` for a null or undefined module, fiche, video, quiz or
  question record;
- a `TypeError` for a truthy `questions` that is not an array;
- a `TypeError` when a value must be converted to a string and is an object
  with its own `toString` key, or an array holding one. JSON gives such a key
  a plain value that cannot be called, so the conversion throws. This
  applies to the module id written into the log line at line 54, and to a
  question's text, explanation, options (when an array) and a correct index
  that is not an integer;
- a rejected document id (`InvalidDocumentId`): the model rejects anything
  but a non-empty string without `/`, which is stricter than Firestore (see
  "Left out");
- a missing `modules.json` (`ModulesFileMissing`).

Each of these ends the run. Everything written before it stays in the store.

A failing reset never ends the run; the script only logs it. The model takes
reset failures as a parameter: for each collection, the number of batches the
database accepts before its next round trip fails.

Only `countQuizzes` is recomputed. `countFiches` and `countVideos` are copied
from the module record, or default to 0. The header comment of the script
says that all three counts are updated. The model follows the code.

## Model

| member | source | states |
|---|---|---|
| JsValue.Truthy | lib/firebase-import/import.js:71-77 | only undefined, null, false, 0 and "" are falsy; a truthy value is never null or undefined |
| JsValue.Or | lib/firebase-import/import.js:71-77 | the logical or of `a` and `b` is one of its operands, and it is truthy exactly when either operand is |
| JsValue.Coalesce | lib/firebase-import/import.js:118-120 | `a ?? b` is one of its operands, and it is null or undefined exactly when both are |
| JsValue.Field | lib/firebase-import/import.js:53 | a property read yields something other than undefined only for an own field of an object, and then that field's value |
| JsValue.IntToString | lib/firebase-import/import.js:124 | `String(n)` is non-empty and starts with a minus sign exactly when `n` is negative |
| JsValue.ToString | lib/firebase-import/import.js:123-128 | defined for every value except an object with its own `toString` key or an array holding one (StringThrows: the script throws there); `String(v)` of an integer parses back to that integer; of a string it is the string itself; of a boolean, null, undefined or an object it parses to NaN |
| JsValue.ParseInt | lib/firebase-import/import.js:127 | `parseInt(text, 10)` yields a number exactly when digits follow the optional leading white space and sign; otherwise NaN |
| JsValue.ParseIntOfIntToString | lib/firebase-import/import.js:127 | for every integer `n`, `parseInt(String(n), 10)` is `n` (negative numbers included) |
| JsValue.ParseIntNaN | lib/firebase-import/import.js:127 | text starting with anything other than white space, a sign or a digit parses to NaN (e.g. "abc", "true") |
| JsValue.ParseIntPrefix | lib/firebase-import/import.js:127 | a numeral followed by a non-digit is read up to the first non-digit ("2 (b)" is 2) |
| Normalize.CorrectIndex | lib/firebase-import/import.js:125-127 | defined wherever the script's conversion does not throw (no own `toString` key); an integer is kept; null or undefined gives 0; otherwise the base-10 parse of the value's string form, and 0 when that is NaN |
| Normalize.CorrectIndexOfNumeral | lib/firebase-import/import.js:125-127 | a correct index written as the numeral of `n` is read as `n` |
| Normalize.CorrectIndexExamples | lib/firebase-import/import.js:125-127 | 3 stays 3; undefined, null, "abc" and `true` give 0; " 2 (b)" gives 2; `[1]` gives 1 |
| Normalize.NormalizeQuestion | lib/firebase-import/import.js:122-129 | defined for a non-null question none of whose converted fields throws (QuestionThrows); `question` and `explanation` are the string form of the field, or "" when falsy; `options` is the element-wise string form of an array, [] otherwise; `correctIndex` follows CorrectIndex |
| Normalize.NormalizeQuiz | lib/firebase-import/import.js:113-133 | fails with a TypeError exactly when the record is null or undefined, or its truthy `questions` is not an array or holds a null or undefined entry or a question whose text, explanation, options array or non-integer correct index is an object with its own `toString` key or an array holding one; `id` is copied; `moduleId`, `title`, `description` and `badgeThresholds` replace any falsy value with their defaults (badge mapping used whole); `durationSeconds`, `allowRetake` and `order` replace only null or undefined; questions keep length and order; `questionCount` is the raw array length, 0 when not an array, and equals the number of questions |
| Normalize.QuizFields | lib/firebase-import/import.js:113-133 | the stored quiz has exactly the twelve fields of the script's document, `questionCount` equals the length of the stored `questions`, and both timestamps are the server marker |
| Normalize.QuestionFixpoint | lib/firebase-import/import.js:122-129 | a stored question, read back as a record, normalises to itself |
| Normalize.NormalizeQuizFixpoint | lib/firebase-import/import.js:113-133 | importing a stored quiz document again under the same module gives the same quiz: normalisation is idempotent |
| Normalize.OwnToStringText | lib/firebase-import/import.js:123 | a quiz whose question text is `{"toString": "x"}` fails with a TypeError |
| Normalize.OwnToStringIndex | lib/firebase-import/import.js:125-127 | a quiz whose correct index is `{"toString": 1}` fails with a TypeError, since `parseInt` converts it to a string first |
| Normalize.FalsyFieldsExample | lib/firebase-import/import.js:115-120 | an empty title becomes "Quiz" while an explicit `allowRetake: false` and `order: 0` are kept, and a missing `moduleId` becomes the module's id |
| Normalize.ModuleFields | lib/firebase-import/import.js:70-79 | the header has exactly the seven fields plus `updatedAt`; a truthy record value is kept, a falsy one takes its default ("", 0 or []) |
| Normalize.ModuleFieldsFixpoint | lib/firebase-import/import.js:70-79 | re-importing a stored header as a module record leaves it unchanged |
| Firestore.MergeFields | lib/firebase-import/import.js:80 | a merge-set creates the document if needed, overwrites the given fields, keeps its other fields and leaves every other document as it was |
| Firestore.MergeIdempotent | lib/firebase-import/import.js:80 | merging the same fields twice equals merging them once |
| Firestore.Clear | lib/firebase-import/import.js:30-39 | an emptied collection has none of its documents left, and every other document is kept with its fields |
| Firestore.MergesKeepFields | lib/firebase-import/import.js:80-147 | a run of merge-sets never deletes a document or a field: a document present before keeps at least its fields |
| Firestore.ExecuteFrame | lib/firebase-import/import.js:52-148 | a document that no operation of the run names keeps its existence and its fields |
| Firestore.ExecuteIdempotent | lib/firebase-import/import.js:52-148 | replaying the same sequence of merge-sets changes nothing further |
| Firestore.Store.Get | lib/firebase-import/import.js:33 | the fetch returns documents of the collection, `min(limit, size)` of them |
| Firestore.Store.CommitDeletes | lib/firebase-import/import.js:35-37 | a committed batch of at most 500 deletes removes exactly its documents |
| Firestore.Store.SetMerge | lib/firebase-import/import.js:80 | the store becomes the merge-set of the given fields |
| Reset.FullBatchesSum | lib/firebase-import/import.js:32-38 | batches that are all full but the last delete 500 per batch plus the last batch's size |
| Reset.FullBatchesCount | lib/firebase-import/import.js:32-38 | such batches number exactly `⌈deleted/500⌉` |
| Reset.DeleteCollection | lib/firebase-import/import.js:30-39 | without a failure the collection ends empty after `⌈n/500⌉` batches of 1 to 500 deletes, all full but the last; an empty collection takes no batch; every batch shrinks the collection (the loop terminates); a failure after `k` batches is reported; either way only documents of that collection are deleted, and nothing is modified |
| ImportPlan.RecordOp | lib/firebase-import/import.js:86-100 | a fiche or video is written as given into its child collection under its own id; it fails exactly when it is null or undefined (a TypeError) or its id is not a valid document id (InvalidDocumentId); every record that passes, quizzes included, is one merge-set into its dataset's collection |
| ImportPlan.QuizRecordOp | lib/firebase-import/import.js:111-135 | a quiz record fails exactly when it is null or undefined, its truthy `questions` is not an array of non-null entries or holds a question with a field whose string conversion throws (all a TypeError, see Normalize.NormalizeQuiz), or its id is not a valid document id (InvalidDocumentId); one that passes is written as its normalised quiz document under its own id |
| ImportPlan.Stage | lib/firebase-import/import.js:86-137 | the records of one file give at most one merge-set each, exactly one each when no record fails, all inside the file's child collection |
| ImportPlan.StageShape | lib/firebase-import/import.js:86-88 | the records of a file are written in order, one merge-set each, up to the first failing record, whose error ends the stage |
| ImportPlan.StageOps | lib/firebase-import/import.js:86-88 | the k-th operation of a stage is the merge-set of the k-th record |
| ImportPlan.StageOp | lib/firebase-import/import.js:86-88 | for one index k below the number of operations, the k-th operation is what the k-th record yields |
| ImportPlan.StageError | lib/firebase-import/import.js:86-88 | a failed stage stops at the record right after its last operation, and that record raised the stage's error |
| ImportPlan.StageErrorSticky | lib/firebase-import/import.js:86-88 | once a record fails, later records write nothing |
| ImportPlan.ModuleBodyShape | lib/firebase-import/import.js:69-147 | ModuleBody, the writes of one module, starts with the header merge-set and, when no record fails, ends with a `countQuizzes` equal to the number of records in the module's quizzes file |
| ImportPlan.ModulePlanShape | lib/firebase-import/import.js:52-80 | ModulePlan, one iteration of the module loop: a null record, or an id with its own `toString` key (or an array holding one), fails with a TypeError, and any other invalid id with InvalidDocumentId, all before any write; otherwise the reset (when asked for) comes first, the header right after it, and the module fails exactly as its writes do |
| ImportPlan.RunModulesCompletes | lib/firebase-import/import.js:52-148 | RunModules, the loop over the modules, completes exactly when every module's import does; otherwise its error is the error of one of the modules |
| ImportPlan.RunCompletes | lib/firebase-import/import.js:45-151 | Run, the whole import: without a modules file it fails with ModulesFileMissing before any write; otherwise it completes exactly when every module's import does |
| ImportPlan.RunModulesErrorSticky | lib/firebase-import/import.js:52-148 | once a module fails, later modules write nothing |
| ImportPlan.ModuleOpsOwned | lib/firebase-import/import.js:55-147 | every reset and write of a module stays inside `modules/<id>` and its child collections |
| ImportPlan.BodySetsCount | lib/firebase-import/import.js:108-147 | after a module completes, its `countQuizzes` is the number of quiz records in its quizzes file (0 without one), whatever the record or an earlier run stored |
| ImportPlan.RunModulesMergesOnly | lib/firebase-import/import.js:52-148 | without reset the run only merges fields; it never deletes |
| ImportPlan.ImportIdempotent | lib/firebase-import/import.js:45-151 | running the import twice with the same fixtures and no reset leaves the store as running it once |
| ImportPlan.BodyWithoutFiles | lib/firebase-import/import.js:69-147 | a module without fiches, videos or quizzes files writes its header and then a quiz count of 0, nothing else |
| ImportPlan.SingleModuleNoFiles | lib/firebase-import/import.js:45-151 | the list `[{id: "m1", title: "Math"}]` with no other file yields one document `modules/m1` with title "Math", all counts 0 and no child documents |
| Import.ResetModule | lib/firebase-import/import.js:58-66 | the three child collections are emptied in order; no fault entry for any of them implies success, and success is exactly the three resets executed; a failure on a collection is reported, the collections before it are empty, and the ones after it are untouched; either way nothing outside the child collections is deleted and nothing is modified |
| Import.ImportRecords | lib/firebase-import/import.js:86-88 | the fiche or video loop writes exactly what the stage prescribes and returns its error |
| Import.ImportRecordsFile | lib/firebase-import/import.js:84-92 | an absent file writes nothing; otherwise as ImportRecords |
| Import.ImportQuizzes | lib/firebase-import/import.js:111-137 | the quiz loop writes exactly what the stage prescribes; `quizzesCount` is the number of quizzes written, and all of them when no record fails |
| Import.ImportQuizzesFile | lib/firebase-import/import.js:107-141 | an absent quizzes file writes nothing and counts 0 |
| Import.WriteModule | lib/firebase-import/import.js:69-147 | the header, fiches, videos, quizzes and final count are written as the module's plan prescribes, stopping at the first error |
| Import.ModuleOutcome | lib/firebase-import/import.js:52-148 | after a reset that leaves other modules alone, a module's writes touch only its own tree and, when they complete, set its quiz count |
| Import.HeaderWritten | lib/firebase-import/import.js:69-80 | once a module's writes start, its document exists with at least the header fields, whatever fails later |
| Import.FaultElsewhere | lib/firebase-import/import.js:58-66 | a fault planned on module m2's videos leaves module m1's reset free to succeed, so importing m1 is exact |
| Import.ImportModule | lib/firebase-import/import.js:52-148 | one module: its error is the plan's (a null record or an id that cannot be converted to a string fails with a TypeError, any other invalid id with InvalidDocumentId), and these leave the store as it was; otherwise, after a reset that only deleted child documents (successful or not), the module's writes run on that store exactly as its plan prescribes, so its header is always written; the reset's own outcome is reported: the collections before a failing one are empty and the later ones untouched; when this module's reset succeeds (always when no fault entry names its collections) the store is exactly the module's plan executed, whatever faults other modules have; nothing outside the module's tree changes; on success `countQuizzes` is set |
| Import.CountsKept | lib/firebase-import/import.js:52-148 | importing a later module keeps the quiz counts of the earlier ones |
| Import.ImportModules | lib/firebase-import/import.js:45-151 | a missing modules file fails and writes nothing; otherwise the modules run in file order up to the first error; when every module's reset succeeds (always when no fault entry names a collection of a listed module) the store is exactly the run's plan executed; whatever fails, a document outside every module's tree is unchanged; on success every module's `countQuizzes` is its number of quizzes |

## Left out

- Firebase initialisation and the service-account check (lines 14-24): these are external library setup and `process.exit`.
- `process.argv` and the final `catch` (lines 153-158): `reset` is a parameter, and a fatal error is the returned `Error`.
- Reading files, `path.join` and `JSON.parse` (lines 46-50, 83-85, 95-97, 107-110): fixtures arrive already parsed, as an optional list of records per file. Unparsable JSON and a `modules.json` that is not an array are not modelled.
- `FieldValue.serverTimestamp()` (lines 78, 131-132, 145): it is one opaque marker value. ImportPlan.ImportIdempotent therefore does not show that the server clock advances `createdAt` and `updatedAt` on every run.
- Console logging (lines 54, 63, 65, 89, 91, 101, 103, 138, 140, 150): it has no effect on the store.
- `async`/`await`: every call is awaited in turn, so the model is sequential code.
- Numbers are unbounded integers, while JavaScript numbers are doubles. A JSON integer beyond 2^53 is rounded when parsed, and `String` writes an integer of magnitude 10^21 or more in exponent form ("1e+21", which `parseInt` reads as 1). JsValue.ParseIntOfIntToString, JsValue.ToString and Normalize.CorrectIndexOfNumeral therefore describe the script only for integers of magnitude at most 2^53.
- Floating-point `correctIndex` values and the full `parseInt`/`String` grammar (exponents, `Infinity`, a `0x` prefix, which base 10 does not accept anyway) are not modelled.
- Firestore.Store.Get: which documents a fetch returns is left open; Firestore returns them in document-id order.
- Firestore.MergeFields: the merge is at the top level. Firestore also merges nested maps field by field, and that deep merge is not modelled.
- Document ids: the model stops with `InvalidDocumentId` on any id containing `/`. Firestore's `doc(id)` instead splits such an id into path segments and drops empty ones: "m1/" names the document m1, and an id such as "a/b/c" under a child collection names a nested document that the script writes. Only an id whose segments do not end on a document is rejected. The model does not follow these nested paths. Firestore's other rejected ids (".", "..", `__…__`) and its rejection of `undefined` field values are not modelled either.
- Database-side failures: the store's merge-set and batched delete never fail in the model. In the script a rejected write rejects the awaited promise. Causes include a network or permission error, a nested array, and a document over 1 MiB. Outside a reset, that ends the whole run through the `catch` of lines 155-158, and earlier writes stay in place.
- A per-module fixture file whose JSON is not an array: `for...of` throws at lines 86, 98 or 111 on an object or a number, and walks the characters of a string. The model takes every present file as a list of records.
- Reset failures are abstract: each collection's fetch fails after a given number of committed batches. The error message is not modelled.
- Import.ImportModules: when some module's reset fails, the exact final store of the whole run is not stated. Each module's step, Import.ImportModule, states it relative to the partly reset store. The run states the error, that every document outside all the modules' trees is unchanged, and the quiz counts.
