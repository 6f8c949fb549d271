/** The two documents the import script builds from untrusted fixture
    records: the canonical quiz (with its embedded questions) and the module
    header. Both are pure mappings from the parsed record. */
module Normalize {
  import opened Outcomes
  import opened JsValue

  /** One embedded question of a stored quiz. */
  datatype Question = Question(
    question: string,
    options: seq<string>,
    correctIndex: int,
    explanation: string)

  /** The canonical quiz document (without its two server timestamps). The
      fields copied through `||` or `??` keep whatever JSON value the record
      held, as the script does. */
  datatype Quiz = Quiz(
    id: Value,
    moduleId: Value,
    title: Value,
    description: Value,
    durationSeconds: Value,
    allowRetake: Value,
    order: Value,
    badgeThresholds: Value,
    questions: seq<Question>,
    questionCount: nat)

  const DefaultBadgeThresholds: Value :=
    Obj(map["gold" := Int(90), "silver" := Int(75), "bronze" := Int(50)])

  /** `Number.isInteger(raw) ? raw : parseInt(raw ?? 0, 10) || 0`; `parseInt`
      converts its argument with `String` first, so a value where
      StringThrows holds raises instead (the caller reports it). */
  function CorrectIndex(raw: Value): (r: int)
    requires !StringThrows(raw)
    ensures raw.Int? ==> r == raw.i
    ensures Nullish(raw) ==> r == 0
    ensures !raw.Int? && !Nullish(raw) && ParseInt(ToString(raw)).None? ==> r == 0
    ensures !raw.Int? && !Nullish(raw) && ParseInt(ToString(raw)).Some? ==> r == ParseInt(ToString(raw)).value
  {
    if raw.Int? then raw.i
    else
      ParseIntOfIntToString(0);
      match ParseInt(ToString(Coalesce(raw, Int(0))))
      case None => 0      // NaN || 0
      case Some(n) => n   // n || 0 is n, a zero staying zero
  }

  /** Converting a question's texts raises a TypeError (lines 123-128): its
      `question` or `explanation` (only a truthy one is converted, and every
      value where StringThrows holds is truthy), an element of an array
      `options`, or a `correctIndex` (never an integer when StringThrows
      holds). */
  predicate QuestionThrows(raw: Value) {
    || StringThrows(Field(raw, "question"))
    || StringThrows(Field(raw, "explanation"))
    || (Field(raw, "options").Arr? && StringThrows(Field(raw, "options")))
    || StringThrows(Field(raw, "correctIndex"))
  }

  /** The mapping applied to each element of `questions`; the element is
      not null or undefined (reading a property of one raises a TypeError)
      and none of its conversions raises. */
  function NormalizeQuestion(raw: Value): (r: Question)
    requires !Nullish(raw) && !QuestionThrows(raw)
    ensures Truthy(Field(raw, "question")) ==> r.question == ToString(Field(raw, "question"))
    ensures !Truthy(Field(raw, "question")) ==> r.question == ""
    ensures Truthy(Field(raw, "explanation")) ==> r.explanation == ToString(Field(raw, "explanation"))
    ensures !Truthy(Field(raw, "explanation")) ==> r.explanation == ""
    ensures !Field(raw, "options").Arr? ==> r.options == []
    ensures Field(raw, "options").Arr? ==>
              |r.options| == |Field(raw, "options").items| &&
              forall k :: 0 <= k < |r.options| ==> r.options[k] == ToString(Field(raw, "options").items[k])
    ensures r.correctIndex == CorrectIndex(Field(raw, "correctIndex"))
  {
    var options := Field(raw, "options");
    Question(
      ToString(Or(Field(raw, "question"), Str(""))),
      if options.Arr? then seq(|options.items|, k requires 0 <= k < |options.items| => ToString(options.items[k])) else [],
      CorrectIndex(Field(raw, "correctIndex")),
      ToString(Or(Field(raw, "explanation"), Str(""))))
  }

  /** `(q.questions || [])` fails with a TypeError when the value is truthy
      but has no `map` (it is not an array), or when the mapping meets a null
      or undefined element or one whose conversions raise. */
  predicate QuestionsMalformed(q: Value) {
    var qs := Field(q, "questions");
    Truthy(qs) && (!qs.Arr? || exists k :: 0 <= k < |qs.items| && (Nullish(qs.items[k]) || QuestionThrows(qs.items[k])))
  }

  /** The quiz document the script builds for record `q` of module
      `moduleId` (lines 113-133). */
  function NormalizeQuiz(q: Value, moduleId: Value): (r: Result<Quiz>)
    // the record is rejected exactly when JavaScript would throw
    ensures r.Err? <==> Nullish(q) || QuestionsMalformed(q)
    ensures r.Err? ==> r.error == TypeError
    ensures r.Ok? ==> r.value.id == Field(q, "id")
    // `||` fields: any falsy raw value is replaced
    ensures r.Ok? ==> r.value.moduleId == (if Truthy(Field(q, "moduleId")) then Field(q, "moduleId") else moduleId)
    ensures r.Ok? ==> r.value.title == (if Truthy(Field(q, "title")) then Field(q, "title") else Str("Quiz"))
    ensures r.Ok? ==> r.value.description == (if Truthy(Field(q, "description")) then Field(q, "description") else Str(""))
    ensures r.Ok? ==> r.value.badgeThresholds == (if Truthy(Field(q, "badgeThresholds")) then Field(q, "badgeThresholds") else DefaultBadgeThresholds)
    // `??` fields: only null and undefined are replaced
    ensures r.Ok? ==> r.value.durationSeconds == (if Nullish(Field(q, "durationSeconds")) then Null else Field(q, "durationSeconds"))
    ensures r.Ok? ==> r.value.allowRetake == (if Nullish(Field(q, "allowRetake")) then Bool(true) else Field(q, "allowRetake"))
    ensures r.Ok? ==> r.value.order == (if Nullish(Field(q, "order")) then Int(0) else Field(q, "order"))
    // questions keep length and order; the count comes from the raw array
    ensures r.Ok? && Field(q, "questions").Arr? ==>
              var raw := Field(q, "questions").items;
              |r.value.questions| == |raw| == r.value.questionCount &&
              forall k :: 0 <= k < |raw| ==>
                !Nullish(raw[k]) && !QuestionThrows(raw[k]) && r.value.questions[k] == NormalizeQuestion(raw[k])
    ensures r.Ok? && !Field(q, "questions").Arr? ==> r.value.questions == [] && r.value.questionCount == 0
    ensures r.Ok? ==> r.value.questionCount == |r.value.questions|
  {
    if Nullish(q) then Err(TypeError)
    else
      var qs := Field(q, "questions");
      var raw := Or(qs, Arr([]));
      if !raw.Arr? then Err(TypeError)
      else if exists k :: 0 <= k < |raw.items| && (Nullish(raw.items[k]) || QuestionThrows(raw.items[k])) then Err(TypeError)
      else
        var questions := seq(|raw.items|, k requires 0 <= k < |raw.items| && !Nullish(raw.items[k]) && !QuestionThrows(raw.items[k]) =>
                               NormalizeQuestion(raw.items[k]));
        Ok(Quiz(
          Field(q, "id"),
          Or(Field(q, "moduleId"), moduleId),
          Or(Field(q, "title"), Str("Quiz")),
          Or(Field(q, "description"), Str("")),
          Coalesce(Field(q, "durationSeconds"), Null),
          Coalesce(Field(q, "allowRetake"), Bool(true)),
          Coalesce(Field(q, "order"), Int(0)),
          Or(Field(q, "badgeThresholds"), DefaultBadgeThresholds),
          questions,
          if qs.Arr? then |qs.items| else 0))
  }

  function QuestionValue(q: Question): Value {
    Obj(map[
      "question" := Str(q.question),
      "options" := Arr(seq(|q.options|, k requires 0 <= k < |q.options| => Str(q.options[k]))),
      "correctIndex" := Int(q.correctIndex),
      "explanation" := Str(q.explanation)])
  }

  /** The fields written for a quiz, including the two timestamp markers. */
  function QuizFields(quiz: Quiz): (r: map<string, Value>)
    ensures r.Keys == {"id", "moduleId", "title", "description", "durationSeconds", "allowRetake", "order",
                       "badgeThresholds", "questions", "questionCount", "createdAt", "updatedAt"}
    ensures r["questions"].Arr? && |r["questions"].items| == |quiz.questions|
    ensures quiz.questionCount == |quiz.questions| ==> r["questionCount"] == Int(|r["questions"].items|)
    ensures r["createdAt"] == r["updatedAt"] == ServerTimestamp
  {
    map[
      "id" := quiz.id,
      "moduleId" := quiz.moduleId,
      "title" := quiz.title,
      "description" := quiz.description,
      "durationSeconds" := quiz.durationSeconds,
      "allowRetake" := quiz.allowRetake,
      "order" := quiz.order,
      "badgeThresholds" := quiz.badgeThresholds,
      "questions" := Arr(seq(|quiz.questions|, k requires 0 <= k < |quiz.questions| => QuestionValue(quiz.questions[k]))),
      "questionCount" := Int(quiz.questionCount),
      "createdAt" := ServerTimestamp,
      "updatedAt" := ServerTimestamp]
  }

  /** What `||` falls back to for each module header field. */
  const ModuleDefaults: map<string, Value> := map[
    "title" := Str(""),
    "description" := Str(""),
    "countFiches" := Int(0),
    "countVideos" := Int(0),
    "countQuizzes" := Int(0),
    "tags" := Arr([]),
    "imageUrl" := Str("")]

  /** The module header merged into `modules/<id>` (lines 70-79): each
      field is `m.<field> || <default>`, plus the update marker. */
  function ModuleFields(m: Value): (r: map<string, Value>)
    ensures r.Keys == ModuleDefaults.Keys + {"updatedAt"}
    ensures forall k :: k in ModuleDefaults && Truthy(Field(m, k)) ==> r[k] == Field(m, k)
    ensures forall k :: k in ModuleDefaults && !Truthy(Field(m, k)) ==> r[k] == ModuleDefaults[k]
    ensures r["updatedAt"] == ServerTimestamp
  {
    assert "updatedAt" !in ModuleDefaults;
    map k | k in ModuleDefaults.Keys + {"updatedAt"} ::
      if k in ModuleDefaults then Or(Field(m, k), ModuleDefaults[k]) else ServerTimestamp
  }

  // ---------------------------------------------------------------------
  // Lemmas

  /** A numeral string is read back as the integer it denotes, so an index
      written as "2" lands where the integer 2 would. */
  lemma CorrectIndexOfNumeral(n: int)
    ensures CorrectIndex(Str(IntToString(n))) == n
  {
    ParseIntOfIntToString(n);
  }

  /** The fallbacks of `parseInt(raw ?? 0, 10) || 0` on typical fixture
      values. */
  lemma CorrectIndexExamples()
    ensures CorrectIndex(Int(3)) == 3
    ensures CorrectIndex(Undefined) == 0
    ensures CorrectIndex(Null) == 0
    ensures CorrectIndex(Str("abc")) == 0
    ensures CorrectIndex(Bool(true)) == 0
    ensures CorrectIndex(Str(" 2 (b)")) == 2
    ensures CorrectIndex(Arr([Int(1)])) == 1
  {
    ParseIntNaN("abc");
    ParseIntNaN("true");
    assert TrimStart(" 2 (b)") == "2 (b)";
    ParseIntPrefix(2, " (b)");
    assert NatToString(2) == "2";
    assert ToString(Arr([Int(1)])) == "1";
    ParseIntOfIntToString(1);
  }

  /** A stored question read back as a record normalises to itself. */
  lemma QuestionFixpoint(q: Question)
    ensures !QuestionThrows(QuestionValue(q))
    ensures NormalizeQuestion(QuestionValue(q)) == q
  {
    var options := Field(QuestionValue(q), "options");
    assert forall k :: 0 <= k < |options.items| ==> options.items[k] == Str(q.options[k]);
    assert !StringThrows(options);
    assert Field(QuestionValue(q), "question") == Str(q.question);
    assert Field(QuestionValue(q), "explanation") == Str(q.explanation);
    assert Field(QuestionValue(q), "correctIndex") == Int(q.correctIndex);
    var r := NormalizeQuestion(QuestionValue(q));
    assert r.options == q.options;
  }

  /** The questions of a stored quiz, read back as records, are well formed
      and normalise to the quiz's questions. */
  lemma StoredQuestionsFixpoint(quiz: Quiz)
    ensures var stored := Field(Obj(QuizFields(quiz)), "questions");
      && stored.Arr? && |stored.items| == |quiz.questions|
      && forall k :: 0 <= k < |stored.items| ==>
           !Nullish(stored.items[k]) && !QuestionThrows(stored.items[k]) && NormalizeQuestion(stored.items[k]) == quiz.questions[k]
  {
    var items := Field(Obj(QuizFields(quiz)), "questions").items;
    forall k | 0 <= k < |items|
      ensures !Nullish(items[k]) && !QuestionThrows(items[k]) && NormalizeQuestion(items[k]) == quiz.questions[k]
    {
      assert items[k] == QuestionValue(quiz.questions[k]);
      QuestionFixpoint(quiz.questions[k]);
    }
  }

  /** The scalar fields of a stored quiz read back as they were stored. */
  lemma StoredQuizFields(quiz: Quiz)
    ensures var stored := Obj(QuizFields(quiz));
      && Field(stored, "id") == quiz.id
      && Field(stored, "moduleId") == quiz.moduleId
      && Field(stored, "title") == quiz.title
      && Field(stored, "description") == quiz.description
      && Field(stored, "durationSeconds") == quiz.durationSeconds
      && Field(stored, "allowRetake") == quiz.allowRetake
      && Field(stored, "order") == quiz.order
      && Field(stored, "badgeThresholds") == quiz.badgeThresholds
  {
  }

  /** Importing a stored quiz document again, under the same module, gives
      back the same quiz: normalisation reaches a fixed point in one pass. */
  lemma NormalizeQuizFixpoint(q: Value, moduleId: Value)
    requires NormalizeQuiz(q, moduleId).Ok?
    ensures NormalizeQuiz(Obj(QuizFields(NormalizeQuiz(q, moduleId).value)), moduleId) == NormalizeQuiz(q, moduleId)
  {
    var quiz := NormalizeQuiz(q, moduleId).value;
    var stored := Obj(QuizFields(quiz));
    StoredQuizFields(quiz);
    StoredQuestionsFixpoint(quiz);
    assert !QuestionsMalformed(stored);
    var again := NormalizeQuiz(stored, moduleId).value;
    assert again.questions == quiz.questions;
    assert again.questionCount == quiz.questionCount;
  }

  /** The module header is a fixed point too: merging it back in as a
      record changes nothing. */
  lemma ModuleFieldsFixpoint(m: Value)
    ensures ModuleFields(Obj(ModuleFields(m))) == ModuleFields(m)
  {
    var once := ModuleFields(m);
    var twice := ModuleFields(Obj(once));
    forall k | k in ModuleDefaults
      ensures twice[k] == once[k]
    {
      assert Field(Obj(once), k) == once[k];
    }
    assert twice.Keys == once.Keys;
  }

  /** A question text that is an object with its own `toString` key cannot
      be converted to a string, so the quiz is rejected with a TypeError. */
  lemma OwnToStringText()
    ensures var text := Obj(map["toString" := Str("x")]);
      NormalizeQuiz(Obj(map["id" := Str("q1"), "questions" := Arr([Obj(map["question" := text])])]), Str("m1"))
        == Err(TypeError)
  {
    var text := Obj(map["toString" := Str("x")]);
    var question := Obj(map["question" := text]);
    var q := Obj(map["id" := Str("q1"), "questions" := Arr([question])]);
    assert Field(question, "question") == text;
    assert StringThrows(text);
    assert Field(q, "questions") == Arr([question]);
    assert Arr([question]).items[0] == question;
    assert QuestionsMalformed(q);
  }

  /** The same holds of a correct index that is such an object: `parseInt`
      converts it to a string first. */
  lemma OwnToStringIndex()
    ensures var index := Obj(map["toString" := Int(1)]);
      NormalizeQuiz(Obj(map["id" := Str("q1"), "questions" := Arr([Obj(map["correctIndex" := index])])]), Str("m1"))
        == Err(TypeError)
  {
    var index := Obj(map["toString" := Int(1)]);
    var question := Obj(map["correctIndex" := index]);
    var q := Obj(map["id" := Str("q1"), "questions" := Arr([question])]);
    assert Field(question, "correctIndex") == index;
    assert StringThrows(index);
    assert Field(q, "questions") == Arr([question]);
    assert Arr([question]).items[0] == question;
    assert QuestionsMalformed(q);
  }

  /** `||` and `??` differ on falsy values that are not nullish: an empty
      title is replaced, an explicit `false` or `0` is kept. */
  lemma FalsyFieldsExample()
    ensures var q := Obj(map["id" := Str("q1"), "title" := Str(""), "allowRetake" := Bool(false), "order" := Int(0)]);
      var r := NormalizeQuiz(q, Str("math"));
      && r.Ok?
      && r.value.title == Str("Quiz")
      && r.value.allowRetake == Bool(false)
      && r.value.order == Int(0)
      && r.value.moduleId == Str("math")
      && r.value.questions == [] && r.value.questionCount == 0
  {
    var q := Obj(map["id" := Str("q1"), "title" := Str(""), "allowRetake" := Bool(false), "order" := Int(0)]);
    assert Field(q, "questions") == Undefined;
    assert Field(q, "title") == Str("");
    assert Field(q, "allowRetake") == Bool(false);
    assert Field(q, "order") == Int(0);
    assert Field(q, "moduleId") == Undefined;
  }
}
