/** The result coercion after each generation request in
    services/geminiService.ts: the reply text goes through the tolerant JSON
    extraction, and the parsed value is shaped into the record the caller
    expects, with defaults for some fields and `ensureArray` for the list
    fields. The requests themselves are outside the model; the reply text is
    a parameter (`None` when the reply has no text). */
module Coercers {
  import opened Wrappers
  import opened JsValue
  import opened QuizNormaliser
  import opened JsonRecovery

  datatype StudyGuide = StudyGuide(summary: Json, keyPoints: seq<Json>, vocabulary: seq<Json>)

  /** A roadmap; `description` and `difficulty` are copied without a default
      and may be `undefined`. */
  datatype Roadmap = Roadmap(title: Json, description: Option<Json>, difficulty: Option<Json>, phases: seq<Json>)

  datatype DictionaryEntry = DictionaryEntry(
    word: Option<Json>,
    phonetic: Json,
    definition: Option<Json>,
    translations: seq<Json>,
    examples: seq<Json>,
    synonyms: seq<Json>,
    antonyms: seq<Json>)

  datatype ExamType = Weekly | Monthly

  const UntitledRoadmap: string := "Untitled Roadmap"
  const TranslationUnavailable: string := "Translation unavailable."

  /** A field read `data.key || fallback`: the value when it is truthy, else
      the fallback. */
  predicate DefaultedTo(r: Json, data: Json, key: string, fallback: Json) {
    (IsTruthy(Get(data, key)) && r == Get(data, key).value) || (!IsTruthy(Get(data, key)) && r == fallback)
  }

  /** `generateStudyGuide` after the reply: `None` (the caller's `null`)
      unless the parsed value is truthy; otherwise the summary defaults to ""
      and both lists are arrays taken from the value when it has them. */
  function StudyGuideOf(data: Option<Json>): (r: Option<StudyGuide>)
    ensures r.Some? <==> IsTruthy(data)
    ensures r.Some? ==> DefaultedTo(r.value.summary, data.value, "summary", JStr(""))
    ensures r.Some? ==> r.value.keyPoints == EnsureArray(Get(data.value, "keyPoints"))
    ensures r.Some? ==> r.value.vocabulary == EnsureArray(Get(data.value, "vocabulary"))
  {
    if !IsTruthy(data) then None
    else
      var d := data.value;
      Some(StudyGuide(Or(Get(d, "summary"), JStr("")), EnsureArray(Get(d, "keyPoints")), EnsureArray(Get(d, "vocabulary"))))
  }

  /** `generateLearningRoadmap` after the reply. */
  function RoadmapOf(data: Option<Json>): (r: Option<Roadmap>)
    ensures r.Some? <==> IsTruthy(data)
    ensures r.Some? ==> DefaultedTo(r.value.title, data.value, "title", JStr(UntitledRoadmap))
    ensures r.Some? ==> r.value.description == Get(data.value, "description")
    ensures r.Some? ==> r.value.difficulty == Get(data.value, "difficulty")
    ensures r.Some? ==> r.value.phases == EnsureArray(Get(data.value, "phases"))
  {
    if !IsTruthy(data) then None
    else
      var d := data.value;
      Some(Roadmap(Or(Get(d, "title"), JStr(UntitledRoadmap)), Get(d, "description"), Get(d, "difficulty"), EnsureArray(Get(d, "phases"))))
  }

  /** `lookupWord` after the reply. */
  function DictionaryEntryOf(data: Option<Json>): (r: Option<DictionaryEntry>)
    ensures r.Some? <==> IsTruthy(data)
    ensures r.Some? ==> r.value.word == Get(data.value, "word") && r.value.definition == Get(data.value, "definition")
    ensures r.Some? ==> DefaultedTo(r.value.phonetic, data.value, "phonetic", JStr(""))
    ensures r.Some? ==>
      r.value.translations == EnsureArray(Get(data.value, "translations")) &&
      r.value.examples == EnsureArray(Get(data.value, "examples")) &&
      r.value.synonyms == EnsureArray(Get(data.value, "synonyms")) &&
      r.value.antonyms == EnsureArray(Get(data.value, "antonyms"))
  {
    if !IsTruthy(data) then None
    else
      var d := data.value;
      Some(DictionaryEntry(
        Get(d, "word"), Or(Get(d, "phonetic"), JStr("")), Get(d, "definition"),
        EnsureArray(Get(d, "translations")), EnsureArray(Get(d, "examples")),
        EnsureArray(Get(d, "synonyms")), EnsureArray(Get(d, "antonyms"))))
  }

  /** `translateAdvanced` after the reply: the parsed value as it is, or a
      record holding only the "Translation unavailable." text. */
  function TranslationOf(data: Option<Json>): (r: Json)
    ensures Truthy(r)
    ensures IsTruthy(data) ==> r == data.value
    ensures !IsTruthy(data) ==> Get(r, "translatedText") == Some(JStr(TranslationUnavailable))
  {
    if IsTruthy(data) then data.value else JObj([("translatedText", JStr(TranslationUnavailable))])
  }

  /** The first `count` questions of a sanitized reply, or none when the
      reply does not parse to a truthy value or sanitizing throws. */
  function QuestionsOf(parsed: Option<Json>, count: nat): (r: seq<QuizQuestion>)
    ensures |r| <= count
    ensures !IsTruthy(parsed) ==> r == []
    ensures IsTruthy(parsed) ==> match SanitizeQuestions(parsed.value)
      case None => r == []
      case Some(qs) => r == qs[..if count < |qs| then count else |qs|]
  {
    if !IsTruthy(parsed) then []
    else match SanitizeQuestions(parsed.value)
      case None => []
      case Some(qs) => if count < |qs| then qs[..count] else qs
  }

  /** `generateQuiz(topic, lang, count)` given the reply text. */
  function GenerateQuiz(text: Option<string>, parse: string -> Option<Json>, count: nat): (r: seq<QuizQuestion>)
    ensures |r| <= count
  {
    QuestionsOf(CleanAndParse(text, parse), count)
  }

  /** The number of questions an exam asks for. */
  function ExamLength(examType: ExamType): nat {
    if examType == Weekly then 10 else 25
  }

  /** `generateExam(subject, type, lang)` given the reply text. */
  function GenerateExam(text: Option<string>, parse: string -> Option<Json>, examType: ExamType): (r: seq<QuizQuestion>)
    ensures |r| <= ExamLength(examType)
  {
    QuestionsOf(CleanAndParse(text, parse), ExamLength(examType))
  }

  /** Every generated question has at least two options, and its answer is
      one of them (by the corrected letter rule); where the source's answer
      for the k-th raw item is an option, it is that answer. */
  lemma {:induction false} GeneratedQuestionsWellFormed(parsed: Option<Json>, count: nat, k: nat)
    requires k < |QuestionsOf(parsed, count)|
    ensures var q := QuestionsOf(parsed, count)[k];
      |q.options| >= 2 && q.correctAnswer in q.options
    ensures parsed.Some? && k < |RawList(parsed.value)|
    ensures var q := QuestionsOf(parsed, count)[k];
      var item := RawList(parsed.value)[k];
      var source := ResolveAnswer(Options(item), Get(item, "correctAnswer"));
      q.options == Options(item) && (source in q.options ==> q.correctAnswer == source)
  {
    var qs := SanitizeQuestions(parsed.value).value;
    assert QuestionsOf(parsed, count)[k] == qs[k];
    SanitizedQuestionsWellFormed(parsed.value, k);
  }

  /** A reply that is a bare array of well-shaped items keeps every item
      when the count allows, in order. */
  lemma WholeListKept(items: seq<Json>, count: nat)
    requires JNull !in items && |items| <= count
    ensures |QuestionsOf(Some(JArr(items)), count)| == |items|
  {
  }

  /** The title of a roadmap is never empty, while a missing description
      stays missing. */
  lemma RoadmapTitleNeverFalsy(data: Option<Json>)
    requires IsTruthy(data)
    ensures Truthy(RoadmapOf(data).value.title)
    ensures Get(data.value, "description").None? ==> RoadmapOf(data).value.description.None?
  {
  }
}
