/** The quiz answer normaliser (`sanitizeQuestions` in
    services/geminiService.ts): it turns the loosely shaped question list a
    language model returns into quiz questions whose options are strings and
    whose correct answer is resolved through an ordered chain of rules. */
module QuizNormaliser {
  import opened Wrappers
  import opened Strings
  import opened JsValue

  /** A normalised question. `question` and `explanation` are whatever truthy
      value the model sent, or the placeholder text; the source does not
      convert them to strings. */
  datatype QuizQuestion = QuizQuestion(
    question: Json,
    options: seq<string>,
    correctAnswer: string,
    explanation: Json)

  const QuestionPlaceholder: string := "Question unavailable"
  const ExplanationPlaceholder: string := "No explanation provided."
  const TrueFalse: seq<string> := ["True", "False"]

  /** The raw question list: the input itself when it is an array, else its
      `questions` property when that is an array, else nothing. */
  function RawList(input: Json): (raw: seq<Json>)
    ensures input.JArr? ==> raw == input.items
    ensures !input.JArr? ==> raw == EnsureArray(Get(input, "questions"))
  {
    if input.JArr? then input.items
    else
      var q := Get(input, "questions");
      if IsTruthy(q) && q.value.JArr? then q.value.items else []
  }

  /** `xs.map(String)`. */
  function Stringify(xs: seq<Json>): (r: seq<string>)
    ensures |r| == |xs|
    ensures forall i :: 0 <= i < |xs| ==> r[i] == ToStr(xs[i])
  {
    seq(|xs|, i requires 0 <= i < |xs| => ToStr(xs[i]))
  }

  /** The options found in a raw item, before the True/False fallback: an
      `options` array, else a truthy `choices` array, else the values of an
      `options` object, each converted with `String`. */
  function ExtractOptions(item: Json): seq<string> {
    var opts := Get(item, "options");
    var choices := Get(item, "choices");
    if opts.Some? && opts.value.JArr? then Stringify(opts.value.items)
    else if IsTruthy(choices) && choices.value.JArr? then Stringify(choices.value.items)
    else if opts.Some? && opts.value.JObj? then Stringify(Values(opts.value.fields))
    else []
  }

  /** The options of the normalised question: fewer than two extracted
      options are replaced by the pair True/False. */
  function Options(item: Json): (options: seq<string>)
    ensures |options| >= 2
    ensures |ExtractOptions(item)| < 2 ==> options == TrueFalse
    ensures |ExtractOptions(item)| >= 2 ==> options == ExtractOptions(item)
  {
    var extracted := ExtractOptions(item);
    if |extracted| < 2 then TrueFalse else extracted
  }

  /** A single letter A-D in either case, which the source reads as an
      option position. */
  predicate IsOptionLetter(s: string) {
    |s| == 1 && ('A' <= s[0] <= 'D' || 'a' <= s[0] <= 'd')
  }

  function LetterIndex(s: string): (k: nat)
    requires IsOptionLetter(s)
    ensures k < 4
  {
    ToUpperChar(s[0]) as int - 'A' as int
  }

  /** `options[k]` is truthy: the slot exists and is not the empty string. */
  predicate SlotFilled(options: seq<string>, k: int) {
    0 <= k < |options| && options[k] != ""
  }

  /** The answer text before any rule applies:
      `String(item.correctAnswer || options[0] || "")`. */
  function InitialAnswer(options: seq<string>, raw: Option<Json>): (s: string)
    requires |options| >= 1
    ensures IsTruthy(raw) ==> s == ToStr(raw.value)
    ensures !IsTruthy(raw) ==> s == options[0]
  {
    if IsTruthy(raw) then ToStr(raw.value) else options[0]
  }

  /** The numeric-index rule applies: the raw answer is a number naming a
      filled slot. */
  predicate NumericRuleApplies(options: seq<string>, raw: Option<Json>) {
    raw.Some? && raw.value.JNum? && SlotFilled(options, raw.value.n)
  }

  /** `options.find(opt => opt.toLowerCase() === answer.toLowerCase())`, as
      the position of the first such option. */
  function FindCaseInsensitive(options: seq<string>, answer: string): (r: Option<nat>)
    ensures r.Some? ==> r.value < |options| && ToLower(options[r.value]) == ToLower(answer)
    ensures r.Some? ==> forall j :: 0 <= j < r.value ==> ToLower(options[j]) != ToLower(answer)
    ensures r.None? ==> forall j :: 0 <= j < |options| ==> ToLower(options[j]) != ToLower(answer)
  {
    if |options| == 0 then None
    else if ToLower(options[0]) == ToLower(answer) then Some(0)
    else
      var r := FindCaseInsensitive(options[1..], answer);
      if r.Some? then Some(r.value + 1) else None
  }

  /** One of the two texts contains the other. */
  predicate Overlaps(option: string, answer: string) {
    Includes(option, answer) || Includes(answer, option)
  }

  /** `options.find(opt => opt.includes(answer) || answer.includes(opt))`,
      as the position of the first such option. */
  function FindOverlapping(options: seq<string>, answer: string): (r: Option<nat>)
    ensures r.Some? ==> r.value < |options| && Overlaps(options[r.value], answer)
    ensures r.Some? ==> forall j :: 0 <= j < r.value ==> !Overlaps(options[j], answer)
    ensures r.None? ==> forall j :: 0 <= j < |options| ==> !Overlaps(options[j], answer)
  {
    if |options| == 0 then None
    else if Overlaps(options[0], answer) then Some(0)
    else
      var r := FindOverlapping(options[1..], answer);
      if r.Some? then Some(r.value + 1) else None
  }

  /** The fuzzy chain for an answer that is not an option: the first
      case-insensitively equal option, else the first option overlapping the
      answer, else the first option. A match that is the empty string is
      falsy and is passed over, as `if (fuzzy)` and `if (contains)` do. */
  function FuzzyMatch(options: seq<string>, answer: string): (r: string)
    requires |options| >= 1
    ensures r in options
  {
    var ci := FindCaseInsensitive(options, answer);
    if ci.Some? && options[ci.value] != "" then options[ci.value]
    else
      var ov := FindOverlapping(options, answer);
      if ov.Some? && options[ov.value] != "" then options[ov.value]
      else options[0]
  }

  /** The correct answer as the source resolves it: numeric index, else
      option letter, else (when not already an option) the fuzzy chain.
      The letter rule keeps the letter itself when its slot is empty or
      missing, so the answer is an option in every other case. */
  function ResolveAnswer(options: seq<string>, raw: Option<Json>): (r: string)
    requires |options| >= 2
    ensures r in options ||
      (var s := InitialAnswer(options, raw);
       !NumericRuleApplies(options, raw) && IsOptionLetter(s) &&
       !SlotFilled(options, LetterIndex(s)) && r == s)
  {
    var s := InitialAnswer(options, raw);
    if NumericRuleApplies(options, raw) then options[raw.value.n]
    else if IsOptionLetter(s) then
      (if SlotFilled(options, LetterIndex(s)) then options[LetterIndex(s)] else s)
    else if s !in options then FuzzyMatch(options, s)
    else s
  }

  /** Normalise one raw item. Reading `item.options` of `null` throws, which
      the model reports as `None`. The answer follows the corrected letter
      rule, so it is always an option; `NormaliseItemAgreesWithSource`
      shows it is the source's own answer whenever that one is an option. */
  function NormaliseItem(item: Json): (r: Option<QuizQuestion>)
    ensures r.None? <==> item.JNull?
    ensures r.Some? ==> |r.value.options| >= 2 && r.value.options == Options(item)
    ensures r.Some? ==> r.value.correctAnswer == ResolveAnswerCorrected(Options(item), Get(item, "correctAnswer"))
    ensures r.Some? ==> r.value.correctAnswer in r.value.options
    ensures r.Some? ==> r.value.question == Or(Get(item, "question"), JStr(QuestionPlaceholder))
    ensures r.Some? ==> r.value.explanation == Or(Get(item, "explanation"), JStr(ExplanationPlaceholder))
  {
    if item.JNull? then None
    else
      var options := Options(item);
      var raw := Get(item, "correctAnswer");
      Some(QuizQuestion(
        Or(Get(item, "question"), JStr(QuestionPlaceholder)),
        options,
        ResolveAnswerCorrected(options, raw),
        Or(Get(item, "explanation"), JStr(ExplanationPlaceholder))))
  }

  /** Wherever the source's answer for an item is one of its options, the
      normalised item carries exactly that answer. */
  lemma NormaliseItemAgreesWithSource(item: Json)
    requires !item.JNull?
    ensures var source := ResolveAnswer(Options(item), Get(item, "correctAnswer"));
      source in Options(item) ==> NormaliseItem(item).value.correctAnswer == source
  {
    var source := ResolveAnswer(Options(item), Get(item, "correctAnswer"));
    if source in Options(item) {
      CorrectedAgreesWhereSourceIsSound(Options(item), Get(item, "correctAnswer"));
    }
  }

  /** Normalise every item of a list, or fail when one of them throws. */
  function NormaliseAll(raw: seq<Json>): (r: Option<seq<QuizQuestion>>)
    ensures r.None? <==> exists i :: 0 <= i < |raw| && raw[i].JNull?
    ensures r.Some? ==> |r.value| == |raw|
    ensures r.Some? ==> forall i :: 0 <= i < |raw| ==> Some(r.value[i]) == NormaliseItem(raw[i])
  {
    if |raw| == 0 then Some([])
    else
      var head := NormaliseItem(raw[0]);
      var tail := NormaliseAll(raw[1..]);
      assert forall i :: 1 <= i < |raw| ==> raw[i] == raw[1..][i - 1];
      if head.None? || tail.None? then None
      else Some([head.value] + tail.value)
  }

  /** `sanitizeQuestions(input)`: one question per raw element, in order,
      or `None` when the call throws. */
  function SanitizeQuestions(input: Json): (r: Option<seq<QuizQuestion>>)
    ensures r.None? <==> JNull in RawList(input)
    ensures r.Some? ==> |r.value| == |RawList(input)|
    ensures r.Some? ==> forall i :: 0 <= i < |r.value| ==> Some(r.value[i]) == NormaliseItem(RawList(input)[i])
  {
    NormaliseAll(RawList(input))
  }

  /** Every normalised question has at least two options, and its correct
      answer is one of them (by the corrected letter rule); where the
      source's answer for the raw item is an option, it is that answer. */
  lemma {:induction false} SanitizedQuestionsWellFormed(input: Json, k: nat)
    requires SanitizeQuestions(input).Some? && k < |SanitizeQuestions(input).value|
    ensures var q := SanitizeQuestions(input).value[k];
      |q.options| >= 2 && q.correctAnswer in q.options
    ensures var q := SanitizeQuestions(input).value[k];
      var item := RawList(input)[k];
      var source := ResolveAnswer(Options(item), Get(item, "correctAnswer"));
      q.options == Options(item) && (source in q.options ==> q.correctAnswer == source)
  {
    var item := RawList(input)[k];
    var q := SanitizeQuestions(input).value[k];
    assert Some(q) == NormaliseItem(item);
    NormaliseItemAgreesWithSource(item);
  }

  // ---- The rules of the answer chain, one by one ----

  /** A falsy raw answer starts out as the first option. */
  lemma FalsyAnswerStartsAtFirstOption(options: seq<string>, raw: Option<Json>)
    requires |options| >= 2 && !IsTruthy(raw) && !NumericRuleApplies(options, raw)
    ensures ResolveAnswer(options, raw) == if IsOptionLetter(options[0]) && SlotFilled(options, LetterIndex(options[0]))
                                           then options[LetterIndex(options[0])] else options[0]
  {
  }

  /** A numeric answer naming a filled slot resolves to that option. */
  lemma NumericIndexRule(options: seq<string>, n: int)
    requires |options| >= 2 && SlotFilled(options, n)
    ensures ResolveAnswer(options, Some(JNum(n))) == options[n]
  {
  }

  /** A single letter A-D (either case) resolves to its slot when that slot
      is filled, and otherwise stays as it is, whether or not it is itself
      one of the options. */
  lemma LetterRule(options: seq<string>, letter: string)
    requires |options| >= 2 && IsOptionLetter(letter)
    ensures var k := LetterIndex(letter);
      ResolveAnswer(options, Some(JStr(letter))) == if SlotFilled(options, k) then options[k] else letter
  {
  }

  /** The letter rule comes before the exact-match rule. */
  lemma LetterBeatsExactMatch()
    ensures ResolveAnswer(["B", "A"], Some(JStr("A"))) == "B"
  {
  }

  /** An answer that already is an option, and is neither a usable index nor
      an option letter, is kept. */
  lemma ExactMatchKept(options: seq<string>, raw: Json)
    requires |options| >= 2 && Truthy(raw) && !NumericRuleApplies(options, Some(raw))
    requires ToStr(raw) in options && !IsOptionLetter(ToStr(raw))
    ensures ResolveAnswer(options, Some(raw)) == ToStr(raw)
  {
  }

  /** An answer that is not an option becomes the first option equal to it
      up to case, when there is a non-empty one. */
  lemma CaseInsensitiveRule(options: seq<string>, answer: string, k: nat)
    requires |options| >= 2 && answer != "" && answer !in options && !IsOptionLetter(answer)
    requires k < |options| && ToLower(options[k]) == ToLower(answer) && options[k] != ""
    requires forall j :: 0 <= j < k ==> ToLower(options[j]) != ToLower(answer)
    ensures ResolveAnswer(options, Some(JStr(answer))) == options[k]
  {
    var ci := FindCaseInsensitive(options, answer);
    assert ci.Some? && ci.value == k;
  }

  /** Failing that, it becomes the first option that contains it or is
      contained in it, when that option is not empty. */
  lemma OverlapRule(options: seq<string>, answer: string, k: nat)
    requires |options| >= 2 && answer != "" && answer !in options && !IsOptionLetter(answer)
    requires forall j :: 0 <= j < |options| ==> ToLower(options[j]) != ToLower(answer)
    requires k < |options| && Overlaps(options[k], answer) && options[k] != ""
    requires forall j :: 0 <= j < k ==> !Overlaps(options[j], answer)
    ensures ResolveAnswer(options, Some(JStr(answer))) == options[k]
  {
    var ov := FindOverlapping(options, answer);
    assert ov.Some? && ov.value == k;
  }

  /** Failing both, it becomes the first option. */
  lemma FallbackRule(options: seq<string>, answer: string)
    requires |options| >= 2 && answer != "" && answer !in options && !IsOptionLetter(answer)
    requires forall j :: 0 <= j < |options| ==> ToLower(options[j]) != ToLower(answer)
    requires forall j :: 0 <= j < |options| ==> !Overlaps(options[j], answer)
    ensures ResolveAnswer(options, Some(JStr(answer))) == options[0]
  {
  }

  /** An empty option overlaps every answer, so an empty option met first
      in the overlap search hides any later overlapping option. */
  lemma EmptyOptionHidesOverlap()
    ensures ResolveAnswer(["X", "", "zz"], Some(JStr("zzz"))) == "X"
  {
    var options := ["X", "", "zz"];
    assert !OccursAt("X", "zzz", 0);
    assert forall i :: !OccursAt("X", "zzz", i);
    assert !Includes("X", "zzz");
    forall i | 0 <= i < 3 ensures !OccursAt("zzz", "X", i) {
      assert "zzz"[i..i + 1] == "z";
    }
    IncludesIff("zzz", "X");
    assert !Overlaps("X", "zzz");
    assert OccursAt("zzz", "", 0);
    IncludesIff("zzz", "");
    assert Overlaps("", "zzz");
    assert FindOverlapping(options, "zzz") == Some(1);
  }

  // ---- The letter exception, and the resolution the source intends ----

  /** The letter rule of the source lets a letter through verbatim: an item
      with two options and the answer "D" keeps "D", which is not one of its
      options, while the corrected resolution gives an option. */
  lemma LetterBeyondOptionsEscapes()
    ensures var item := JObj([("options", JArr([JStr("x"), JStr("y")])), ("correctAnswer", JStr("D"))]);
      Options(item) == ["x", "y"] &&
      ResolveAnswer(Options(item), Get(item, "correctAnswer")) == "D" && "D" !in Options(item) &&
      ResolveAnswerCorrected(Options(item), Get(item, "correctAnswer")) in Options(item)
  {
    var item := JObj([("options", JArr([JStr("x"), JStr("y")])), ("correctAnswer", JStr("D"))]);
    assert Options(item) == ["x", "y"];
  }

  /** The resolution the surrounding comment ("Ensure correct answer matches
      an option") intends: a letter whose slot is empty or missing is not
      final but goes on to the exact-match and fuzzy rules. */
  function ResolveAnswerCorrected(options: seq<string>, raw: Option<Json>): (r: string)
    requires |options| >= 2
    ensures r in options
    ensures NumericRuleApplies(options, raw) ==> r == options[raw.value.n]
    ensures var s := InitialAnswer(options, raw);
      !NumericRuleApplies(options, raw) && IsOptionLetter(s) && SlotFilled(options, LetterIndex(s)) ==>
      r == options[LetterIndex(s)]
  {
    var s := InitialAnswer(options, raw);
    if NumericRuleApplies(options, raw) then options[raw.value.n]
    else if IsOptionLetter(s) && SlotFilled(options, LetterIndex(s)) then options[LetterIndex(s)]
    else if s !in options then FuzzyMatch(options, s)
    else s
  }

  /** The corrected resolution differs from the source's only where the
      source's answer is not an option. */
  lemma CorrectedAgreesWhereSourceIsSound(options: seq<string>, raw: Option<Json>)
    requires |options| >= 2
    requires ResolveAnswer(options, raw) in options
    ensures ResolveAnswerCorrected(options, raw) == ResolveAnswer(options, raw)
  {
  }
}
