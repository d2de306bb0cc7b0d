# EDU-X core, modelled in Dafny

EDU-X is a learning web application. Its screens call a generative model and
turn the model's replies into quizzes, exams, study guides, roadmaps,
dictionary entries and translations. It also runs a live spoken-translation
session over 16-bit PCM audio. This project models the application's logic,
independent of the network and of the browser:

- **Service helpers** (`services/geminiService.ts`):
  - `JsValue` gives the JSON values the replies parse to, with `ensureArray`.
  - `QuizNormaliser` is `sanitizeQuestions`: option extraction and answer
    resolution.
  - `JsonRecovery` is `cleanAndParseJSON`: strict parse, then a fenced code
    block, then the outermost braces.
  - `Coercers` gives the per-service coercions of a parsed reply and their
    fallbacks.
  - `Base64` and `Pcm` are `atob`/`btoa`, the byte-copy loops, the `Int16Array`
    view and `decodeAudioData`.
  - `LiveSession` is the message handler of `startLiveSession`: transcript
    callbacks and gapless scheduling of the audio buffers.
- **Screens**:
  - `Exams` models the exam screen: timer, scoring, percentage, pass mark,
    certificate tab and the submit guard.
  - `QuizArena` models the practice quiz: answering, revealing, running score,
    next/finish/reset.
  - `FileAnalyzer` models the upload checks, the data-URL payload and the study
    guide and roadmap state, plus the roadmap export, whose text is built by
    appending in loops, and whose file name is computed by a function.
- **Contexts**:
  - `Language` is `t` with its English fallback and `languageName`.
  - `UserContext` is the profile with its updates and the
    authentication-driven state.
- **Shared helpers**: `Strings` has the JavaScript string operations the code
  relies on. `Wrappers` has `Option`.

Where the source updates state in place, the model keeps the same form:
- React component state becomes a class whose methods are the event handlers.
- The copy loops become methods with loops.
- The export builds its text by appending.

Each of these is proved against a specification function, and the properties
are proved about that function.

Some things cannot be modelled directly, so the model takes them as
parameters:
- the model's replies (`reply: Option<string>`, `None` when the call fails);
- `JSON.parse` (`parse: string -> Option<Json>`);
- the clock (`now`);
- the feedback text.

## Model

| member | source | states |
|---|---|---|
| Strings.ToLower | services/geminiService.ts:54 | the lowered string has the same length and each character is the ASCII-lowered one |
| Strings.ToUpper | components/FileAnalyzer.tsx:159 | the upper-cased string has the same length and each character is the ASCII-uppercased one |
| Strings.IndexOfFrom | services/geminiService.ts:83-84 | the first occurrence at or after `from`: it occurs there, nowhere between `from` and it, and `None` only when it occurs nowhere after `from` |
| Strings.Includes | services/geminiService.ts:59 | `includes` as a predicate; IncludesIff states its meaning |
| Strings.IncludesIff | services/geminiService.ts:59 | `s.includes(sub)` holds exactly when `sub` occurs at some position of `s` |
| Strings.IndexOfChar | services/geminiService.ts:95-96 | `indexOf(c)`: the found position holds `c` with no `c` before it; `None` exactly when `c` is absent |
| Strings.LastIndexOfChar | services/geminiService.ts:97-98 | `lastIndexOf(c)`: the found position holds `c` with no `c` after it; `None` exactly when `c` is absent |
| Strings.IndexOfCharFirst | services/geminiService.ts:95-96 | the index form: no position before the result holds the character |
| Strings.LastIndexOfCharLast | services/geminiService.ts:97-98 | the index form: no position after the result holds the character |
| Strings.Split | LanguageContext.tsx:20 | `split('.')` gives at least one piece and no piece contains the separator |
| Strings.JoinSplit | LanguageContext.tsx:20 | joining the pieces of a split with the separator gives back the path |
| Strings.SplitJoin | LanguageContext.tsx:20 | splitting the join of separator-free pieces gives back the pieces |
| Strings.PadStart | components/Exams.tsx:49 | `padStart(width, c)`: length is the larger of the two, the original is the suffix, the rest is `c` |
| Strings.NatToDecimal | components/Exams.tsx:47-49 | `toString()` of a natural number is a non-empty run of decimal digits |
| Strings.DecimalRoundTrip | components/Exams.tsx:47-49 | reading the decimal digits back gives the number |
| JsValue.Lookup | services/geminiService.ts:26 | a property is found exactly when some field has the key, and the found value is that field's |
| JsValue.Get | services/geminiService.ts:26 | the property read `v.key`: an object's field with that key, found by `Lookup`; `undefined` for anything else |
| JsValue.Truthy | services/geminiService.ts:66 | JavaScript truthiness: `null`, `false`, `0` and the empty string are falsy, every array and object truthy |
| JsValue.ToStr | services/geminiService.ts:27 | `String(x)`: text as it is, numbers in decimal, booleans and `null` by name, arrays as the comma join of their elements with `null` elements empty |
| JsValue.TemplateStr | components/FileAnalyzer.tsx:160-166 | `${x}`: "undefined" for a missing value, else `String(x)` |
| JsValue.Or | services/geminiService.ts:66 | `a \|\| b`: the value when it is truthy, else the fallback |
| JsValue.EnsureArray | services/geminiService.ts:15 | an array value is returned as it is; anything else gives the empty list |
| JsValue.EnsureArrayIdempotent | services/geminiService.ts:15 | applying `ensureArray` to its own result changes nothing |
| JsValue.Values | services/geminiService.ts:32 | `Object.values`: one value per field, in field order |
| QuizNormaliser.RawList | services/geminiService.ts:20 | a root array is the list; otherwise the `questions` array of the object, or nothing |
| QuizNormaliser.Stringify | services/geminiService.ts:27 | `map(String)`: same length, each element converted |
| QuizNormaliser.ExtractOptions | services/geminiService.ts:23-38 | an `options` array, else a truthy `choices` array, else the values of an `options` object, each converted with `String`; else none |
| QuizNormaliser.Options | services/geminiService.ts:23-38 | there are always at least two options: the extracted ones when there are two or more, else True/False |
| QuizNormaliser.LetterIndex | services/geminiService.ts:48-49 | an option letter A–D (either case) maps to a slot below 4 |
| QuizNormaliser.InitialAnswer | services/geminiService.ts:41 | a truthy raw answer is converted to text; a falsy one starts from the first option |
| QuizNormaliser.FindCaseInsensitive | services/geminiService.ts:54 | the first option equal to the answer ignoring case; `None` exactly when there is none |
| QuizNormaliser.FindOverlapping | services/geminiService.ts:59 | the first option that contains, or is contained in, the answer; `None` exactly when there is none |
| QuizNormaliser.FuzzyMatch | services/geminiService.ts:53-62 | the fuzzy chain always ends on one of the options |
| QuizNormaliser.ResolveAnswer | services/geminiService.ts:41-63 | as written: the answer is an option, except when an unfilled letter slot keeps the letter itself |
| QuizNormaliser.FalsyAnswerStartsAtFirstOption | services/geminiService.ts:41 | with a falsy answer the resolution starts from the first option and applies the letter rule to it |
| QuizNormaliser.NumericIndexRule | services/geminiService.ts:44-46 | a number naming a filled slot resolves to that option |
| QuizNormaliser.LetterRule | services/geminiService.ts:48-51 | a letter resolves to its slot when filled and to itself otherwise |
| QuizNormaliser.LetterBeatsExactMatch | services/geminiService.ts:47-53 | the letter rule is tried before the exact match: answer "A" with options ["B","A"] gives "B" |
| QuizNormaliser.ExactMatchKept | services/geminiService.ts:53 | an answer that is already an option and not a letter is kept |
| QuizNormaliser.CaseInsensitiveRule | services/geminiService.ts:54-56 | an answer not in the options resolves to the first option equal to it ignoring case |
| QuizNormaliser.OverlapRule | services/geminiService.ts:59-60 | without a case-insensitive match, the first overlapping option is taken |
| QuizNormaliser.FallbackRule | services/geminiService.ts:61 | without any match, the first option is taken |
| QuizNormaliser.EmptyOptionHidesOverlap | services/geminiService.ts:59-61 | an empty option is contained in every answer, so it wins the overlap search but is falsy, and the first option is taken |
| QuizNormaliser.LetterBeyondOptionsEscapes | services/geminiService.ts:48-51 | for options ["x","y"] and answer "D" the source keeps "D", which is not an option; the corrected resolution gives an option |
| QuizNormaliser.ResolveAnswerCorrected | services/geminiService.ts:40-63 | the answer is always one of the options, and the numeric and letter rules are honoured where they apply |
| QuizNormaliser.CorrectedAgreesWhereSourceIsSound | services/geminiService.ts:40-63 | wherever the source's answer is an option, the corrected answer is the same |
| QuizNormaliser.NormaliseItem | services/geminiService.ts:22-70 | `null` items throw; otherwise the record has the options and the question and explanation with their placeholders; the answer, with the corrected letter rule, is always an option |
| QuizNormaliser.NormaliseItemAgreesWithSource | services/geminiService.ts:41-63 | wherever the source's answer for an item is one of its options, the normalised item carries exactly that answer |
| QuizNormaliser.NormaliseAll | services/geminiService.ts:22 | the map fails exactly when some item is `null`, and otherwise normalises each item in place (answers by the corrected letter rule) |
| QuizNormaliser.SanitizeQuestions | services/geminiService.ts:18-72 | one question per raw item, in order, each normalised with the corrected letter rule; fails exactly when a raw item is `null` |
| QuizNormaliser.SanitizedQuestionsWellFormed | services/geminiService.ts:36-63 | every sanitised question has the item's options, at least two; with the corrected letter rule its answer is one of them, and it is the source's answer wherever that one is an option |
| JsonRecovery.SpaceRun | services/geminiService.ts:83 | the maximal run of `\s` characters from a position |
| JsonRecovery.SpaceRunBefore | services/geminiService.ts:83 | the maximal run of `\s` characters ending at a position, not before the lower bound |
| JsonRecovery.ContentStart | services/geminiService.ts:83 | the capture starts after the opening fence, its optional `json` tag and the white space |
| JsonRecovery.MatchAt | services/geminiService.ts:83 | a match can only start at an opening fence |
| JsonRecovery.FenceMatch | services/geminiService.ts:83-84 | the captured text, when there is one, is a substring of the input |
| JsonRecovery.FenceCaptureIsSubstring | services/geminiService.ts:83-84 | the capture found from any position is a substring of the input |
| JsonRecovery.BracketSpan | services/geminiService.ts:95-112 | the span starts at the first opener (brace before bracket), ends at the last matching closer after it, and is absent exactly when no matching closer follows |
| JsonRecovery.FirstOpener | services/geminiService.ts:95-110 | the start is the first position holding `{` or `[`, and is absent exactly when there is none |
| JsonRecovery.CleanAndParse | services/geminiService.ts:75-123 | an absent or empty text gives `null`; any result is the parse of a substring of the text |
| JsonRecovery.StrictParseWins | services/geminiService.ts:79 | text that parses as it is gives that value |
| JsonRecovery.FenceMatchSkips | services/geminiService.ts:83 | the search passes over text without backticks unchanged |
| JsonRecovery.NoBacktickNoFence | services/geminiService.ts:83 | text without a backtick has no fenced block |
| JsonRecovery.TaggedFenceStart | services/geminiService.ts:83 | after "```json\n" followed by a non-space, the capture starts right there |
| JsonRecovery.ClosingFenceFound | services/geminiService.ts:83 | the lazy capture stops at the first closing fence after the body |
| JsonRecovery.CaptureStopsAtBody | services/geminiService.ts:83 | trailing white space before the closing fence is left out of the capture |
| JsonRecovery.MatchAtTagged | services/geminiService.ts:83 | a tagged fence around a trimmed body captures exactly the body |
| JsonRecovery.FenceMatchOfTagged | services/geminiService.ts:83-86 | the first tagged fence in the text captures exactly its body |
| JsonRecovery.FencedBlockRecovered | services/geminiService.ts:81-88 | prose around a fenced JSON block that does not parse as a whole gives the block's value |
| JsonRecovery.BracedValueRecovered | services/geminiService.ts:94-114 | prose around one braced value gives the parse of the braces and what lies between them |
| JsonRecovery.BracketSpanOfBraces | services/geminiService.ts:95-112 | a first opener `{` with a last `}` after it gives exactly that span |
| JsonRecovery.UnparsableProseGivesNone | services/geminiService.ts:112-121 | unparsable text with no fence and no opener gives `null` |
| Coercers.StudyGuideOf | services/geminiService.ts:412-423 | a guide exactly for a truthy reply, with the summary defaulted and the lists made arrays |
| Coercers.RoadmapOf | services/geminiService.ts:473-485 | a roadmap exactly for a truthy reply, with the title defaulted to "Untitled Roadmap" and the phases made an array |
| Coercers.DictionaryEntryOf | services/geminiService.ts:539-554 | an entry exactly for a truthy reply, with the phonetic defaulted and the four lists made arrays |
| Coercers.TranslationOf | services/geminiService.ts:234-240 | a truthy reply is passed on; otherwise "Translation unavailable." |
| Coercers.QuestionsOf | services/geminiService.ts:354-358 | no questions for a falsy parse or a failed sanitise, else the first `count` sanitised questions |
| Coercers.GenerateQuiz | services/geminiService.ts:313-362 | the quiz never has more than the requested number of questions |
| Coercers.GenerateExam | services/geminiService.ts:560-603 | an exam has at most 10 questions for a weekly exam and at most 25 for a monthly one |
| Coercers.ExamLength | services/geminiService.ts:562 | 10 questions for a weekly exam, 25 for a monthly one |
| Coercers.GeneratedQuestionsWellFormed | services/geminiService.ts:354-358 | every generated question has its raw item's options, at least two; with the corrected letter rule its answer is one of them, and it is the source's answer wherever that one is an option |
| Coercers.WholeListKept | services/geminiService.ts:357-358 | a list no longer than the count, without `null` items, is kept whole |
| Coercers.RoadmapTitleNeverFalsy | services/geminiService.ts:477-478 | a coerced roadmap's title is always truthy, and a missing description stays missing |
| Base64.ValueOf | services/geminiService.ts:129 | a character's sextet value, inverse to the alphabet |
| Base64.ValueOfCharOf | services/geminiService.ts:129 | every sextet's character reads back to it and is neither padding nor white space |
| Base64.EncodeSextets | services/geminiService.ts:698 | four sextets per three bytes plus one more than the leftover bytes |
| Base64.DecodeEncodeSextets | services/geminiService.ts:698 | decoding the sextets of a byte list gives the bytes back |
| Base64.Chars | services/geminiService.ts:698 | one alphabet character per sextet |
| Base64.Encode | services/geminiService.ts:698 | the encoding is padded to a multiple of four characters, four per started group of three bytes |
| Base64.Codes | services/geminiService.ts:133-135 | a binary string's character codes, one byte per character |
| Base64.Binary | services/geminiService.ts:693-696 | one character per byte, with that byte as its code |
| Base64.CodesBinary | services/geminiService.ts:693-696 | bytes to a binary string and back are the same bytes |
| Base64.BinaryCodes | services/geminiService.ts:133-135 | a binary string to bytes and back is the same string |
| Base64.Btoa | services/geminiService.ts:698 | `btoa` succeeds exactly on binary strings and gives a multiple of four characters |
| Base64.IsBinary | services/geminiService.ts:696 | the domain of `btoa`: every character is below 256 |
| Base64.RemoveWhitespace | services/geminiService.ts:129 | `atob` ignores ASCII white space: none remains, and text without any is unchanged |
| Base64.StripPadding | services/geminiService.ts:129 | (definition only, no contract of its own; StripPaddingShape states its properties) forgiving-base64 decoding removes one or two final `=` only when the length is a multiple of four |
| Base64.StripPaddingShape | services/geminiService.ts:129 | a text whose length is not a multiple of four is left as it is; otherwise at most two final `=` are removed and the rest is kept |
| Base64.Values | services/geminiService.ts:129 | decoding the characters succeeds exactly when each is in the alphabet |
| Base64.Atob | services/geminiService.ts:129 | a successful `atob` gives a binary string |
| Base64.StripPaddingOfEncode | services/geminiService.ts:129 | removing the padding of an encoding leaves the sextet characters |
| Base64.EncodeHasNoWhitespace | services/geminiService.ts:129 | an encoding has no white space to remove |
| Base64.ValuesOfChars | services/geminiService.ts:129 | the characters of sextets read back to the sextets |
| Base64.DecodeEncode | services/geminiService.ts:129 | `atob` of an encoding gives the binary string of the bytes |
| Base64.AtobBtoa | services/geminiService.ts:129 | `atob(btoa(s)) == s` for every binary string |
| Pcm.ByteValues | services/geminiService.ts:133-135 | one byte per character; for a binary string, its character codes |
| Pcm.BinaryToBytes | services/geminiService.ts:131-135 | the copy loop fills a new byte array with the character codes |
| Pcm.BytesToBinary | services/geminiService.ts:690-696 | the copy loop builds the binary string of the bytes |
| Pcm.CopyLoopsInverse | services/geminiService.ts:690-696 | the two copy loops are inverse to each other |
| Pcm.DecodeBase64 | services/geminiService.ts:128-136 | `decodeBase64` fails exactly when `atob` throws, and otherwise gives the bytes of `atob`'s string |
| Pcm.WrapInt16 | services/geminiService.ts:684-687 | storing into an `Int16Array` wraps modulo 65536, leaving in-range values alone |
| Pcm.Int16View | services/geminiService.ts:147 | `new Int16Array(buffer)` throws exactly on an odd byte count, and otherwise gives half as many samples |
| Pcm.SampleBytes | services/geminiService.ts:690 | a sample's little-endian byte pair reads back to the sample |
| Pcm.Int16Bytes | services/geminiService.ts:690 | two little-endian bytes per sample |
| Pcm.Int16ViewOfBytes | services/geminiService.ts:730 | viewing the bytes of samples gives back the samples |
| Pcm.WrapAll | services/geminiService.ts:684-687 | every captured value is wrapped to 16 bits |
| Pcm.EncodeCapture | services/geminiService.ts:684-698 | the capture loop gives the base-64 encoding of the wrapped samples' bytes |
| Pcm.DecodePlayback | services/geminiService.ts:723-730 | the receive loop gives the samples of the decoded bytes, or fails as the specification function does |
| Pcm.PlaybackSamples | services/geminiService.ts:723-730 | defined exactly when `atob` succeeds with an even number of bytes, and then gives half as many samples as bytes |
| Pcm.CaptureThenPlayback | services/geminiService.ts:684-730 | audio encoded as the capture side does is decoded by the playback side to the same 16-bit samples |
| Pcm.InterleavedIndexInBounds | services/geminiService.ts:151-156 | the index read for a frame and channel is inside the interleaved data |
| Pcm.ChannelIndicesInBounds | services/geminiService.ts:151-156 | every index the channel loop reads is in bounds |
| Pcm.NoWholeFrame | services/geminiService.ts:148 | there are no frames exactly when the data is shorter than one frame |
| Pcm.Channel | services/geminiService.ts:151-156 | a channel takes every `numChannels`-th sample from its offset, one per whole frame |
| Pcm.Deinterleave | services/geminiService.ts:150-157 | one channel per channel number, each the channel of the samples |
| Pcm.Interleave | services/geminiService.ts:151-156 | the interleaving of equal-length channels has one sample per frame and channel |
| Pcm.InterleaveDeinterleave | services/geminiService.ts:148-156 | interleaving the channels again gives the samples of the whole frames |
| Pcm.FillChannel | services/geminiService.ts:152-155 | the inner loop fills a new array with the channel's samples |
| Pcm.DecodeAudioData | services/geminiService.ts:141-158 | fails exactly on odd data or data shorter than one frame, otherwise gives the deinterleaved channels |
| LiveSession.TranscriptEvents | services/geminiService.ts:713-718 | at most two callbacks, input before output, each exactly when its text is non-empty |
| LiveSession.AudioSamples | services/geminiService.ts:721-731 | audio is played only when it decodes to at least one sample |
| LiveSession.Duration | services/geminiService.ts:731 | a buffer's playing time is never negative |
| LiveSession.Session.constructor | services/geminiService.ts:647 | the cursor starts at zero with nothing played |
| LiveSession.Session.OnMessage | services/geminiService.ts:711-745 | transcripts are reported in order; audio starts at the later of now and the cursor, and the cursor moves to its end; the playback stays gapless |
| LiveSession.Session.RecordTranscripts | services/geminiService.ts:713-718 | the input transcript, then the output transcript, are appended when present; the audio state is unchanged |
| LiveSession.Session.Schedule | services/geminiService.ts:741-744 | the buffer starts at the later of now and the cursor, and the cursor moves by its duration |
| LiveSession.GaplessAppend | services/geminiService.ts:741-744 | a buffer starting at or after the cursor keeps the playback free of overlaps |
| LiveSession.Plan | services/geminiService.ts:741-744 | one start and end per message |
| LiveSession.PlanIsGapless | services/geminiService.ts:741-744 | every buffer starts no earlier than its message and the previous buffer's end, and plays for its duration |
| Exams.TimeLimit | components/Exams.tsx:63 | one minute per question: 600 seconds for a weekly exam of 10, 1500 for a monthly exam of 25 |
| Exams.FormatTime | components/Exams.tsx:46-50 | the display ends in a colon and two characters and is at least five long; exactly five below 100 minutes |
| Exams.FormatTimeReadsBack | components/Exams.tsx:46-50 | below 100 minutes the display is "MM:SS", two digits, a colon and two digits, and reads back to the seconds |
| Exams.Score | components/Exams.tsx:90-94 | the score never exceeds the number of questions |
| Exams.ScoreAfterAnswer | components/Exams.tsx:230 | answering one question changes the score by at most one, exactly as its correctness changes |
| Exams.ScoreUnaffected | components/Exams.tsx:90-94 | an answer under an index beyond the questions does not count |
| Exams.ScoreOfNoAnswers | components/Exams.tsx:90-94 | with no answers the score is zero |
| Exams.Percentage | components/Exams.tsx:78 | `Math.round(score / total * 100)`: the nearest whole percentage, a half rounded up |
| Exams.PercentageRange | components/Exams.tsx:78 | the rounded percentage is between 0 and 100, and hits each end at a zero or full score |
| Exams.PassMark | components/Exams.tsx:268 | the pass mark is 75 for a monthly exam and 60 for a weekly one |
| Exams.Passed | components/Exams.tsx:268 | the percentage reaches the exam type's pass mark |
| Exams.CanClaimCertificate | components/Exams.tsx:269 | a passed monthly exam |
| Exams.TabAfterSubmit | components/Exams.tsx:80-84 | the certificate tab for a monthly exam at 75% or more, else the analysis tab |
| Exams.PassedIff | components/Exams.tsx:267-268 | passing after rounding holds exactly when the score is at least the pass mark less half a percent |
| Exams.CertificateTabIffClaimable | components/Exams.tsx:80-84 | the result opens on the certificate tab exactly when the certificate can be claimed |
| Exams.AllAnswered | components/Exams.tsx:255 | every question of the list has an answer |
| Exams.SubmitEnabledIffAllAnswered | components/Exams.tsx:255 | the submit button is enabled exactly when every question has an answer |
| Exams.ExamScreen.constructor | components/Exams.tsx:9-17 | the screen starts on the select view with a weekly exam and nothing else set |
| Exams.ExamScreen.ChooseExamType | components/Exams.tsx:108 | only the exam type changes |
| Exams.ExamScreen.ChooseSubject | components/Exams.tsx:166 | only the subject changes |
| Strings.IsBlank | components/Exams.tsx:53 | `!s.trim()`: the text is empty or only white space and line terminators |
| Exams.ExamScreen.StartExam | components/Exams.tsx:52-69 | nothing for a blank subject; otherwise the generated questions, cleared answers and feedback, the time limit, and the exam view when there are questions |
| Exams.ExamScreen.Load | components/Exams.tsx:58-67 | the generated questions with cleared answers and feedback and the exam type's time limit; the exam view only when there are questions |
| Exams.ExamScreen.SelectAnswer | components/Exams.tsx:230 | the answer of one question is set and the others stay |
| Exams.ExamScreen.SubmitExam | components/Exams.tsx:71-88 | the result view with the feedback, on the tab the percentage and exam type call for |
| Exams.ExamScreen.Tick | components/Exams.tsx:33-40 | one second less with the tab kept, or at the last second zero time and an automatic submit whose tab is the certificate exactly for a monthly exam at 75% or more; exam type, subject, questions and answers stay |
| Exams.ExamScreen.ReturnToMenu | components/Exams.tsx:407-412 | back to the select view with the subject and questions cleared |
| QuizArena.Arena.constructor | components/QuizArena.tsx:10-22 | an empty set-up form for five questions |
| QuizArena.Arena.ChooseTopic | components/QuizArena.tsx:181 | only the topic changes |
| QuizArena.Arena.ChooseCount | components/QuizArena.tsx:191-194 | only the question count changes |
| QuizArena.Arena.StartQuiz | components/QuizArena.tsx:24-47 | nothing for an empty topic; otherwise the progress resets and the generated questions are taken, or the error is set when none came |
| QuizArena.Arena.Begin | components/QuizArena.tsx:27-41 | the progress resets; a non-empty list is taken, an empty one sets the error |
| QuizArena.Arena.Answer | components/QuizArena.tsx:49-56 | the answer is recorded and revealed, and the score rises by one exactly for the correct option; it never exceeds the question count |
| QuizArena.Arena.NextQuestion | components/QuizArena.tsx:58-66 | the result is hidden and the quiz moves on, or finishes after the last question |
| QuizArena.Arena.FinishQuiz | components/QuizArena.tsx:68-75 | the quiz is finished with the analysis text |
| QuizArena.Arena.ResetQuiz | components/QuizArena.tsx:77-85 | back to an empty form; the count, error, selection and analysis stay |
| Language.Member | LanguageContext.tsx:24 | a key is found exactly in a table that has it, with the entry's value |
| Language.Translate | LanguageContext.tsx:19-36 | `t(path)` is the path itself, a text the walk over the language's table reaches, or, when that walk misses a key, a non-empty text of the English table |
| Language.FallbackWalkTruthy | LanguageContext.tsx:27-30 | the English walk only ends on a truthy value |
| Language.FallbackWalkIsWalk | LanguageContext.tsx:23-31 | where the English walk succeeds, the strict walk reaches the same value |
| Language.TranslateFoundOrPath | LanguageContext.tsx:19-36 | a text the language's walk reaches is returned; when that walk misses a key, a text the English walk reaches is returned; the path comes back only when neither applies |
| Language.EnglishLookup | LanguageContext.tsx:19-36 | in English, `t` gives the text at the path when there is one and the path otherwise |
| Language.FindCode | LanguageContext.tsx:17 | the first listed language with the code; `None` exactly when none has it |
| Language.LanguageName | LanguageContext.tsx:17 | `languageName` is never empty, and is "English" or the listed name of the code |
| Language.LanguageNameIff | LanguageContext.tsx:17 | the name is "English" exactly for English and unknown codes, and otherwise the listed name |
| Language.NamesOfLanguages | constants.ts:3-23 | every listed language has a name, and only English is called "English" |
| Language.LanguageProvider.constructor | LanguageContext.tsx:15 | the provider starts in English |
| Language.LanguageProvider.SetLanguage | LanguageContext.tsx:15 | the language becomes the chosen code |
| Language.LanguageProvider.T | LanguageContext.tsx:19-36 | the loop returns what `t` is specified to return |
| FileAnalyzer.DataUrlPayload | components/FileAnalyzer.tsx:82 | the payload after the first comma, which has no comma itself |
| FileAnalyzer.DataUrlPayloadOf | components/FileAnalyzer.tsx:82 | a data URL `header,payload` gives the payload |
| FileAnalyzer.DataUrlWithoutComma | components/FileAnalyzer.tsx:82 | a result without a comma gives no payload |
| FileAnalyzer.FileIcon | components/FileAnalyzer.tsx:119-125 | `renderFileIconSmall`: audio first, then PDF, then images, else the generic icon |
| FileAnalyzer.FileIconIff | components/FileAnalyzer.tsx:119-125 | each icon is chosen exactly for its kind of type, in the source's order |
| FileAnalyzer.AllowedTypesHaveIcons | components/FileAnalyzer.tsx:57-61 | every allowed type has a specific icon: images, then PDF, then audio |
| FileAnalyzer.TitleText | components/FileAnalyzer.tsx:159 | a falsy title gives the fallback, a text title itself, and any other title throws |
| FileAnalyzer.TopicLineList | components/FileAnalyzer.tsx:169-171 | one line per topic |
| FileAnalyzer.BlockList | components/FileAnalyzer.tsx:164-173 | one block per phase |
| FileAnalyzer.ExportText | components/FileAnalyzer.tsx:158-173 | the export fails exactly when the title is a truthy non-text or a phase has no topic list |
| FileAnalyzer.Sanitize | components/FileAnalyzer.tsx:180 | each character is kept when it is an ASCII letter or digit and becomes `_` otherwise |
| FileAnalyzer.ExportFileName | components/FileAnalyzer.tsx:180 | the download name from `roadmap.title \|\| 'Roadmap'`, or `None` when the title throws |
| FileAnalyzer.ExportFileNameShape | components/FileAnalyzer.tsx:180 | the file name is the title's characters made safe and lower case, followed by ".txt" |
| FileAnalyzer.SafeTitleKept | components/FileAnalyzer.tsx:180 | a title already made of lower-case letters, digits and `_` is kept |
| FileAnalyzer.FileNameWithText | components/FileAnalyzer.tsx:158-180 | a name is made whenever the text is |
| FileAnalyzer.ExportStartsWithTitle | components/FileAnalyzer.tsx:159 | the text opens with the title line, the title in capitals |
| FileAnalyzer.UntitledExport | components/FileAnalyzer.tsx:159 | a roadmap without a title is exported as "UNTITLED" (a fallback that roadmaps built by Coercers.RoadmapOf never reach) |
| FileAnalyzer.ExportTextShape | components/FileAnalyzer.tsx:158-173 | the text is the header followed by the phase blocks |
| FileAnalyzer.ExportPhaseInOrder | components/FileAnalyzer.tsx:164-173 | the export text is the header, the blocks of the earlier phases, this phase's block, then the blocks of the later phases |
| FileAnalyzer.BlockStartsWithHeading | components/FileAnalyzer.tsx:165 | a phase's block starts with "PHASE i+1: " |
| FileAnalyzer.ExportListsTopic | components/FileAnalyzer.tsx:169-171 | every topic of every phase is listed in the text |
| FileAnalyzer.ExportContent | components/FileAnalyzer.tsx:158-173 | the appending loop builds exactly the export text |
| FileAnalyzer.AppendBlock | components/FileAnalyzer.tsx:165-172 | one phase's appends add its block |
| FileAnalyzer.AppendTopics | components/FileAnalyzer.tsx:169-171 | the topic loop appends the topic lines |
| FileAnalyzer.Analyzer.constructor | components/FileAnalyzer.tsx:42-55 | no file, no guide, no roadmap, the summary tab |
| FileAnalyzer.UnsupportedTypeError | components/FileAnalyzer.tsx:72 | the message naming the rejected type |
| FileAnalyzer.Analyzer.FileChange | components/FileAnalyzer.tsx:64-77 | the guide is cleared; an unsupported type sets the error and keeps the file, an allowed one is taken |
| FileAnalyzer.Analyzer.FileLoaded | components/FileAnalyzer.tsx:79-84 | the preview and the payload with its type are stored |
| FileAnalyzer.Analyzer.ClearFile | components/FileAnalyzer.tsx:105-111 | the file, preview, data, guide and error are cleared |
| FileAnalyzer.Analyzer.ChooseTab | components/FileAnalyzer.tsx:232 | only the tab changes |
| FileAnalyzer.Analyzer.GenerateStudyGuide | components/FileAnalyzer.tsx:89-103 | nothing without data; a guide opens the summary tab, a failure sets the error |
| FileAnalyzer.Analyzer.ChooseRoadmapTopic | components/FileAnalyzer.tsx:524 | only the roadmap topic changes |
| FileAnalyzer.Analyzer.GenerateRoadmap | components/FileAnalyzer.tsx:138-152 | nothing without a topic; otherwise the coerced roadmap, or the error when there is none |
| FileAnalyzer.Analyzer.CloseRoadmap | components/FileAnalyzer.tsx:442 | the roadmap and its topic are cleared |
| FileAnalyzer.Analyzer.DownloadRoadmap | components/FileAnalyzer.tsx:154-194 | a file with the export name and text is downloaded, or the export alert is raised when the export throws |
| UserContext.UpdateProfile | UserContext.tsx:84-86 | every field given in the patch takes its value, every other field keeps the previous one |
| UserContext.MergePreferences | UserContext.tsx:91 | every preference given takes its value, the others are kept |
| UserContext.UpdatePreferences | UserContext.tsx:88-93 | only the preferences change, merged with the patch |
| UserContext.UpdateProfileIdentity | UserContext.tsx:84-86 | a patch of the current values, or an empty patch, changes nothing |
| UserContext.UpdateProfileComposes | UserContext.tsx:84-86 | two updates are the update by the combined patch, and repeating an update changes nothing |
| UserContext.UpdatePreferencesComposes | UserContext.tsx:88-93 | two preference updates compose, repeating one changes nothing, and an empty one changes nothing |
| UserContext.UpdatePreferencesIsUpdateProfile | UserContext.tsx:88-93 | a preference update is a profile update with the merged preferences |
| UserContext.OrElse | UserContext.tsx:49-50 | a non-empty value is taken, otherwise the previous one |
| UserContext.SignedInProfile | UserContext.tsx:47-51 | signing in changes only the email and the name |
| UserContext.SignedInIsUpdate | UserContext.tsx:47-51 | signing in is a profile update, and repeating it changes nothing |
| UserContext.UserProvider.constructor | UserContext.tsx:16-37 | the default profile, not signed in, loading |
| UserContext.UserProvider.CheckSession | UserContext.tsx:41-58 | loading ends; a session signs in and fills the email and name; no session or a failure changes nothing else |
| UserContext.UserProvider.OnAuthStateChange | UserContext.tsx:63-77 | signing in authenticates and fills the profile from the user; signing out restores the default profile; other events change nothing |
| UserContext.UserProvider.Update | UserContext.tsx:84-86 | the profile is updated by the patch |
| UserContext.UserProvider.UpdatePrefs | UserContext.tsx:88-93 | the preferences are updated by the patch |

## Left out

- The calls to the generative model, their prompts, schemas and model names:
  - each service is modelled from the reply text on;
  - a failed call is a `None` reply.
- `generateExamFeedback`, `chatWithTutor`, `textToSpeech` and `speakText`:
  - they only pass prompts and replies through;
  - their text is a parameter where a screen uses it.
- `JSON.parse` is a parameter. Its grammar is not modelled.
- JSON numbers are integers only.
- `String(x)` of an object or array is a fixed rendering, not JavaScript's.
- The loading and analysing flags, and the order in which asynchronous
  handlers interleave, are left out. Each handler is modelled as one atomic
  step once its reply is known.
- QuizNormaliser.NormaliseItem: the answer uses the corrected letter rule
  of the Findings row (QuizNormaliser.ResolveAnswerCorrected), not the
  source's. It differs only where the source keeps a letter that is not an
  option; QuizNormaliser.CorrectedAgreesWhereSourceIsSound is the bridge.
- QuizNormaliser.NormaliseAll: inherits the corrected answer of
  QuizNormaliser.NormaliseItem.
- QuizNormaliser.SanitizeQuestions: inherits the corrected answer of
  QuizNormaliser.NormaliseItem.
- QuizNormaliser.SanitizedQuestionsWellFormed: answer membership holds of
  the corrected rule only; the source's answer is an option except in the
  letter case of the Findings row.
- Coercers.GeneratedQuestionsWellFormed: the same as
  QuizNormaliser.SanitizedQuestionsWellFormed, for generated quizzes and
  exams, and so for the scoring in Exams and QuizArena.
- Exams.ExamScreen.Tick: does not model the stale closure over
  `handleSubmitExam` in the interval callback. The automatic submit is
  modelled as if it read the current state.
- Exams.PercentageRange: the percentage is `Math.round(score / total * 100)`
  over exact rationals. Double-precision rounding at exact halves is not
  modelled.
- QuizArena.Arena.StartQuiz: does not model the "Connection error" branch.
  `generateQuiz` catches every error and returns a list, so that branch
  cannot be reached.
- Audio scaling by `0x7FFF` and by `1 / 32768.0` is floating point and left
  out:
  - capture takes the already-scaled integer sample values;
  - playback stops at the 16-bit samples.
- The Web Audio graph, the microphone, the script processor and the session
  transport are not part of this model. The clock is a parameter.
- Pcm.DecodeAudioData: a frame count that is not a whole number only
  truncates. The source would pass it on to `createBuffer`.
- Language.LanguageProvider.T:
  - JavaScript's prototype keys and the indexing of a string by `length` or
    by a digit are not modelled;
  - a text has no keys.
- Strings.ToLower and Strings.ToUpper map ASCII letters only. The file name
  is computed on Dafny characters rather than on UTF-16 units.
- FileAnalyzer:
  - `renderFileIconLarge` and the roadmap difficulty selector are not part of
    this model;
  - the switch between the analyzer and the roadmap view (`viewMode`) only
    chooses what is rendered, and is not part of this model;
  - `handleSpeak` hands the text to the browser's speech synthesis, which is
    not part of this model;
  - the file reader and the download link are not part of this model: a
    download is recorded as its name and text.
- UserContext:
  - the authentication service is not part of this model. Its outcomes are
    parameters;
  - a non-text truthy `user_metadata.name` is not modelled;
  - a patch that sets a required field to `undefined` is not modelled.
- The presentation components (landing page, dashboard, layout, chat,
  dictionary, translator, profile and settings screens) are not part of this
  model. Their logic is covered only through the services and contexts above.

## Findings

| source | as written | input that shows it | evidently intended | confidence | as-written member | corrected member |
|---|---|---|---|---|---|---|
| services/geminiService.ts:48-51 | a one-letter answer A–D whose option slot is missing or empty is kept as the letter itself, and the fuzzy match is skipped | an item with options ["x","y"] and correctAnswer "D" gets the answer "D", which is not an option | the answer always matches an option, as the comment at line 40 says | not executed | QuizNormaliser.LetterBeyondOptionsEscapes | QuizNormaliser.ResolveAnswerCorrected |
