/** The timed exam screen (components/Exams.tsx): choosing a subject and an
    exam type, starting a generated exam with a countdown, answering,
    submitting, and the score, percentage and pass rules of the result
    screen. */
module Exams {
  import opened Wrappers
  import opened Strings
  import opened JsValue
  import opened QuizNormaliser
  import opened Coercers

  datatype View = Select | Active | Result
  datatype ResultTab = Analysis | Certificate

  /** The countdown an exam starts with, in seconds: one minute per
      question. */
  function TimeLimit(examType: ExamType): (t: nat)
    ensures t == 60 * ExamLength(examType)
  {
    if examType == Weekly then 600 else 1500
  }

  /** `formatTime(seconds)`: minutes and seconds, each padded to two
      digits, joined by a colon. */
  function FormatTime(seconds: nat): (r: string)
    ensures |r| >= 5 && r[|r| - 3] == ':'
    ensures seconds < 6000 ==> |r| == 5
  {
    var mm, ss := PadStart(NatToDecimal(seconds / 60), 2, '0'), PadStart(NatToDecimal(seconds % 60), 2, '0');
    PaddedWidth(seconds % 60);
    if seconds < 6000 then PaddedWidth(seconds / 60); mm + ":" + ss
    else mm + ":" + ss
  }

  lemma PaddedWidth(n: nat)
    requires n < 100
    ensures |PadStart(NatToDecimal(n), 2, '0')| == 2
  {
    PaddedValue(n);
  }

  lemma {:induction false} PaddedValue(n: nat)
    requires n < 100
    ensures var p := PadStart(NatToDecimal(n), 2, '0');
      |p| == 2 && IsAsciiDigit(p[0]) && IsAsciiDigit(p[1]) && DecimalValue(p) == n
  {
    var d := NatToDecimal(n);
    DecimalRoundTrip(n);
    var p := PadStart(d, 2, '0');
    if n < 10 {
      assert d == [DigitChar(n)];
      assert p == ['0'] + d;
      assert p[..1] == ['0'];
      assert DecimalValue(['0']) == DecimalValue([]) * 10 + 0;
    } else {
      assert d == NatToDecimal(n / 10) + [DigitChar(n % 10)];
      assert NatToDecimal(n / 10) == [DigitChar(n / 10)];
      assert p == d;
    }
  }

  /** Below 100 minutes the display is exactly "MM:SS": two digits, a colon
      and two digits, and reading it back gives the seconds. */
  lemma FormatTimeReadsBack(seconds: nat)
    requires seconds < 6000
    ensures var r := FormatTime(seconds);
      |r| == 5 && r[2] == ':' && DecimalValue(r[..2]) * 60 + DecimalValue(r[3..]) == seconds
    ensures var r := FormatTime(seconds);
      |r| == 5 && IsAsciiDigit(r[0]) && IsAsciiDigit(r[1]) && IsAsciiDigit(r[3]) && IsAsciiDigit(r[4])
  {
    var minutes, secs := seconds / 60, seconds % 60;
    PaddedValue(minutes);
    PaddedValue(secs);
    ColonFields(PadStart(NatToDecimal(minutes), 2, '0'), PadStart(NatToDecimal(secs), 2, '0'));
    assert minutes * 60 + secs == seconds;
  }

  /** Two two-character fields joined by a colon are found again at
      positions 0 and 3. */
  lemma ColonFields(mm: string, ss: string)
    requires |mm| == 2 && |ss| == 2
    ensures var r := mm + ":" + ss;
      |r| == 5 && r[2] == ':' && r[..2] == mm && r[3..] == ss
  {
    var r := mm + ":" + ss;
    assert r[..2] == mm;
    assert r[3..] == ss;
  }

  /** `getScore()`: the number of questions whose recorded answer is the
      question's correct answer. */
  function Score(questions: seq<QuizQuestion>, answers: map<nat, string>): (score: nat)
    ensures score <= |questions|
  {
    if |questions| == 0 then 0
    else
      var last := |questions| - 1;
      Score(questions[..last], answers) + (if last in answers && answers[last] == questions[last].correctAnswer then 1 else 0)
  }

  predicate IsCorrect(questions: seq<QuizQuestion>, answers: map<nat, string>, idx: nat)
    requires idx < |questions|
  {
    idx in answers && answers[idx] == questions[idx].correctAnswer
  }

  /** Changing the answer to one question changes the score only by that
      question's contribution. */
  lemma {:induction false} ScoreAfterAnswer(questions: seq<QuizQuestion>, answers: map<nat, string>, idx: nat, option: string)
    requires idx < |questions|
    ensures Score(questions, answers[idx := option]) + (if IsCorrect(questions, answers, idx) then 1 else 0)
         == Score(questions, answers) + (if option == questions[idx].correctAnswer then 1 else 0)
    decreases |questions|
  {
    var last := |questions| - 1;
    var prefix := questions[..last];
    if idx < last {
      ScoreAfterAnswer(prefix, answers, idx, option);
      assert prefix[idx] == questions[idx];
    } else {
      ScoreUnaffected(prefix, answers, idx, option);
    }
  }

  /** An answer to a question beyond the list does not count. */
  lemma {:induction false} ScoreUnaffected(questions: seq<QuizQuestion>, answers: map<nat, string>, idx: nat, option: string)
    requires idx >= |questions|
    ensures Score(questions, answers[idx := option]) == Score(questions, answers)
    decreases |questions|
  {
    if |questions| > 0 {
      ScoreUnaffected(questions[..|questions| - 1], answers, idx, option);
    }
  }

  /** With no answers recorded the score is zero. */
  lemma {:induction false} ScoreOfNoAnswers(questions: seq<QuizQuestion>)
    ensures Score(questions, map[]) == 0
    decreases |questions|
  {
    if |questions| > 0 {
      ScoreOfNoAnswers(questions[..|questions| - 1]);
    }
  }

  /** `Math.round(score / total * 100)`, computed exactly: halves round up. */
  function Percentage(score: nat, total: nat): (pct: nat)
    requires 0 < total
    ensures pct * (2 * total) <= 200 * score + total < (pct + 1) * (2 * total)
  {
    var a, b := 200 * score + total, 2 * total;
    assert a == (a / b) * b + a % b;
    assert (a / b + 1) * b == (a / b) * b + b;
    a / b
  }

  lemma PercentageRange(score: nat, total: nat)
    requires 0 < total && score <= total
    ensures Percentage(score, total) <= 100
    ensures score == total ==> Percentage(score, total) == 100
    ensures score == 0 ==> Percentage(score, total) == 0
  {
    var a, b := 200 * score + total, 2 * total;
    DivBelow(a, b, 101);
    if score == total {
      DivAtLeast(a, b, 100);
    }
    if score == 0 {
      DivBelow(a, b, 1);
    }
  }

  lemma DivBelow(a: nat, b: nat, c: nat)
    requires 0 < b && a < c * b
    ensures a / b < c
  {
    var q := a / b;
    assert q * b <= a;
    assert (c - q) * b > 0;
  }

  lemma DivAtLeast(a: nat, b: nat, c: nat)
    requires 0 < b
    ensures a / b >= c <==> a >= c * b
  {
    var q := a / b;
    assert a == q * b + a % b;
    if q >= c {
      MulMonotone(c, q, b);
    } else {
      MulMonotone(q + 1, c, b);
      assert (q + 1) * b == q * b + b;
    }
  }

  lemma MulMonotone(x: nat, y: nat, b: nat)
    requires x <= y
    ensures x * b <= y * b
  {
    assert y * b == x * b + (y - x) * b;
  }

  /** The pass mark of an exam type. */
  function PassMark(examType: ExamType): nat {
    if examType == Monthly then 75 else 60
  }

  predicate Passed(pct: nat, examType: ExamType) {
    pct >= PassMark(examType)
  }

  predicate CanClaimCertificate(pct: nat, examType: ExamType) {
    Passed(pct, examType) && examType == Monthly
  }

  /** The tab shown after submitting. */
  function TabAfterSubmit(pct: nat, examType: ExamType): ResultTab {
    if pct >= 75 && examType == Monthly then Certificate else Analysis
  }

  /** Passing means a score of at least the pass mark less half a percent:
      75% is reached from 74.5%, 60% from 59.5%. */
  lemma PassedIff(score: nat, total: nat, examType: ExamType)
    requires 0 < total
    ensures Passed(Percentage(score, total), examType) <==> 200 * score >= (2 * PassMark(examType) - 1) * total
  {
    DivAtLeast(200 * score + total, 2 * total, PassMark(examType));
  }

  /** The result screen opens on the certificate exactly when the
      certificate can be claimed. */
  lemma CertificateTabIffClaimable(pct: nat, examType: ExamType)
    ensures TabAfterSubmit(pct, examType) == Certificate <==> CanClaimCertificate(pct, examType)
  {
  }

  /** All the questions have an answer. */
  predicate AllAnswered(questions: seq<QuizQuestion>, answers: map<nat, string>) {
    forall i :: 0 <= i < |questions| ==> i in answers
  }

  function Indices(n: nat): (s: set<nat>)
    ensures |s| == n && forall i: nat :: i in s <==> i < n
  {
    if n == 0 then {} else Indices(n - 1) + {n - 1}
  }

  /** The submit button's condition, `Object.keys(answers).length ===
      questions.length`, holds exactly when every question is answered, as
      answers are only recorded for questions of the list. */
  lemma {:induction false} SubmitEnabledIffAllAnswered(questions: seq<QuizQuestion>, answers: map<nat, string>)
    requires forall k :: k in answers ==> k < |questions|
    ensures |answers.Keys| == |questions| <==> AllAnswered(questions, answers)
  {
    var all := Indices(|questions|);
    assert answers.Keys <= all;
    if AllAnswered(questions, answers) {
      assert all <= answers.Keys;
      assert answers.Keys == all;
    } else {
      var i :| 0 <= i < |questions| && i !in answers;
      assert answers.Keys <= all - {i};
      assert |all - {i}| == |questions| - 1;
      SubsetSize(answers.Keys, all - {i});
    }
  }

  lemma {:induction false} SubsetSize(a: set<nat>, b: set<nat>)
    requires a <= b
    ensures |a| <= |b|
    decreases |b|
  {
    if a != {} {
      var x :| x in a;
      SubsetSize(a - {x}, b - {x});
    }
  }

  class ExamScreen {
    var view: View
    var examType: ExamType
    var subject: string
    var questions: seq<QuizQuestion>
    var answers: map<nat, string>
    var resultFeedback: string
    var timeLeft: nat
    var resultTab: ResultTab

    /** An exam or its result is shown only for a non-empty list, and
        answers during an exam belong to its questions. */
    ghost predicate Valid()
      reads this
    {
      (view != Select ==> |questions| > 0) &&
      (view == Active ==> forall k :: k in answers ==> k < |questions|)
    }

    constructor()
      ensures Valid()
      ensures view == Select && examType == Weekly && subject == "" && questions == [] && answers == map[]
      ensures resultFeedback == "" && timeLeft == 0 && resultTab == Analysis
    {
      view := Select;
      examType := Weekly;
      subject := "";
      questions := [];
      answers := map[];
      resultFeedback := "";
      timeLeft := 0;
      resultTab := Analysis;
    }

    method ChooseExamType(t: ExamType)
      requires Valid()
      modifies this
      ensures Valid()
      ensures examType == t
      ensures view == old(view) && subject == old(subject) && questions == old(questions) && answers == old(answers)
      ensures resultFeedback == old(resultFeedback) && timeLeft == old(timeLeft) && resultTab == old(resultTab)
    {
      examType := t;
    }

    method ChooseSubject(s: string)
      requires Valid()
      modifies this
      ensures Valid()
      ensures subject == s
      ensures view == old(view) && examType == old(examType) && questions == old(questions) && answers == old(answers)
      ensures resultFeedback == old(resultFeedback) && timeLeft == old(timeLeft) && resultTab == old(resultTab)
    {
      subject := s;
    }

    /** `handleStartExam`, given the exam generator's reply text: nothing
        for a blank subject; otherwise the generated questions replace the
        old ones, answers and feedback are cleared, the countdown is set,
        and the exam becomes active only if there is at least one question. */
    method StartExam(reply: Option<string>, parse: string -> Option<Json>)
      requires Valid() && view == Select
      modifies this
      ensures Valid()
      ensures IsBlank(old(subject)) ==>
        view == old(view) && questions == old(questions) && answers == old(answers) &&
        resultFeedback == old(resultFeedback) && timeLeft == old(timeLeft)
      ensures !IsBlank(old(subject)) ==>
        var qs := GenerateExam(reply, parse, old(examType));
        questions == qs && |questions| <= ExamLength(old(examType)) && answers == map[] && resultFeedback == "" &&
        timeLeft == TimeLimit(old(examType)) &&
        view == (if |qs| > 0 then Active else Select)
      ensures examType == old(examType) && subject == old(subject) && resultTab == old(resultTab)
    {
      if IsBlank(subject) {
        return;
      }
      var qs := GenerateExam(reply, parse, examType);
      Load(qs);
    }

    /** The rest of `handleStartExam` once the generator has answered. */
    method Load(qs: seq<QuizQuestion>)
      requires Valid() && view == Select
      modifies this
      ensures Valid()
      ensures questions == qs && answers == map[] && resultFeedback == "" && timeLeft == TimeLimit(examType)
      ensures view == (if |qs| > 0 then Active else Select)
      ensures examType == old(examType) && subject == old(subject) && resultTab == old(resultTab)
    {
      questions := qs;
      answers := map[];
      resultFeedback := "";
      timeLeft := TimeLimit(examType);
      if |qs| > 0 {
        view := Active;
      }
    }

    /** Choosing option `option` of question `idx`. */
    method SelectAnswer(idx: nat, option: string)
      requires Valid() && view == Active && idx < |questions|
      modifies this
      ensures Valid()
      ensures answers == old(answers)[idx := option]
      ensures forall k :: k != idx ==> (k in answers <==> k in old(answers)) && (k in answers ==> answers[k] == old(answers)[k])
      ensures view == old(view) && examType == old(examType) && subject == old(subject) && questions == old(questions)
      ensures resultFeedback == old(resultFeedback) && timeLeft == old(timeLeft) && resultTab == old(resultTab)
    {
      answers := answers[idx := option];
    }

    /** `handleSubmitExam`, given the feedback text: the result opens on
        the certificate tab exactly when a monthly exam scored at least 75%. */
    method SubmitExam(feedback: string)
      requires Valid() && view == Active
      modifies this
      ensures Valid()
      ensures view == Result && resultFeedback == feedback
      ensures resultTab == TabAfterSubmit(Percentage(Score(questions, answers), |questions|), examType)
      ensures examType == old(examType) && subject == old(subject) && questions == old(questions) && answers == old(answers)
      ensures timeLeft == old(timeLeft)
    {
      resultFeedback := feedback;
      var score := Score(questions, answers);
      var percentage := Percentage(score, |questions|);
      if percentage >= 75 && examType == Monthly {
        resultTab := Certificate;
      } else {
        resultTab := Analysis;
      }
      view := Result;
    }

    /** One second of the countdown while an exam runs: from one second or
        less the countdown stops at zero and the exam is submitted. */
    method Tick(feedback: string)
      requires Valid() && view == Active && timeLeft > 0
      modifies this
      ensures Valid()
      ensures old(timeLeft) <= 1 ==> timeLeft == 0 && view == Result && resultFeedback == feedback
      ensures old(timeLeft) > 1 ==> timeLeft == old(timeLeft) - 1 && view == Active && resultFeedback == old(resultFeedback)
      ensures old(timeLeft) <= 1 ==> resultTab == TabAfterSubmit(Percentage(Score(questions, answers), |questions|), examType)
      ensures old(timeLeft) > 1 ==> resultTab == old(resultTab)
      ensures questions == old(questions) && answers == old(answers)
      ensures examType == old(examType) && subject == old(subject)
    {
      if timeLeft <= 1 {
        timeLeft := 0;
        SubmitExam(feedback);
      } else {
        timeLeft := timeLeft - 1;
      }
    }

    /** The result screen's return button. The answers and the countdown
        are left as they are. */
    method ReturnToMenu()
      requires Valid() && view == Result
      modifies this
      ensures Valid()
      ensures view == Select && subject == "" && questions == [] && resultTab == Analysis
      ensures examType == old(examType) && answers == old(answers) && resultFeedback == old(resultFeedback) && timeLeft == old(timeLeft)
    {
      view := Select;
      subject := "";
      questions := [];
      resultTab := Analysis;
    }
  }
}
