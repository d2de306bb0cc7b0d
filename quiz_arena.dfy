/** The practice quiz screen (components/QuizArena.tsx): a quiz is
    generated for a topic, the questions are answered one at a time, each
    answer is revealed before moving on, and the running score counts the
    correct answers. The screen shown follows from the state: the summary
    once the quiz is finished, the set-up form while there are no questions,
    and the current question otherwise. */
module QuizArena {
  import opened Wrappers
  import opened JsValue
  import opened QuizNormaliser
  import opened Coercers
  import opened Exams

  const NoQuestionsError: string := "Unable to generate valid quiz questions. Please try a specific topic or simpler language."

  class Arena {
    var topic: string
    var numQuestions: nat
    var questions: seq<QuizQuestion>
    var error: Option<string>
    var currentQ: nat
    var score: nat
    var selectedOption: Option<string>
    var showResult: bool
    var quizFinished: bool
    var answers: map<nat, string>
    var finalAnalysis: string

    /** The current question is one of the list, answers are only recorded
        up to it, the current question has an answer exactly while its
        result is shown, and the running score is the number of correct
        recorded answers. */
    ghost predicate Valid()
      reads this
    {
      Progress() &&
      (showResult ==> !quizFinished && currentQ in answers && selectedOption == Some(answers[currentQ])) &&
      (!quizFinished && currentQ in answers ==> showResult)
    }

    ghost predicate Progress()
      reads this
    {
      (|questions| == 0 ==> currentQ == 0 && answers == map[] && !quizFinished) &&
      (|questions| > 0 ==> currentQ < |questions|) &&
      (forall k :: k in answers ==> k <= currentQ) &&
      score == Score(questions, answers)
    }

    /** The question screen is shown. */
    predicate Answering()
      reads this
    {
      !quizFinished && |questions| > 0
    }

    constructor()
      ensures Valid()
      ensures topic == "" && numQuestions == 5 && questions == [] && error == None && currentQ == 0 && score == 0
      ensures selectedOption == None && !showResult && !quizFinished && answers == map[] && finalAnalysis == ""
    {
      topic := "";
      numQuestions := 5;
      questions := [];
      error := None;
      currentQ := 0;
      score := 0;
      selectedOption := None;
      showResult := false;
      quizFinished := false;
      answers := map[];
      finalAnalysis := "";
    }

    method ChooseTopic(s: string)
      requires Valid()
      modifies this
      ensures Valid()
      ensures topic == s
      ensures numQuestions == old(numQuestions) && questions == old(questions) && error == old(error)
      ensures currentQ == old(currentQ) && score == old(score) && selectedOption == old(selectedOption)
      ensures showResult == old(showResult) && quizFinished == old(quizFinished) && answers == old(answers)
      ensures finalAnalysis == old(finalAnalysis)
    {
      topic := s;
    }

    /** One of the four count buttons of the set-up form. */
    method ChooseCount(n: nat)
      requires Valid() && n in {5, 10, 15, 20}
      modifies this
      ensures Valid()
      ensures numQuestions == n
      ensures topic == old(topic) && questions == old(questions) && error == old(error)
      ensures currentQ == old(currentQ) && score == old(score) && selectedOption == old(selectedOption)
      ensures showResult == old(showResult) && quizFinished == old(quizFinished) && answers == old(answers)
      ensures finalAnalysis == old(finalAnalysis)
    {
      numQuestions := n;
    }

    /** `startQuiz` from the set-up form, given the quiz generator's reply
        text: nothing for an empty topic; otherwise the progress is reset,
        and the generated questions are taken when there is at least one,
        while an empty list leaves the questions as they were and sets the
        error. */
    method StartQuiz(reply: Option<string>, parse: string -> Option<Json>)
      requires Valid() && !quizFinished && |questions| == 0
      modifies this
      ensures Valid()
      ensures old(topic) == "" ==>
        questions == old(questions) && error == old(error) && score == old(score) && answers == old(answers) &&
        finalAnalysis == old(finalAnalysis)
      ensures old(topic) != "" ==>
        var qs := GenerateQuiz(reply, parse, old(numQuestions));
        score == 0 && currentQ == 0 && answers == map[] && !quizFinished && finalAnalysis == "" &&
        (|qs| > 0 ==> questions == qs && error == None) &&
        (|qs| == 0 ==> questions == old(questions) && error == Some(NoQuestionsError))
      ensures |questions| <= old(numQuestions) || questions == old(questions)
      ensures topic == old(topic) && numQuestions == old(numQuestions) && showResult == old(showResult)
      ensures selectedOption == old(selectedOption)
    {
      if topic == "" {
        return;
      }
      var generated := GenerateQuiz(reply, parse, numQuestions);
      ScoreOfNoAnswers(generated);
      Begin(generated);
    }

    /** The rest of `startQuiz` once the generator has answered. */
    method Begin(generated: seq<QuizQuestion>)
      requires Valid() && !quizFinished && |questions| == 0 && Score(generated, map[]) == 0
      modifies this
      ensures Valid()
      ensures score == 0 && currentQ == 0 && answers == map[] && !quizFinished && finalAnalysis == ""
      ensures |generated| > 0 ==> questions == generated && error == None
      ensures |generated| == 0 ==> questions == old(questions) && error == Some(NoQuestionsError)
      ensures topic == old(topic) && numQuestions == old(numQuestions) && showResult == old(showResult)
      ensures selectedOption == old(selectedOption)
    {
      error, quizFinished, score, currentQ, answers, finalAnalysis := None, false, 0, 0, map[], "";
      if |generated| > 0 {
        questions := generated;
      } else {
        error := Some(NoQuestionsError);
      }
    }

    /** `handleAnswer`, reachable only while the result is hidden: the
        option is recorded for the current question and revealed, and the
        score goes up by one exactly when it is the correct answer. */
    method Answer(option: string)
      requires Valid() && Answering() && !showResult
      modifies this
      ensures Valid()
      ensures selectedOption == Some(option) && showResult
      ensures answers == old(answers)[currentQ := option]
      ensures score == old(score) + (if option == questions[currentQ].correctAnswer then 1 else 0)
      ensures score <= |questions|
      ensures topic == old(topic) && numQuestions == old(numQuestions) && questions == old(questions)
      ensures error == old(error) && currentQ == old(currentQ) && quizFinished == old(quizFinished)
      ensures finalAnalysis == old(finalAnalysis)
    {
      ScoreAfterAnswer(questions, answers, currentQ, option);
      selectedOption := Some(option);
      showResult := true;
      answers := answers[currentQ := option];
      if option == questions[currentQ].correctAnswer {
        score := score + 1;
      }
    }

    /** `nextQuestion`, from the revealed result or from the skip link of a
        question without options: the result is hidden, and the quiz moves
        to the next question or, after the last one, finishes with the
        given analysis. */
    method NextQuestion(analysis: string)
      requires Valid() && Answering()
      requires showResult || |questions[currentQ].options| == 0
      modifies this
      ensures Valid()
      ensures !showResult && selectedOption == None
      ensures old(currentQ) < |questions| - 1 ==> currentQ == old(currentQ) + 1 && !quizFinished && finalAnalysis == old(finalAnalysis)
      ensures old(currentQ) == |questions| - 1 ==> currentQ == old(currentQ) && quizFinished && finalAnalysis == analysis
      ensures topic == old(topic) && numQuestions == old(numQuestions) && questions == old(questions)
      ensures error == old(error) && score == old(score) && answers == old(answers)
    {
      showResult := false;
      selectedOption := None;
      if currentQ < |questions| - 1 {
        currentQ := currentQ + 1;
      } else {
        FinishQuiz(analysis);
      }
    }

    /** `finishQuiz`: the quiz is over and the analysis text (the feedback
        service's reply) is shown. */
    method FinishQuiz(analysis: string)
      requires Progress() && Answering() && !showResult
      modifies this
      ensures Valid()
      ensures quizFinished && finalAnalysis == analysis
      ensures topic == old(topic) && numQuestions == old(numQuestions) && questions == old(questions)
      ensures error == old(error) && currentQ == old(currentQ) && score == old(score) && answers == old(answers)
      ensures selectedOption == old(selectedOption) && showResult == old(showResult)
    {
      quizFinished := true;
      finalAnalysis := analysis;
    }

    /** `resetQuiz`, from the summary: back to an empty set-up form. The
        selected option, the error and the analysis are not cleared. */
    method ResetQuiz()
      requires Valid() && quizFinished
      modifies this
      ensures Valid()
      ensures questions == [] && topic == "" && !quizFinished && score == 0 && currentQ == 0 && answers == map[] && !showResult
      ensures numQuestions == old(numQuestions) && error == old(error) && selectedOption == old(selectedOption)
      ensures finalAnalysis == old(finalAnalysis)
    {
      questions := [];
      topic := "";
      quizFinished := false;
      score := 0;
      currentQ := 0;
      answers := map[];
      showResult := false;
    }
  }
}
