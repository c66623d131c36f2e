// Clients of the quiz state: a four-question round with the first answer
// wrong, its result, and the retry round built from the one mistake. They
// use nothing but the contracts of AppState's methods.

module Scenarios {
  import opened Vocab
  import opened Questions
  import opened QuizApp

  /** Round one starts with four questions; the first is answered wrongly, then clicked again. */
  method FirstAnswerWrong(app: AppState, e1: Entry, e2: Entry, e3: Entry, e4: Entry)
    requires app.Valid()
    modifies app
  {
    var qs := [Question(e1, RuEn), Question(e2, RuEn), Question(e3, RuEn), Question(e4, RuEn)];
    app.StartQuiz(Only(RuEn), Some(qs), [], []);
    assert app.isQuizActive && app.totalQuestions == 4;

    assert |e1.en + "?"| != |e1.en|;
    app.HandleOptionClick(e1.en + "?");
    assert app.score == 0 && app.mistakes == [Question(e1, RuEn)];
    app.HandleOptionClick(e1.en);
    assert app.score == 0 && |app.mistakes| == 1;
    app.NextQuestion();
    assert app.currentQuestionIndex == 1 && app.isQuizActive && !app.answerSubmitted;
  }

  /** The rest of round one: the other three answers are right, and the round ends at 3 of 4. */
  method RestAnsweredRight(app: AppState, e1: Entry, e2: Entry, e3: Entry, e4: Entry)
    requires app.Valid() && app.isQuizActive && !app.answerSubmitted
    requires app.quizQuestions == [Question(e1, RuEn), Question(e2, RuEn), Question(e3, RuEn), Question(e4, RuEn)]
    requires app.currentQuestionIndex == 1 && app.score == 0 && app.mistakes == [Question(e1, RuEn)]
    modifies app
  {
    app.HandleOptionClick(e2.en);
    app.NextQuestion();
    app.HandleOptionClick(e3.en);
    app.NextQuestion();
    assert app.currentQuestionIndex == 3 && app.isQuizActive;
    app.HandleOptionClick(e4.en);
    app.NextQuestion();
    assert !app.isQuizActive && app.score == 3 && app.mistakes == [Question(e1, RuEn)];
  }

  /** Result screen of that round: 3 of 4 is 75%, and "retry" asks the one missed word again. */
  method RetryTheMistake(app: AppState, q: Question)
    requires app.Valid() && !app.isQuizActive
    requires app.totalQuestions == 4 && app.score == 3 && app.mistakes == [q]
    requires app.quizMode == Only(RuEn)
    modifies app
  {
    var percentage := app.EndQuiz();
    assert percentage == Some(75);

    var started := app.RetryMistakes([true]);
    RetryQuestionsSpec([q], Only(RuEn), [true]);
    assert started && app.isQuizActive && app.score == 0 && app.mistakes == [];
    assert app.quizQuestions == [Question(q.entry, RuEn)];
  }

  /** On a fresh state there is nothing to retry and no session starts. */
  method NothingToRetry()
  {
    var app := new AppState();
    var started := app.RetryMistakes([]);
    assert !started && app.quizQuestions == [] && !app.isQuizActive;
  }
}
