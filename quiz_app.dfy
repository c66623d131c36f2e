// The application state of YardWords (the global `state` object) and the
// handlers that change it: starting a quiz, answering, moving on, ending,
// retrying the missed words, playing again, and the dictionary list.

module QuizApp {
  import opened Vocab
  import opened Questions
  import opened Dictionary

  datatype Option<T> = None | Some(value: T)

  /** Math.round(score / total * 100) for total > 0: the whole number nearest
      to 100 * score / total, halves rounded up. */
  function Percentage(score: nat, total: nat): (r: nat)
    requires total > 0
    ensures 2 * r * total <= 200 * score + total < 2 * r * total + 2 * total
  {
    (200 * score + total) / (2 * total)
  }

  class AppState {
    /** The word list the application was loaded with: VOCAB (a constant). */
    const vocab: seq<Entry>
    var quizMode: Mode
    var quizQuestions: seq<Question>
    var currentQuestionIndex: nat
    var score: nat
    var totalQuestions: nat
    var answerSubmitted: bool
    var isQuizActive: bool
    var mistakes: seq<Question>
    /** dom.nextBtn.disabled: the Next button can be pressed only when false. */
    var nextBtnDisabled: bool
    /** The entries the dictionary view lists. */
    var currentVocab: seq<Entry>

    /** The bookkeeping a session keeps: every question before the current one,
        and the current one once answered, was counted either as correct or
        as a mistake. The word list is never empty (it is VOCAB, see the
        constructor), so a new quiz over it always has questions. */
    ghost predicate Valid()
      reads this
    {
      && vocab != []
      && totalQuestions == |quizQuestions|
      && (if quizQuestions == [] then currentQuestionIndex == 0 && !answerSubmitted
          else currentQuestionIndex < |quizQuestions|)
      && (isQuizActive ==> quizQuestions != [] && nextBtnDisabled == !answerSubmitted)
      && score + |mistakes| == currentQuestionIndex + (if answerSubmitted then 1 else 0)
      && (forall q :: q in mistakes ==> q in quizQuestions)
    }

    /** The initial value of `state`. */
    constructor ()
      ensures Valid()
      ensures quizMode == Only(RuEn) && quizQuestions == [] && currentQuestionIndex == 0
      ensures score == 0 && totalQuestions == 0 && !answerSubmitted && !isQuizActive
      ensures vocab == VOCAB && mistakes == [] && currentVocab == VOCAB
    {
      vocab := VOCAB;
      quizMode := Only(RuEn);
      quizQuestions := [];
      currentQuestionIndex := 0;
      score := 0;
      totalQuestions := 0;
      answerSubmitted := false;
      isQuizActive := false;
      mistakes := [];
      nextBtnDisabled := true;
      currentVocab := VOCAB;
    }

    /** A consequence of Valid(): the score never exceeds the number of questions. */
    lemma ScoreBounded()
      requires Valid()
      ensures score + |mistakes| <= totalQuestions
      ensures score <= totalQuestions
    {
    }

    /** endQuiz: the session is over; the percentage shown is None where the
        source divides by zero. */
    method EndQuiz() returns (percentage: Option<nat>)
      modifies this`isQuizActive
      ensures !isQuizActive
      ensures percentage == if totalQuestions == 0 then None else Some(Percentage(score, totalQuestions))
    {
      isQuizActive := false;
      percentage := if totalQuestions == 0 then None else Some(Percentage(score, totalQuestions));
    }

    /** The state part of renderQuestion: past the last question the quiz
        ends; otherwise the new question awaits an answer. */
    method RenderQuestion()
      modifies this`answerSubmitted, this`nextBtnDisabled, this`isQuizActive
      ensures currentQuestionIndex >= |quizQuestions| ==>
        !isQuizActive && answerSubmitted == old(answerSubmitted) && nextBtnDisabled == old(nextBtnDisabled)
      ensures currentQuestionIndex < |quizQuestions| ==>
        isQuizActive == old(isQuizActive) && !answerSubmitted && nextBtnDisabled
    {
      if currentQuestionIndex >= |quizQuestions| {
        var _ := EndQuiz();
        return;
      }
      answerSubmitted := false;
      nextBtnDisabled := true;
    }

    /** startQuiz(mode, questionsList): a fresh session over `questionsList`,
        or over all of the vocabulary, in the order `shuffled` the random sort
        produced, when no list is given. */
    method StartQuiz(mode: Mode, questionsList: Option<seq<Question>>, shuffled: seq<Entry>, coins: seq<bool>)
      requires Valid()
      requires questionsList.None? ==> multiset(shuffled) == multiset(vocab) && |coins| == |vocab|
      modifies this
      ensures Valid()
      ensures quizQuestions == if questionsList.Some? then questionsList.value
                               else GenerateQuestions(vocab, mode, shuffled, coins)
      ensures quizMode == mode && totalQuestions == |quizQuestions|
      ensures currentQuestionIndex == 0 && score == 0 && mistakes == [] && !answerSubmitted
      ensures isQuizActive == (quizQuestions != []) && (isQuizActive ==> nextBtnDisabled)
      ensures !isQuizActive ==> nextBtnDisabled == old(nextBtnDisabled)
      ensures currentVocab == old(currentVocab)
    {
      if questionsList.Some? {
        quizQuestions := questionsList.value;
      } else {
        quizQuestions := GenerateQuestions(vocab, mode, shuffled, coins);
      }
      quizMode := mode;
      currentQuestionIndex := 0;
      score := 0;
      totalQuestions := |quizQuestions|;
      answerSubmitted := false;
      isQuizActive := true;
      mistakes := [];
      RenderQuestion();
    }

    /** handleOptionClick: the first answer to the current question scores it
        (a point if right, the question recorded as a mistake if wrong); any
        further click before moving on changes nothing. */
    method HandleOptionClick(selected: string)
      requires Valid() && isQuizActive
      modifies this`score, this`mistakes, this`answerSubmitted, this`nextBtnDisabled
      ensures Valid()
      ensures old(answerSubmitted) ==>
        score == old(score) && mistakes == old(mistakes) && answerSubmitted && nextBtnDisabled == old(nextBtnDisabled)
      ensures !old(answerSubmitted) ==> answerSubmitted && !nextBtnDisabled
      ensures !old(answerSubmitted) && selected == CorrectAnswer(quizQuestions[currentQuestionIndex]) ==>
        score == old(score) + 1 && mistakes == old(mistakes)
      ensures !old(answerSubmitted) && selected != CorrectAnswer(quizQuestions[currentQuestionIndex]) ==>
        score == old(score) && mistakes == old(mistakes) + [quizQuestions[currentQuestionIndex]]
    {
      if answerSubmitted {
        return;
      }
      var question := quizQuestions[currentQuestionIndex];
      var isCorrect := selected == CorrectAnswer(question);
      if isCorrect {
        score := score + 1;
      } else {
        mistakes := mistakes + [question];
      }
      answerSubmitted := true;
      nextBtnDisabled := false;
    }

    /** nextQuestion: move to the following question, or end the quiz after
        the last one. */
    method NextQuestion()
      requires Valid() && isQuizActive && !nextBtnDisabled
      modifies this`currentQuestionIndex, this`answerSubmitted, this`nextBtnDisabled, this`isQuizActive
      ensures Valid()
      ensures old(currentQuestionIndex) < |quizQuestions| - 1 ==>
        currentQuestionIndex == old(currentQuestionIndex) + 1 && !answerSubmitted && nextBtnDisabled && isQuizActive
      ensures old(currentQuestionIndex) >= |quizQuestions| - 1 ==>
        && currentQuestionIndex == old(currentQuestionIndex) && !isQuizActive
        && answerSubmitted == old(answerSubmitted) && nextBtnDisabled == old(nextBtnDisabled)
    {
      if currentQuestionIndex < |quizQuestions| - 1 {
        currentQuestionIndex := currentQuestionIndex + 1;
        answerSubmitted := false;
        nextBtnDisabled := true;
        RenderQuestion();
      } else {
        var _ := EndQuiz();
      }
    }

    /** retryMistakes: nothing happens without mistakes; otherwise a new
        session over the missed questions, in the order they were missed. */
    method RetryMistakes(coins: seq<bool>) returns (started: bool)
      requires Valid() && |coins| == |mistakes|
      modifies this
      ensures Valid()
      ensures started == (old(mistakes) != [])
      ensures !started ==> unchanged(this)
      ensures started ==>
        && quizQuestions == RetryQuestions(old(mistakes), old(quizMode), coins)
        && quizMode == old(quizMode) && totalQuestions == |old(mistakes)|
        && currentQuestionIndex == 0 && score == 0 && mistakes == [] && !answerSubmitted && isQuizActive
      ensures currentVocab == old(currentVocab)
    {
      if |mistakes| == 0 {
        return false;
      }
      var mistakeQuestions := RetryQuestions(mistakes, quizMode, coins);
      StartQuiz(quizMode, Some(mistakeQuestions), [], []);
      started := true;
    }

    /** playAgain: a fresh quiz over the whole vocabulary in the same mode. */
    method PlayAgain(shuffled: seq<Entry>, coins: seq<bool>)
      requires Valid() && multiset(shuffled) == multiset(vocab) && |coins| == |vocab|
      modifies this
      ensures Valid()
      ensures quizQuestions == GenerateQuestions(vocab, old(quizMode), shuffled, coins)
      ensures quizMode == old(quizMode) && totalQuestions == |vocab|
      ensures currentQuestionIndex == 0 && score == 0 && mistakes == [] && !answerSubmitted
      ensures isQuizActive
      ensures currentVocab == old(currentVocab)
    {
      StartQuiz(quizMode, None, shuffled, coins);
    }

    /** filterAndSortDictionary: list the entries matching the search box, A-Z. */
    method FilterAndSortDictionary(searchValue: string, ops: TextOps)
      requires Valid() && TotalPreorder(ops.leq)
      modifies this`currentVocab
      ensures Valid()
      ensures currentVocab == FilterAndSort(vocab, searchValue, ops)
      ensures SortedByEn(currentVocab, ops.leq)
    {
      FilterAndSortSpec(vocab, searchValue, ops);
      currentVocab := FilterAndSort(vocab, searchValue, ops);
    }

    /** sortAZ: the listed entries, sorted by the English word. */
    method SortAZ(ops: TextOps)
      requires Valid() && TotalPreorder(ops.leq)
      modifies this`currentVocab
      ensures Valid()
      ensures currentVocab == SortByEn(old(currentVocab), ops.leq)
      ensures multiset(currentVocab) == multiset(old(currentVocab)) && SortedByEn(currentVocab, ops.leq)
    {
      SortByEnSpec(currentVocab, ops.leq);
      currentVocab := SortByEn(currentVocab, ops.leq);
    }
  }
}
