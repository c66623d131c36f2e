# YardWords quiz engine in Dafny

YardWords is a single-page vocabulary widget: a dictionary of 33 yard words
(English word, IPA transcription, Russian translation) that can be searched
and sorted, and a multiple-choice quiz over them in three modes (Russian to
English, English to Russian, mixed). This project models the engine behind
it in `app.js`, with the page, the speech synthesiser and the theme switch
taken away:

- `vocab.dfy` (module `Vocab`): the word entry and the built-in word list
  `VOCAB`, entry for entry.
- `shuffle.dfy` (module `Shuffle`): `shuffleArray`, the in-place
  Fisher-Yates loop, as a method on an `array`. It is proved against
  `Shuffled`, a function that performs the same swaps on a sequence, and
  `Shuffled` is proved to be a permutation for every sequence of draws.
- `questions.dfy` (module `Questions`): question generation
  (`generateQuestions`), the questions of a retry round (`retryMistakes`), and
  the four answer buttons built in `renderQuestion`.
- `dictionary.dfy` (module `Dictionary`): the search filter and the A-Z sort
  of the dictionary list (`filterAndSortDictionary`, `sortAZ`).
- `quiz_app.dfy` (module `QuizApp`): the global `state` object as the class
  `AppState`, and the handlers that update it in place. The invariant
  `Valid()` holds between handlers. It says six things:
  - the word list is not empty (it is `VOCAB`, fixed by the constructor);
  - the question count is the length of the list;
  - with no questions the index is 0 and nothing is answered; otherwise the
    index stays below the length;
  - an active quiz has questions, and during it the Next button is enabled
    exactly when the current question has been answered;
  - `score + |mistakes|` is the number of questions answered so far;
  - every mistake is a question of the session.
- `scenarios.dfy` (module `Scenarios`): clients of `AppState` that use only
  the contracts of its methods. One round has four questions, and the first
  is answered wrongly. The round ends at 3 of 4 (75%), and the retry round
  asks exactly the missed word.

Randomness is an input:
- `Math.floor(Math.random() * (i + 1))` in `shuffleArray` is `choices[i]`,
  with `choices[i] <= i`.
- The "sort with a random comparator" in `generateQuestions` yields some
  reordering of the vocabulary. Here the caller supplies it as `shuffled`,
  required to have the same multiset of entries.
- Each `Math.random() < 0.5` of the mixed mode is a boolean coin; `true`
  means Russian to English.

`toLowerCase`, `trim` and `localeCompare` are the fields of a `TextOps`
value. The sort's comparator is required to be a total preorder.

Behaviour of `app.js` that the model keeps:
- distractors are not de-duplicated: for any word list the model proves that
  the correct answer appears exactly once; that all four options differ is
  proved for the built-in list, whose English words and Russian translations
  are all distinct;
- the question order of `generateQuestions` comes from a sort with a random
  comparator (app.js:218), not from a uniform shuffle; the option orders come
  from `shuffleArray` with the draws as parameters; the model claims nothing
  about either distribution;
- with no mistakes, retrying shows an alert and changes no state (no error
  value);
- a retry round keeps the order in which the mistakes were made.

One place where the model departs from `app.js`: the percentage is not
guarded against a question count of zero; the model returns `None` there,
where the code produces NaN (see "## Left out").

## Model

| member | source | states |
|---|---|---|
| Vocab.VocabSize | app.js:11-46 | the built-in word list has 33 entries |
| Shuffle.ShuffleArray | app.js:377-383 | afterwards the array holds `Shuffled(old contents, choices)`: from the last index down to 1, position i is swapped with the drawn `choices[i] <= i`; the multiset of elements is unchanged |
| Shuffle.SwapPermutes | app.js:380 | exchanging two positions keeps the length and the multiset of elements |
| Shuffle.ShuffledPermutes | app.js:377-383 | for every sequence of draws with `j <= i`, the shuffled sequence is a permutation of the input |
| Shuffle.IdentityDrawsKeepOrder | app.js:378-381 | when every draw equals its own index, every swap is a no-op and the order is kept |
| Questions.DirectionForFits | app.js:221-225 | a fixed mode gives its own direction; in mixed mode a coin below one half gives Russian to English, otherwise English to Russian |
| Questions.AssignDirectionsSpec | app.js:219-230 | one question per entry, the entries unchanged and in order, question k directed as coin k and the mode decide |
| Questions.GenerateQuestionsSpec | app.js:216-231 | one question per vocabulary entry: the entries of the questions are exactly the vocabulary (same multiset), in the shuffled order; each direction fits the mode; in mixed mode the direction is Russian to English exactly when its coin says so |
| Questions.RetryQuestionsSpec | app.js:355-359 | the retry round has one question per mistake, the same entries in the same order, directions fixed by the quiz mode or rerolled in mixed mode |
| Questions.WithoutSpec | app.js:253 | the distractor pool holds exactly the candidate answers that differ from the correct one |
| Questions.BuildOptionsSpec | app.js:244-257 | the options are `min(3, pool size) + 1` strings; the correct answer (English for Russian to English, Russian otherwise) occurs exactly once; every other option is a candidate answer of the same language |
| Questions.PoolOfFourDistinct | app.js:244-253 | four entries with pairwise different answers leave at least three distractors, whatever the correct answer |
| Questions.VocabPoolSize | app.js:11-46 | for every question, the built-in word list leaves at least three distractors |
| Questions.BuildOptionsDistinct | app.js:244-257 | when no two candidate answers coincide, no two options do: the three distractors come from different candidates and none equals the correct answer |
| Questions.VocabAnswersDistinct | app.js:13-45 | in the built-in word list no two entries share an English word, and no two share a Russian translation |
| Questions.VocabHasFourOptions | app.js:247-257 | over the built-in word list every question gets exactly four options, pairwise different |
| Dictionary.IncludesAt | app.js:163-164 | the substring test holds exactly when the search term occurs at some position of the text |
| Dictionary.FilterSpec | app.js:161-165 | the filter keeps each entry whose lowercased English or Russian contains the lowercased, trimmed term, as often as it occurs in the list, and drops all others |
| Dictionary.SortByEnSpec | app.js:171 | sorting by the English word under the comparator gives a permutation of its input, in ascending order |
| Dictionary.FilterAndSortSpec | app.js:160-172 | the dictionary list after a search has exactly the matching entries (none added, none dropped, multiplicities kept), sorted by the English word |
| QuizApp.Percentage | app.js:325 | the whole number nearest to `100 * score / total`, halves rounded up |
| QuizApp.AppState.constructor | app.js:49-62 | the initial state: no session, mode Russian to English, score 0, the dictionary listing the whole vocabulary, and `Valid()` |
| QuizApp.AppState.ScoreBounded | app.js:293-300 | in any valid state the score plus the mistakes never exceed the number of questions |
| QuizApp.AppState.EndQuiz | app.js:320-327 | the session is no longer active; the percentage is `Percentage(score, total)`, or `None` when there are no questions |
| QuizApp.AppState.RenderQuestion | app.js:233-272 | past the last question the quiz ends; otherwise the question awaits an answer with Next disabled |
| QuizApp.AppState.StartQuiz | app.js:187-214 | the questions are the given list or `GenerateQuestions` over the vocabulary; mode set, index, score and mistakes reset, count = length; active exactly when there are questions (an empty list ends at once and leaves the Next button as it was); the dictionary list is kept; `Valid()` is kept |
| QuizApp.AppState.HandleOptionClick | app.js:275-305 | the first answer marks the question answered and enables Next; a right answer adds 1 to the score and leaves the mistakes alone; a wrong one appends exactly the current question to the mistakes and leaves the score alone; a repeated click changes nothing; `Valid()` is kept |
| QuizApp.AppState.NextQuestion | app.js:307-318 | before the last question the index goes up by exactly one and the new question awaits an answer; at the last one the quiz ends with the index, the answered flag and the Next button unchanged; `Valid()` is kept |
| QuizApp.AppState.RetryMistakes | app.js:350-361 | with no mistakes nothing changes and no session starts; otherwise a new active session over `RetryQuestions(mistakes, mode)` with score 0 and no mistakes, in the same mode; the dictionary list is kept |
| QuizApp.AppState.PlayAgain | app.js:364-366 | a new, active session over the whole vocabulary in the current mode, with score, index and mistakes reset; the dictionary list is kept |
| QuizApp.AppState.FilterAndSortDictionary | app.js:160-174 | the dictionary list becomes the filtered vocabulary sorted by the English word (see `FilterAndSortSpec`), and it is sorted |
| QuizApp.AppState.SortAZ | app.js:176-179 | the dictionary list is reordered by the English word: the same entries, sorted |

## Left out

- The page itself: rendering the dictionary and the question, button
  styling, the score and progress display, the quiz header and the event
  wiring (app.js:119-143, 242-244, 259-267, 283-290, 329-347, 386-411). The
  disabled state of the Next button is kept as the field `nextBtnDisabled`.
- Speech synthesis, `alert` and the light/dark theme kept in `localStorage`
  (app.js:99-117, 146-157, 352): they are browser calls outside the engine.
- `Math.random`: the draws, the random-comparator orders and the mixed-mode
  coins are parameters, and nothing is claimed about their distribution.
- `sortRandom` and `backToDictionary` (app.js:181-184, 369-374): the first is
  a random reordering of the dictionary list, the second only re-renders it.
- `selectedOption` is reset but never read; `originalQuizQuestions` is
  declared (app.js:61) but never read or written; `currentTheme` belongs to
  the theme switch. None of them is modelled.
- `TextOps`: the Unicode behaviour of `toLowerCase`, `trim` and
  `localeCompare` is abstract. The sort is proved for any comparator that is
  a total preorder. Stability is not stated, and neither is the order of
  entries that compare equal.
- Shuffle.ShuffleArray: the source returns the same array object it was
  given; the model modifies the array in place and returns nothing, so the
  caller's alias is not modelled.
- Questions.BuildOptions: options are built on sequences with
  `Shuffled`, the specification of the array method, rather than by calling
  the array method on a fresh copy.
- Questions.BuildOptionsDistinct: for a word list in which two entries share
  an answer, the options can repeat a string, as in the source, which does
  not remove duplicate answers; distinct options are proved only when the
  candidates are distinct.
- QuizApp.Percentage: exact integer arithmetic stands in for the source's
  floating-point `score / total * 100`, which can land just below a half and
  round down where the exact value rounds up.
- QuizApp.AppState.EndQuiz: for zero questions the source computes NaN; the
  model returns `None` instead.
- QuizApp.AppState.HandleOptionClick: the question and its correct answer
  are the ones the click handler captured in `renderQuestion`. In the model
  they are the current question of the state, which is the same object
  while the question is shown. The precondition that the quiz is active
  stands for the option buttons being visible only during a quiz.
- QuizApp.AppState.NextQuestion: the precondition that Next is enabled
  stands for the button's disabled state; the source function itself does
  not check whether the question was answered. The precondition that the
  quiz is active leaves out pressing Next after the quiz has ended; there
  the source only calls `endQuiz` again (app.js:308, 316), which changes
  nothing in the quiz state.
- The progress bar width (app.js:344-347) is floating-point display and
  is not modelled.
