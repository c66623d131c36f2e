// Quiz questions: attaching an answer direction to vocabulary entries
// (generateQuestions, and the re-roll in retryMistakes) and building the
// answer options shown for one question (renderQuestion).

module Questions {
  import opened Vocab
  import opened Shuffle

  /** A question's `type`: RuEn ('ru-en') shows the Russian word and expects
      the English one; EnRu ('en-ru') the other way round. */
  datatype Direction = RuEn | EnRu

  /** The quiz mode: a fixed direction ('ru-en' or 'en-ru') or 'mixed'. */
  datatype Mode = Only(dir: Direction) | Mixed

  /** A vocabulary entry together with the direction it is asked in. */
  datatype Question = Question(entry: Entry, dir: Direction)

  /** The direction a question gets under `mode`; under Mixed, `coin` is the
      outcome of the draw `Math.random() < 0.5`, true meaning 'ru-en'. */
  function DirectionFor(mode: Mode, coin: bool): (r: Direction)
  {
    match mode
    case Only(d) => d
    case Mixed => if coin then RuEn else EnRu
  }

  /** A direction is allowed under `mode` when the mode fixes no other. */
  predicate Fits(mode: Mode, d: Direction)
  {
    mode.Only? ==> d == mode.dir
  }

  lemma DirectionForFits(mode: Mode, coin: bool)
    ensures Fits(mode, DirectionFor(mode, coin))
    ensures mode.Mixed? ==> (DirectionFor(mode, coin) == RuEn <==> coin)
  {
  }

  function Entries(qs: seq<Question>): (r: seq<Entry>)
    ensures |r| == |qs| && forall k :: 0 <= k < |qs| ==> r[k] == qs[k].entry
  {
    seq(|qs|, k requires 0 <= k < |qs| => qs[k].entry)
  }

  /** One question per entry, in order, each with the direction its draw gives. */
  function AssignDirections(entries: seq<Entry>, mode: Mode, coins: seq<bool>): (r: seq<Question>)
    requires |coins| == |entries|
    ensures |r| == |entries|
  {
    if entries == [] then []
    else [Question(entries[0], DirectionFor(mode, coins[0]))] + AssignDirections(entries[1..], mode, coins[1..])
  }

  lemma {:induction false} AssignDirectionsSpec(entries: seq<Entry>, mode: Mode, coins: seq<bool>)
    requires |coins| == |entries|
    ensures Entries(AssignDirections(entries, mode, coins)) == entries
    ensures forall k :: 0 <= k < |entries| ==>
      AssignDirections(entries, mode, coins)[k].dir == DirectionFor(mode, coins[k])
  {
    if entries != [] {
      AssignDirectionsSpec(entries[1..], mode, coins[1..]);
      var r := AssignDirections(entries, mode, coins);
      assert r == [Question(entries[0], DirectionFor(mode, coins[0]))] + AssignDirections(entries[1..], mode, coins[1..]);
      assert Entries(r) == [entries[0]] + entries[1..];
    }
  }

  /** generateQuestions: `shuffled` is the copy of `vocab` after the
      random-comparator sort (some permutation of it); each entry is given
      a direction. */
  function GenerateQuestions(vocab: seq<Entry>, mode: Mode, shuffled: seq<Entry>, coins: seq<bool>): (r: seq<Question>)
    requires multiset(shuffled) == multiset(vocab) && |coins| == |vocab|
    ensures |r| == |vocab|
  {
    assert |shuffled| == |multiset(shuffled)| == |vocab|;
    AssignDirections(shuffled, mode, coins)
  }

  /** One question per entry, none added or dropped, each in a direction the
      mode allows (under Mixed, the one its draw picks). */
  lemma GenerateQuestionsSpec(vocab: seq<Entry>, mode: Mode, shuffled: seq<Entry>, coins: seq<bool>)
    requires multiset(shuffled) == multiset(vocab) && |coins| == |vocab|
    ensures multiset(Entries(GenerateQuestions(vocab, mode, shuffled, coins))) == multiset(vocab)
    ensures forall k :: 0 <= k < |vocab| ==>
      GenerateQuestions(vocab, mode, shuffled, coins)[k].entry == shuffled[k]
    ensures forall k :: 0 <= k < |vocab| ==>
      Fits(mode, GenerateQuestions(vocab, mode, shuffled, coins)[k].dir)
    ensures mode.Mixed? ==> forall k :: 0 <= k < |vocab| ==>
      (GenerateQuestions(vocab, mode, shuffled, coins)[k].dir == RuEn <==> coins[k])
  {
    assert |shuffled| == |multiset(shuffled)| == |vocab|;
    AssignDirectionsSpec(shuffled, mode, coins);
    forall k | 0 <= k < |vocab| ensures Fits(mode, DirectionFor(mode, coins[k])) {
      DirectionForFits(mode, coins[k]);
    }
  }

  /** The questions of a retry round: each missed question's entry, in the
      order the mistakes were made, with its direction drawn again. */
  function RetryQuestions(mistakes: seq<Question>, mode: Mode, coins: seq<bool>): (r: seq<Question>)
    requires |coins| == |mistakes|
    ensures |r| == |mistakes|
  {
    AssignDirections(Entries(mistakes), mode, coins)
  }

  lemma RetryQuestionsSpec(mistakes: seq<Question>, mode: Mode, coins: seq<bool>)
    requires |coins| == |mistakes|
    ensures forall k :: 0 <= k < |mistakes| ==>
      RetryQuestions(mistakes, mode, coins)[k].entry == mistakes[k].entry
    ensures forall k :: 0 <= k < |mistakes| ==>
      Fits(mode, RetryQuestions(mistakes, mode, coins)[k].dir)
    ensures mode.Mixed? ==> forall k :: 0 <= k < |mistakes| ==>
      (RetryQuestions(mistakes, mode, coins)[k].dir == RuEn <==> coins[k])
  {
    AssignDirectionsSpec(Entries(mistakes), mode, coins);
    forall k | 0 <= k < |mistakes| ensures Fits(mode, DirectionFor(mode, coins[k])) {
      DirectionForFits(mode, coins[k]);
    }
  }

  // ---------------------------------------------------------------------
  // Answer options

  /** The field of an entry that answers a question in direction `dir`:
      the English word for 'ru-en', the Russian translation otherwise. */
  function AnswerOf(e: Entry, dir: Direction): (r: string)
  {
    if dir == RuEn then e.en else e.ru
  }

  /** The answer expected for a question. */
  function CorrectAnswer(q: Question): (r: string)
  {
    AnswerOf(q.entry, q.dir)
  }

  /** Every candidate answer in the question's direction, in vocabulary order. */
  function Answers(vocab: seq<Entry>, dir: Direction): (r: seq<string>)
    ensures |r| == |vocab|
    ensures forall k :: 0 <= k < |vocab| ==> r[k] == AnswerOf(vocab[k], dir)
  {
    seq(|vocab|, k requires 0 <= k < |vocab| => AnswerOf(vocab[k], dir))
  }

  /** The candidates that differ from the correct answer, in order. */
  function Without(answers: seq<string>, correct: string): (r: seq<string>)
    ensures |r| <= |answers|
  {
    if answers == [] then []
    else if answers[0] != correct then [answers[0]] + Without(answers[1..], correct)
    else Without(answers[1..], correct)
  }

  lemma {:induction false} WithoutSpec(answers: seq<string>, correct: string)
    ensures forall x :: x in Without(answers, correct) <==> x in answers && x != correct
  {
    if answers != [] {
      WithoutSpec(answers[1..], correct);
      assert answers == [answers[0]] + answers[1..];
    }
  }

  /** Dropping the correct answer only removes occurrences. */
  lemma {:induction false} WithoutSubMultiset(answers: seq<string>, correct: string)
    ensures multiset(Without(answers, correct)) <= multiset(answers)
  {
    if answers != [] {
      WithoutSubMultiset(answers[1..], correct);
      assert answers == [answers[0]] + answers[1..];
    }
  }

  /** No string occurs twice. */
  predicate NoRepeats(s: seq<string>)
  {
    forall i, j :: 0 <= i < j < |s| ==> s[i] != s[j]
  }

  /** Pairwise different elements are the same as no element counted twice. */
  lemma {:induction false} NoRepeatsCounts(s: seq<string>)
    ensures NoRepeats(s) <==> forall x :: multiset(s)[x] <= 1
  {
    if s != [] {
      var t := s[1..];
      assert s == [s[0]] + t;
      assert multiset(s) == multiset{s[0]} + multiset(t);
      NoRepeatsCounts(t);
      if NoRepeats(s) {
        forall i, j | 0 <= i < j < |t| ensures t[i] != t[j] {
          assert t[i] == s[i + 1] && t[j] == s[j + 1];
        }
        forall j | 0 <= j < |t| ensures t[j] != s[0] {
          assert t[j] == s[j + 1];
        }
        assert s[0] !in t;
      }
      if forall x :: multiset(s)[x] <= 1 {
        assert forall x :: multiset(t)[x] <= multiset(s)[x];
        assert multiset(t)[s[0]] == 0;
        forall i, j | 0 <= i < j < |s| ensures s[i] != s[j] {
          if i == 0 {
            assert s[j] == t[j - 1] && s[j] in t;
          } else {
            assert s[i] == t[i - 1] && s[j] == t[j - 1];
          }
        }
      }
    }
  }

  /** The pool the distractors are drawn from. */
  function Distractors(q: Question, vocab: seq<Entry>): (r: seq<string>)
  {
    Without(Answers(vocab, q.dir), CorrectAnswer(q))
  }

  function Min(a: int, b: int): (r: int)
  {
    if a < b then a else b
  }

  /** The options renderQuestion shows: the distractor pool shuffled, its first
      three kept, the correct answer appended, and the four shuffled again. */
  function BuildOptions(q: Question, vocab: seq<Entry>, poolChoices: seq<nat>, finalChoices: seq<nat>): (r: seq<string>)
    requires ValidChoices(poolChoices, |Distractors(q, vocab)|)
    requires ValidChoices(finalChoices, Min(3, |Distractors(q, vocab)|) + 1)
  {
    Shuffled(Picked(q, vocab, poolChoices) + [CorrectAnswer(q)], finalChoices)
  }

  /** The distractors shown: the pool shuffled and its first three kept. */
  function Picked(q: Question, vocab: seq<Entry>, poolChoices: seq<nat>): (r: seq<string>)
    requires ValidChoices(poolChoices, |Distractors(q, vocab)|)
    ensures |r| == Min(3, |Distractors(q, vocab)|)
  {
    var pool := Distractors(q, vocab);
    Shuffled(pool, poolChoices)[..Min(3, |pool|)]
  }

  /** The distractors shown are drawn from the pool, each no more often than it occurs there. */
  lemma PickedFromPool(q: Question, vocab: seq<Entry>, poolChoices: seq<nat>)
    requires ValidChoices(poolChoices, |Distractors(q, vocab)|)
    ensures multiset(Picked(q, vocab, poolChoices)) <= multiset(Distractors(q, vocab))
  {
    var pool := Distractors(q, vocab);
    var mixed := Shuffled(pool, poolChoices);
    var m := Min(3, |pool|);
    ShuffledPermutes(pool, poolChoices);
    assert mixed == mixed[..m] + mixed[m..];
    assert multiset(mixed) == multiset(mixed[..m]) + multiset(mixed[m..]);
  }

  /** The options hold the correct answer exactly once, every other option is
      a candidate answer of the same direction, and there are
      min(3, number of distractors) + 1 of them. */
  lemma BuildOptionsSpec(q: Question, vocab: seq<Entry>, poolChoices: seq<nat>, finalChoices: seq<nat>)
    requires ValidChoices(poolChoices, |Distractors(q, vocab)|)
    requires ValidChoices(finalChoices, Min(3, |Distractors(q, vocab)|) + 1)
    ensures |BuildOptions(q, vocab, poolChoices, finalChoices)| == Min(3, |Distractors(q, vocab)|) + 1
    ensures multiset(BuildOptions(q, vocab, poolChoices, finalChoices))[CorrectAnswer(q)] == 1
    ensures forall o :: o in BuildOptions(q, vocab, poolChoices, finalChoices) && o != CorrectAnswer(q) ==>
      o in Answers(vocab, q.dir)
  {
    var correct := CorrectAnswer(q);
    var pool := Distractors(q, vocab);
    WithoutSpec(Answers(vocab, q.dir), correct);
    ShuffledPermutes(pool, poolChoices);
    var mixed := Shuffled(pool, poolChoices);
    var picked := mixed[..Min(3, |pool|)];
    forall x | x in picked ensures x in pool && x != correct {
      assert x in mixed;
      assert x in multiset(mixed);
    }
    assert correct !in picked;
    var options := picked + [correct];
    ShuffledPermutes(options, finalChoices);
    assert multiset(options) == multiset(picked) + multiset{correct};
    forall o | o in Shuffled(options, finalChoices) && o != correct ensures o in Answers(vocab, q.dir) {
      assert o in multiset(options);
      assert o in picked;
    }
  }

  /** When no two candidate answers coincide, no two options do: the three
      distractors come from different candidates, and none of them is the
      correct answer. */
  lemma BuildOptionsDistinct(q: Question, vocab: seq<Entry>, poolChoices: seq<nat>, finalChoices: seq<nat>)
    requires ValidChoices(poolChoices, |Distractors(q, vocab)|)
    requires ValidChoices(finalChoices, Min(3, |Distractors(q, vocab)|) + 1)
    requires NoRepeats(Answers(vocab, q.dir))
    ensures NoRepeats(BuildOptions(q, vocab, poolChoices, finalChoices))
  {
    var answers := Answers(vocab, q.dir);
    var correct := CorrectAnswer(q);
    var pool := Distractors(q, vocab);
    var picked := Picked(q, vocab, poolChoices);
    NoRepeatsCounts(answers);
    WithoutSubMultiset(answers, correct);
    WithoutSpec(answers, correct);
    PickedFromPool(q, vocab, poolChoices);
    assert correct !in pool;
    var options := picked + [correct];
    assert multiset(options) == multiset(picked) + multiset{correct};
    forall x ensures multiset(options)[x] <= 1 {
      assert multiset(picked)[x] <= multiset(pool)[x] <= multiset(answers)[x];
    }
    ShuffledPermutes(options, finalChoices);
    NoRepeatsCounts(Shuffled(options, finalChoices));
  }

  lemma ThreeDistinct(t: seq<string>, x: string, y: string, z: string)
    requires x in t && y in t && z in t
    requires x != y && y != z && x != z
    ensures |t| >= 3
  {
    var i :| 0 <= i < |t| && t[i] == x;
    var j :| 0 <= j < |t| && t[j] == y;
    var l :| 0 <= l < |t| && t[l] == z;
  }

  /** Whatever the correct answer, a vocabulary with four entries whose
      answers differ pairwise leaves at least three distractors. */
  lemma PoolOfFourDistinct(vocab: seq<Entry>, dir: Direction, correct: string, i: nat, j: nat, k: nat, l: nat)
    requires i < |vocab| && j < |vocab| && k < |vocab| && l < |vocab|
    requires AnswerOf(vocab[i], dir) != AnswerOf(vocab[j], dir) && AnswerOf(vocab[i], dir) != AnswerOf(vocab[k], dir)
    requires AnswerOf(vocab[i], dir) != AnswerOf(vocab[l], dir) && AnswerOf(vocab[j], dir) != AnswerOf(vocab[k], dir)
    requires AnswerOf(vocab[j], dir) != AnswerOf(vocab[l], dir) && AnswerOf(vocab[k], dir) != AnswerOf(vocab[l], dir)
    ensures |Without(Answers(vocab, dir), correct)| >= 3
  {
    var answers := Answers(vocab, dir);
    WithoutSpec(answers, correct);
    var w := Without(answers, correct);
    var a, b, c, d := answers[i], answers[j], answers[k], answers[l];
    if correct == a { ThreeDistinct(w, b, c, d); }
    else if correct == b { ThreeDistinct(w, a, c, d); }
    else { ThreeDistinct(w, a, b, if correct == c then d else c); }
  }

  /** Over the shipped vocabulary every question has at least three
      distractors: its first four answers in either direction differ. */
  lemma VocabPoolSize(q: Question)
    ensures |Distractors(q, VOCAB)| >= 3
  {
    VocabSize();
    VocabAnswersDistinct(q.dir);
    PoolOfFourDistinct(VOCAB, q.dir, CorrectAnswer(q), 0, 1, 2, 3);
  }

  /** The shipped vocabulary has no repeated candidate answer in either direction. */
  lemma VocabAnswersDistinct(dir: Direction)
    ensures NoRepeats(Answers(VOCAB, dir))
  {
    if dir == RuEn {
      EnglishWordsDistinct();
    } else {
      RussianWordsDistinct();
    }
  }

  /** Over the shipped vocabulary every question gets exactly four options,
      no two of them alike. */
  lemma VocabHasFourOptions(q: Question, poolChoices: seq<nat>, finalChoices: seq<nat>)
    requires ValidChoices(poolChoices, |Distractors(q, VOCAB)|)
    requires ValidChoices(finalChoices, Min(3, |Distractors(q, VOCAB)|) + 1)
    ensures |BuildOptions(q, VOCAB, poolChoices, finalChoices)| == 4
    ensures NoRepeats(BuildOptions(q, VOCAB, poolChoices, finalChoices))
  {
    VocabPoolSize(q);
    BuildOptionsSpec(q, VOCAB, poolChoices, finalChoices);
    VocabAnswersDistinct(q.dir);
    BuildOptionsDistinct(q, VOCAB, poolChoices, finalChoices);
  }
}
