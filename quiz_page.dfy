/** The quiz page: scoring a set of answers, the reward by attempt, and the
    page's intro / question / result navigation. */
module QuizPage {
  import opened Wrappers
  import opened Seqs
  import opened Rounding

  datatype QuizOption = QuizOption(id: string, text: string)

  datatype QuizQuestion = QuizQuestion(id: string, text: string, options: seq<QuizOption>, correctOptionIds: seq<string>)

  datatype RewardConfig = RewardConfig(firstAttempt: int, secondAttempt: int, thirdAttempt: int, fourthPlusAttempt: int)

  datatype Quiz = Quiz(id: string, lessonId: string, title: string, questions: seq<QuizQuestion>, rewardConfig: RewardConfig)

  datatype QuizState = Intro | Question | Result

  /** The options picked for a question: `selectedAnswers[id] || []`. */
  function Selection(answers: map<string, seq<string>>, questionId: string): seq<string>
  {
    if questionId in answers then answers[questionId] else []
  }

  /** A question scores when as many options are picked as are correct and
      every picked option is a correct one. */
  predicate AnsweredCorrectly(q: QuizQuestion, answers: map<string, seq<string>>)
  {
    var selected := Selection(answers, q.id);
    |selected| == |q.correctOptionIds| && forall i :: 0 <= i < |selected| ==> selected[i] in q.correctOptionIds
  }

  function CorrectlyAnswered(answers: map<string, seq<string>>): QuizQuestion -> bool
  {
    (q: QuizQuestion) => AnsweredCorrectly(q, answers)
  }

  /** The number of questions that score. */
  function Score(questions: seq<QuizQuestion>, answers: map<string, seq<string>>): nat
  {
    Count(questions, CorrectlyAnswered(answers))
  }

  /** `calculateScore`: the loop that counts the scoring questions. */
  method CalculateScore(questions: seq<QuizQuestion>, answers: map<string, seq<string>>) returns (correct: nat)
    ensures correct == Score(questions, answers)
    ensures correct <= |questions|
  {
    correct := 0;
    var i := 0;
    while i < |questions|
      invariant 0 <= i <= |questions|
      invariant correct == Count(questions[..i], CorrectlyAnswered(answers))
    {
      FilterSnoc(questions, i, CorrectlyAnswered(answers));
      if AnsweredCorrectly(questions[i], answers) {
        correct := correct + 1;
      }
      i := i + 1;
    }
    assert questions[..i] == questions;
  }

  /** The page's selections hold one option each. */
  predicate SingleSelections(answers: map<string, seq<string>>)
  {
    forall k :: k in answers ==> |answers[k]| == 1
  }

  predicate HasSeveralCorrect(q: QuizQuestion)
  {
    |q.correctOptionIds| >= 2
  }

  predicate HasOneCorrect(q: QuizQuestion)
  {
    |q.correctOptionIds| == 1
  }

  function AtMostOneCorrect(): QuizQuestion -> bool
  {
    (q: QuizQuestion) => |q.correctOptionIds| <= 1
  }

  /** With one option per selection, a question with one correct option
      scores exactly when that option is the one picked, and a question with
      several never scores. */
  lemma SingleSelectionScoring(q: QuizQuestion, answers: map<string, seq<string>>)
    requires SingleSelections(answers)
    ensures HasSeveralCorrect(q) ==> !AnsweredCorrectly(q, answers)
    ensures HasOneCorrect(q) ==> (AnsweredCorrectly(q, answers) <==> q.id in answers && answers[q.id] == q.correctOptionIds)
  {
    if HasOneCorrect(q) && q.id in answers && AnsweredCorrectly(q, answers) {
      assert answers[q.id][0] in q.correctOptionIds;
    }
  }

  /** Hence the score never exceeds the number of questions with at most one
      correct option (one with none scores while it has no selection). */
  lemma ScoreAtMostSingleAnswerQuestions(questions: seq<QuizQuestion>, answers: map<string, seq<string>>)
    requires SingleSelections(answers)
    ensures Score(questions, answers) <= Count(questions, AtMostOneCorrect())
  {
    forall i | 0 <= i < |questions| && AnsweredCorrectly(questions[i], answers)
      ensures |questions[i].correctOptionIds| <= 1 {
      SingleSelectionScoring(questions[i], answers);
    }
    CountMono(questions, CorrectlyAnswered(answers), AtMostOneCorrect());
  }

  /** `percentage >= 50` with `percentage = (score / total) * 100`; over no
      questions the percentage is NaN, which compares false. */
  predicate Passed(score: int, total: int)
  {
    total > 0 && score as real / total as real * 100.0 >= 50.0
  }

  lemma PassedIff(score: int, total: int)
    ensures Passed(score, total) <==> total > 0 && 2 * score >= total
  {
    if total > 0 {
      var t := total as real;
      var x := score as real / t;
      HalfIff(x, t, score as real);
    }
  }

  /** For a ratio `x = s / t`, `x * 100 >= 50` exactly when `2 * s >= t`. */
  lemma HalfIff(x: real, t: real, s: real)
    requires t > 0.0 && x * t == s
    ensures x * 100.0 >= 50.0 <==> 2.0 * s >= t
  {
    assert (x - 0.5) * t == s - 0.5 * t;
    if x >= 0.5 {
      assert (x - 0.5) * t >= 0.0;
    } else {
      assert (0.5 - x) * t > 0.0;
    }
  }

  /** `getPointsEarned`: nothing below 50%, otherwise the reward of the
      attempt, the fourth-plus reward from the fourth attempt on. */
  function PointsEarned(score: int, total: int, attempt: int, reward: RewardConfig): (r: int)
    ensures total > 0 && 2 * score < total ==> r == 0
    ensures !(total > 0 && 2 * score < total) ==>
      r == (if attempt == 1 then reward.firstAttempt
            else if attempt == 2 then reward.secondAttempt
            else if attempt == 3 then reward.thirdAttempt
            else reward.fourthPlusAttempt)
  {
    PassedIff(score, total);
    if total > 0 && score as real / total as real * 100.0 < 50.0 then 0
    else if attempt == 1 then reward.firstAttempt
    else if attempt == 2 then reward.secondAttempt
    else if attempt == 3 then reward.thirdAttempt
    else reward.fourthPlusAttempt
  }

  /** The page never counts attempts: the attempt number stays 1. */
  const AttemptNumber: int := 1

  /** So a passing submit always earns the first-attempt reward. */
  lemma PassingEarnsFirstAttempt(score: int, total: int, reward: RewardConfig)
    requires total > 0 && 2 * score >= total
    ensures PointsEarned(score, total, AttemptNumber, reward) == reward.firstAttempt
  {
  }

  /** The points a submit adds: the reward, only when passing and positive. */
  function PointsAdded(score: int, total: int, reward: RewardConfig): int
  {
    var earned := PointsEarned(score, total, AttemptNumber, reward);
    if Passed(score, total) && earned > 0 then earned else 0
  }

  /** A submit adds the first-attempt reward when passing with a positive
      reward and nothing otherwise. */
  lemma PointsAddedValue(score: int, total: int, reward: RewardConfig)
    ensures PointsAdded(score, total, reward) ==
      (if total > 0 && 2 * score >= total && reward.firstAttempt > 0 then reward.firstAttempt else 0)
  {
    PassedIff(score, total);
  }

  /** The result view's "Congratulations!" banner: unlike the award on
      submit, it rounds the percentage with `Math.round` before the `>= 50`
      test. With no questions the percentage is NaN and the test fails. */
  predicate ShownPassing(score: int, total: int)
  {
    total > 0 && RoundHalfUp(score as real / total as real * 100.0) >= 50
  }

  /** The banner congratulates exactly from 49.5% on. */
  lemma ShownPassingIff(score: int, total: int)
    ensures ShownPassing(score, total) <==> total > 0 && 200 * score >= 99 * total
  {
    if total > 0 {
      var t := total as real;
      var x := score as real / t;
      RoundsToAtLeast(x * 100.0, 50);
      RatioAtLeast(score as real, t, 0.495);
      assert x * 100.0 >= 49.5 <==> x >= 0.495;
      assert score as real >= 0.495 * t <==> 200 * score >= 99 * total;
    }
  }

  /** `Math.round(y)` reaches `n` exactly when `y` reaches `n - ½`. */
  lemma RoundsToAtLeast(y: real, n: int)
    ensures RoundHalfUp(y) >= n <==> y >= n as real - 0.5
  {
  }

  /** For `t > 0`, `s / t` reaches `c` exactly when `s` reaches `c * t`. */
  lemma RatioAtLeast(s: real, t: real, c: real)
    requires t > 0.0
    ensures s / t >= c <==> s >= c * t
  {
    var x := s / t;
    assert x * t == s;
    if x >= c {
      assert (x - c) * t >= 0.0;
    } else {
      assert (c - x) * t > 0.0;
    }
  }

  /** At 99 of 200 the banner congratulates while the submit awarded
      nothing: 49.5% rounds to 50 for the banner only. */
  lemma BannerPassesWithoutAward(reward: RewardConfig)
    ensures ShownPassing(99, 200) && !Passed(99, 200)
    ensures PointsAdded(99, 200, reward) == 0
  {
    ShownPassingIff(99, 200);
    PassedIff(99, 200);
  }

  /** The page state of one quiz. */
  class QuizSession {
    const quiz: Quiz
    var state: QuizState
    var index: int
    var answers: map<string, seq<string>>
    var currentPoints: int
    var pointsJustEarned: int
    var showPointsPopup: bool

    /** The index stays on a question and each selection holds one option. */
    predicate Valid()
      reads this
    {
      0 <= index < |quiz.questions| && SingleSelections(answers)
    }

    /** The page opens on the intro with no answers; the points start from
        the user's total, 0 when there is none. */
    constructor (quiz: Quiz, userPoints: Option<int>)
      requires |quiz.questions| > 0
      ensures this.quiz == quiz && Valid()
      ensures state == Intro && index == 0 && answers == map[]
      ensures currentPoints == (if userPoints.Some? then userPoints.value else 0)
      ensures pointsJustEarned == 0 && !showPointsPopup
    {
      this.quiz := quiz;
      state := Intro;
      index := 0;
      answers := map[];
      currentPoints := if userPoints.Some? then userPoints.value else 0;
      pointsJustEarned := 0;
      showPointsPopup := false;
    }

    /** The intro's start button. */
    method Start()
      requires Valid()
      modifies this
      ensures Valid() && state == Question
      ensures index == old(index) && answers == old(answers) && currentPoints == old(currentPoints)
      ensures pointsJustEarned == old(pointsJustEarned) && showPointsPopup == old(showPointsPopup)
    {
      state := Question;
    }

    /** `handleSelectOption`: the current question's selection becomes the
        one option picked. */
    method SelectOption(optionId: string)
      requires Valid()
      modifies this
      ensures Valid()
      ensures answers == old(answers)[quiz.questions[index].id := [optionId]]
      ensures state == old(state) && index == old(index) && currentPoints == old(currentPoints)
      ensures pointsJustEarned == old(pointsJustEarned) && showPointsPopup == old(showPointsPopup)
    {
      answers := answers[quiz.questions[index].id := [optionId]];
    }

    /** The Next / Submit button is enabled once the current question has a
        selection. */
    predicate CanGoNext()
      reads this
      requires Valid()
    {
      |Selection(answers, quiz.questions[index].id)| > 0
    }

    /** `handleNext`: the next question below the last one; on the last, the
        result view, with the points added when the quiz is passed. */
    method Next()
      requires Valid()
      modifies this
      ensures Valid() && answers == old(answers)
      ensures old(index) < |quiz.questions| - 1 ==>
        index == old(index) + 1 && state == old(state) && currentPoints == old(currentPoints)
        && pointsJustEarned == old(pointsJustEarned) && showPointsPopup == old(showPointsPopup)
      ensures old(index) == |quiz.questions| - 1 ==>
        index == old(index) && state == Result
        && currentPoints == old(currentPoints) + PointsAdded(Score(quiz.questions, answers), |quiz.questions|, quiz.rewardConfig)
        && (PointsAdded(Score(quiz.questions, answers), |quiz.questions|, quiz.rewardConfig) > 0 ==>
              showPointsPopup && pointsJustEarned == PointsAdded(Score(quiz.questions, answers), |quiz.questions|, quiz.rewardConfig))
        && (PointsAdded(Score(quiz.questions, answers), |quiz.questions|, quiz.rewardConfig) == 0 ==>
              showPointsPopup == old(showPointsPopup) && pointsJustEarned == old(pointsJustEarned))
    {
      var total := |quiz.questions|;
      if index < total - 1 {
        index := index + 1;
      } else {
        state := Result;
        var score := CalculateScore(quiz.questions, answers);
        var earned := PointsEarned(score, total, AttemptNumber, quiz.rewardConfig);
        if score as real / total as real * 100.0 >= 50.0 && earned > 0 {
          pointsJustEarned := earned;
          showPointsPopup := true;
          currentPoints := currentPoints + earned;
        }
      }
    }

    /** `handlePrevious`: one question back, never before the first. */
    method Previous()
      requires Valid()
      modifies this
      ensures Valid() && answers == old(answers) && state == old(state)
      ensures index == (if old(index) > 0 then old(index) - 1 else old(index))
      ensures currentPoints == old(currentPoints)
      ensures pointsJustEarned == old(pointsJustEarned) && showPointsPopup == old(showPointsPopup)
    {
      if index > 0 {
        index := index - 1;
      }
    }

    /** Try Again: back to the intro, on the first question, with no answers. */
    method TryAgain()
      requires Valid()
      modifies this
      ensures Valid() && state == Intro && index == 0 && answers == map[]
      ensures currentPoints == old(currentPoints)
      ensures pointsJustEarned == old(pointsJustEarned) && showPointsPopup == old(showPointsPopup)
    {
      state := Intro;
      index := 0;
      answers := map[];
    }
  }
}
