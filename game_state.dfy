/**
 * The stage game's state hook as an object: the profile, the current question
 * and its choices, the question number, the status and the last wrong guess.
 * Each `setTimeout` callback becomes an entry of `pending` that a separate
 * "timer fires" step runs; the model lets pending callbacks run in any order,
 * which includes the order their fixed delays give them.
 */
module GameState {
  import opened Wrappers
  import opened Constants
  import opened Questions
  import opened Profile

  datatype GameStatus = Playing | Answering | StageCleared

  /** A scheduled callback that has not run yet. */
  datatype Timer =
    | AdvanceTimer(numberWhenScheduled: int)  // after a correct answer; keeps the questionNumber its closure saw
    | ClearIncorrectTimer                     // after a wrong answer

  /** The random draws one call of `generateQuestion` consumes. */
  datatype Randomness = Randomness(draw: QuestionDraw, offsets: seq<int>)

  /** Draws within their ranges, and an offset stream on which the choice loop ends. */
  predicate Usable(rnd: Randomness) {
    ValidDraw(rnd.draw) && OffsetsFill(GenerateQuestion(rnd.draw).answer, rnd.offsets)
  }

  /** Every in-range question draw can be completed to usable randomness. */
  lemma UsableRandomnessExists(d: QuestionDraw)
    requires ValidDraw(d)
    ensures exists offsets :: Usable(Randomness(d, offsets))
  {
    GeneratedQuestionsHaveChoices(d);
    var offsets :| OffsetsFill(GenerateQuestion(d).answer, offsets);
    assert Usable(Randomness(d, offsets));
  }

  class GameEngine {
    var character: Character
    var question: Question
    var choices: seq<int>
    var questionNumber: int
    var gameStatus: GameStatus
    var incorrectAnswer: Option<int>
    var pending: seq<Timer>

    /**
     * The question is one the generator can produce and the choices fit it;
     * while a correct answer is being shown, its advance callback is pending.
     */
    ghost predicate Valid()
      reads this
    {
      && IsQuestion(question)
      && ChoiceList(question.answer, choices)
      && (gameStatus == Answering ==> AdvanceTimer(questionNumber) in pending)
    }

    /** Mounting the hook: the initial state, then the load effect, then the first question. */
    constructor (saved: SavedCharacter, savedNumber: Option<int>, rnd: Randomness)
      requires Usable(rnd)
      ensures Valid()
      ensures character == LoadCharacter(saved)
      ensures questionNumber == LoadQuestionNumber(saved, savedNumber)
      ensures question == GenerateQuestion(rnd.draw)
      ensures gameStatus == Playing && incorrectAnswer == None && pending == []
    {
      character := LoadCharacter(saved);
      questionNumber := LoadQuestionNumber(saved, savedNumber);
      var q := GenerateQuestion(rnd.draw);
      var c, used := GenerateChoices(q.answer, rnd.offsets);
      question, choices := q, c;
      gameStatus := Playing;
      incorrectAnswer := None;
      pending := [];
    }

    /** `generateQuestion`: a fresh question and its choices; nothing else changes. */
    method NextQuestion(rnd: Randomness)
      requires Usable(rnd)
      modifies this
      ensures question == GenerateQuestion(rnd.draw)
      ensures IsQuestion(question) && ChoiceList(question.answer, choices)
      ensures character == old(character) && questionNumber == old(questionNumber)
      ensures gameStatus == old(gameStatus) && incorrectAnswer == old(incorrectAnswer) && pending == old(pending)
    {
      question := GenerateQuestion(rnd.draw);
      var used;
      choices, used := GenerateChoices(question.answer, rnd.offsets);
    }

    /**
     * `handleAnswer`: ignored unless playing; a correct answer shows feedback
     * and schedules the advance, a wrong one is recorded and scheduled to clear.
     */
    method HandleAnswer(selected: int)
      requires Valid()
      modifies this
      ensures Valid()
      ensures old(gameStatus) != Playing ==> unchanged(this)
      ensures character == old(character) && question == old(question) && choices == old(choices)
      ensures questionNumber == old(questionNumber)
      ensures old(gameStatus) == Playing && selected == question.answer ==>
        && gameStatus == Answering
        && incorrectAnswer == old(incorrectAnswer)
        && pending == old(pending) + [AdvanceTimer(questionNumber)]
      ensures old(gameStatus) == Playing && selected != question.answer ==>
        && gameStatus == Playing
        && incorrectAnswer == Some(selected)
        && pending == old(pending) + [ClearIncorrectTimer]
    {
      if gameStatus != Playing {
        return;
      }
      if selected == question.answer {
        gameStatus := Answering;
        pending := pending + [AdvanceTimer(questionNumber)];
      } else {
        incorrectAnswer := Some(selected);
        pending := pending + [ClearIncorrectTimer];
      }
    }

    /**
     * The correct-answer callback runs: the question number its closure saw
     * decides between clearing the stage and moving to the next question.
     */
    method FireAdvanceTimer(i: nat, rnd: Randomness)
      requires Valid() && i < |pending| && pending[i].AdvanceTimer? && Usable(rnd)
      modifies this
      ensures Valid()
      ensures pending == old(pending[..i] + pending[i + 1..])
      ensures character == old(character) && incorrectAnswer == old(incorrectAnswer)
      ensures old(pending[i].numberWhenScheduled) == QuestionsPerStage ==>
        && gameStatus == StageCleared
        && questionNumber == old(questionNumber)
        && question == old(question) && choices == old(choices)
      ensures old(pending[i].numberWhenScheduled) != QuestionsPerStage ==>
        && gameStatus == Playing
        && questionNumber == old(questionNumber) + 1
        && question == GenerateQuestion(rnd.draw)
    {
      var timer := pending[i];
      pending := pending[..i] + pending[i + 1..];
      if timer.numberWhenScheduled == QuestionsPerStage {
        gameStatus := StageCleared;
      } else {
        questionNumber := questionNumber + 1;
        NextQuestion(rnd);
        gameStatus := Playing;
      }
    }

    /** The wrong-answer callback runs: the wrong-guess marker is cleared, whichever guess set it. */
    method FireClearIncorrectTimer(i: nat)
      requires Valid() && i < |pending| && pending[i] == ClearIncorrectTimer
      modifies this
      ensures Valid()
      ensures incorrectAnswer == None
      ensures pending == old(pending[..i] + pending[i + 1..])
      ensures character == old(character) && question == old(question) && choices == old(choices)
      ensures questionNumber == old(questionNumber) && gameStatus == old(gameStatus)
    {
      ghost var k :| 0 <= k < |pending| && (gameStatus == Answering ==> pending[k] == AdvanceTimer(questionNumber));
      if gameStatus == Answering {
        assert k != i;
        assert pending[k] in (if k < i then pending[..i] else pending[i + 1..]);
      }
      pending := pending[..i] + pending[i + 1..];
      incorrectAnswer := None;
    }

    /**
     * `startNextStage`: the stage is counted and today's key recorded, then
     * the next stage starts at question 1. Pending callbacks are not cancelled.
     */
    method StartNextStage(today: string, rnd: Randomness)
      requires Valid() && Usable(rnd)
      modifies this
      ensures Valid()
      ensures character == RecordStageCleared(old(character), today)
      ensures questionNumber == 1 && gameStatus == Playing
      ensures question == GenerateQuestion(rnd.draw)
      ensures incorrectAnswer == old(incorrectAnswer) && pending == old(pending)
    {
      character := RecordStageCleared(character, today);
      questionNumber := 1;
      NextQuestion(rnd);
      gameStatus := Playing;
    }

    /** `applyCustomization`: merges the partial into the profile; nothing else changes. */
    method ApplyCustomization(change: Customization)
      requires Valid()
      modifies this
      ensures Valid()
      ensures character == Customize(old(character), change)
      ensures question == old(question) && choices == old(choices) && questionNumber == old(questionNumber)
      ensures gameStatus == old(gameStatus) && incorrectAnswer == old(incorrectAnswer) && pending == old(pending)
    {
      character := Customize(character, change);
    }
  }

  /**
   * A wrong guess does not use up a question: wrong, its callback, right, its
   * callback, and the question number has moved on by exactly one.
   */
  method WrongThenRight(game: GameEngine, wrong: int, rnd: Randomness)
    requires game.Valid() && game.gameStatus == Playing && game.pending == []
    requires wrong != game.question.answer && game.questionNumber != QuestionsPerStage
    requires Usable(rnd)
    modifies game
    ensures game.Valid()
    ensures game.questionNumber == old(game.questionNumber) + 1
    ensures game.gameStatus == Playing && game.incorrectAnswer == None && game.pending == []
    ensures game.character == old(game.character)
  {
    game.HandleAnswer(wrong);
    game.FireClearIncorrectTimer(0);
    game.HandleAnswer(game.question.answer);
    game.FireAdvanceTimer(0, rnd);
  }

  /**
   * The last question of a stage: answering it clears the stage without moving
   * the question number; starting the next stage counts it and records today.
   */
  method FinishStage(game: GameEngine, today: string, rnd: Randomness)
    requires game.Valid() && game.gameStatus == Playing && game.pending == []
    requires game.questionNumber == QuestionsPerStage && Usable(rnd)
    modifies game
    ensures game.Valid()
    ensures game.character.stagesCleared == old(game.character.stagesCleared) + 1
    ensures today in game.character.clearedDates
    ensures game.questionNumber == 1 && game.gameStatus == Playing && game.pending == []
  {
    game.HandleAnswer(game.question.answer);
    game.FireAdvanceTimer(0, rnd);
    assert game.gameStatus == StageCleared && game.questionNumber == QuestionsPerStage;
    game.StartNextStage(today, rnd);
  }

  /**
   * A whole stage from question 1: every question answered right and its
   * callback run. The stage stays in play through the first 19 questions and
   * is cleared by exactly the 20th correct answer; `draws[k]` is the
   * randomness of the question that follows question k + 1.
   */
  method PlayStage(game: GameEngine, draws: seq<Randomness>) returns (answered: nat)
    requires game.Valid() && game.gameStatus == Playing && game.pending == []
    requires game.questionNumber == 1
    requires |draws| == QuestionsPerStage && forall k :: 0 <= k < |draws| ==> Usable(draws[k])
    modifies game
    ensures answered == QuestionsPerStage
    ensures game.Valid() && game.gameStatus == StageCleared && game.pending == []
    ensures game.questionNumber == QuestionsPerStage
    ensures game.character == old(game.character)
  {
    answered := 0;
    while game.questionNumber < QuestionsPerStage
      invariant 0 <= answered < QuestionsPerStage
      invariant game.Valid() && game.gameStatus == Playing && game.pending == []
      invariant game.questionNumber == 1 + answered
      invariant game.character == old(game.character)
      decreases QuestionsPerStage - answered
    {
      game.HandleAnswer(game.question.answer);
      game.FireAdvanceTimer(0, draws[answered]);
      answered := answered + 1;
    }
    game.HandleAnswer(game.question.answer);
    game.FireAdvanceTimer(0, draws[answered]);
    answered := answered + 1;
  }

  /**
   * A loaded question number above 20 is never compared equal to the stage
   * length again: each correct answer moves it further on and play goes on.
   */
  method PastTheLastQuestion(game: GameEngine, rnd: Randomness)
    requires game.Valid() && game.gameStatus == Playing && game.pending == []
    requires game.questionNumber > QuestionsPerStage && Usable(rnd)
    modifies game
    ensures game.Valid() && game.gameStatus == Playing && game.pending == []
    ensures game.questionNumber == old(game.questionNumber) + 1 > QuestionsPerStage
  {
    game.HandleAnswer(game.question.answer);
    game.FireAdvanceTimer(0, rnd);
  }
}
