/** The quiz session of script.js: the globals `shuffledQuestions`,
    `currentQuestionIndex`, `score`, `timer` and `timeLeft` (line 24),
    mutated by the event handlers. Each handler is a method of
    QuizSession; a hidden or disabled control appears as a phase in which
    the corresponding event is ignored. */
module Session {
  import opened Questions
  import opened Shuffler
  import opened Scoring

  /** What the visible controls allow. */
  datatype Phase =
    | Setup           // before the first start: only the start button is offered
    | AwaitingAnswer  // answer buttons enabled, countdown running
    | Revealed        // buttons disabled, next button shown
    | Complete        // final score shown, start button offered again

  /** Seconds on the countdown when a question is shown. */
  const QuestionSeconds: int := 15
  /** At or below this many seconds the countdown is marked as a warning. */
  const WarningSeconds: int := 5

  /** The number of questions answered correctly in a run of outcomes. */
  function CountCorrect(outcomes: seq<bool>): (n: nat)
    ensures n <= |outcomes|
  {
    if outcomes == [] then 0
    else CountCorrect(outcomes[..|outcomes| - 1]) + (if outcomes[|outcomes| - 1] then 1 else 0)
  }

  lemma CountCorrectAppend(outcomes: seq<bool>, b: bool)
    ensures CountCorrect(outcomes + [b]) == CountCorrect(outcomes) + (if b then 1 else 0)
  {
    assert (outcomes + [b])[..|outcomes|] == outcomes;
  }

  /** The count is full exactly when every outcome is correct, and zero
      exactly when none is. */
  lemma {:induction false} CountCorrectExtremes(outcomes: seq<bool>)
    ensures CountCorrect(outcomes) == |outcomes| <==> forall i :: 0 <= i < |outcomes| ==> outcomes[i]
    ensures CountCorrect(outcomes) == 0 <==> forall i :: 0 <= i < |outcomes| ==> !outcomes[i]
  {
    if outcomes != [] {
      var prefix := outcomes[..|outcomes| - 1];
      CountCorrectExtremes(prefix);
      assert forall i :: 0 <= i < |prefix| ==> prefix[i] == outcomes[i];
    }
  }

  class QuizSession {
    /** The static question bank. */
    const bank: seq<Question>
    /** The browser store holding the high score. */
    const store: HighScoreStore

    var questions: seq<Question>  // shuffledQuestions
    var index: nat                // currentQuestionIndex
    var score: nat
    var timeLeft: int
    var warning: bool             // the countdown's warning style
    var timerActive: bool         // an interval is scheduled
    var buttons: seq<Answer>      // the answer buttons, in display order
    var phase: Phase
    var percentage: nat           // the last final percentage shown
    var newRecord: bool           // whether it was announced as a new high score

    /** One entry per question already decided: whether it was answered
        correctly (a timeout counts as incorrect). */
    ghost var outcomes: seq<bool>
    /** The questions selected for this session, before shuffling. */
    ghost var drawn: seq<Question>

    /** Everything but the coupling of the countdown to the phase. */
    ghost predicate Consistent()
      reads this
    {
      && (phase == Setup ==> index == 0 && score == 0 && outcomes == [] && buttons == [])
      && (phase != Setup ==>
            && questions != [] && index < |questions|
            && score == CountCorrect(outcomes)
            && |outcomes| == (if phase == AwaitingAnswer then index else index + 1)
            && (warning <==> timeLeft <= WarningSeconds))
      && (phase == AwaitingAnswer || phase == Revealed ==>
            multiset(buttons) == multiset(questions[index].answers))
      && (phase == Revealed ==> index + 1 < |questions|)
      && (phase == Complete ==>
            && index + 1 == |questions| && buttons == []
            && percentage == Percentage(score, |questions|))
    }

    /** The session invariant: the countdown runs exactly while an answer
        is awaited, and then has time left. */
    ghost predicate Valid()
      reads this
    {
      && Consistent()
      && (timerActive <==> phase == AwaitingAnswer)
      && (phase == AwaitingAnswer ==> 0 < timeLeft <= QuestionSeconds)
    }

    /** The page as loaded: nothing started, no interval scheduled. */
    constructor (bank: seq<Question>, store: HighScoreStore)
      ensures Valid()
      ensures this.bank == bank && this.store == store
      ensures phase == Setup && !timerActive
    {
      this.bank := bank;
      this.store := store;
      questions := [];
      index, score := 0, 0;
      timeLeft := 0;
      warning, timerActive := false, false;
      buttons := [];
      phase := Setup;
      percentage, newRecord := 0, false;
      outcomes, drawn := [], [];
    }

    /** Scores cannot outrun the questions decided so far. */
    lemma ScoreBounded()
      requires Valid()
      ensures score <= |outcomes|
      ensures phase == AwaitingAnswer ==> score <= index
      ensures phase != Setup ==> score <= index + 1 <= |questions|
    {
    }

    /** The final percentage lies in 0..100, is 100 when every question was
        answered correctly and 0 when none was. */
    lemma FinalPercentage()
      requires Valid() && phase == Complete
      ensures percentage <= 100
      ensures (forall i :: 0 <= i < |outcomes| ==> outcomes[i]) ==> percentage == 100
      ensures (forall i :: 0 <= i < |outcomes| ==> !outcomes[i]) ==> percentage == 0
    {
      CountCorrectExtremes(outcomes);
      PercentageRounds(score, |questions|);
    }

    /** startGame: draw and shuffle the questions, reset index and score,
        and present the first question. The start button is hidden while a
        session runs, so a start is then ignored. */
    method Start(category: string, difficulty: string, questionPicks: seq<nat>, answerPicks: seq<nat>)
      requires Valid()
      requires phase == Setup || phase == Complete ==> Select(bank, category, difficulty) != []
      modifies this
      ensures Valid()
      ensures old(phase) == AwaitingAnswer || old(phase) == Revealed ==> unchanged(this)
      ensures old(phase) == Setup || old(phase) == Complete ==>
                && drawn == Select(bank, category, difficulty)
                && multiset(questions) == multiset(drawn)
                && index == 0 && score == 0 && outcomes == []
                && phase == AwaitingAnswer && timerActive
                && timeLeft == QuestionSeconds && !warning
                && multiset(buttons) == multiset(questions[0].answers)
    {
      if phase == AwaitingAnswer || phase == Revealed {
        return;
      }
      var selected := Select(bank, category, difficulty);
      drawn := selected;
      questions := Shuffled(selected, questionPicks);
      index := 0;
      score := 0;
      outcomes := [];
      SetNextQuestion(answerPicks);
    }

    /** The next button: advance by one question and present it. The button
        is shown only after a non-final question was decided. */
    method Next(answerPicks: seq<nat>)
      requires Valid()
      modifies this
      ensures Valid()
      ensures old(phase) != Revealed ==> unchanged(this)
      ensures old(phase) == Revealed ==>
                && index == old(index) + 1 && index < |questions|
                && questions == old(questions)
                && score == old(score) && outcomes == old(outcomes)
                && phase == AwaitingAnswer && timerActive
                && timeLeft == QuestionSeconds && !warning
                && multiset(buttons) == multiset(questions[index].answers)
    {
      if phase != Revealed {
        return;
      }
      index := index + 1;
      SetNextQuestion(answerPicks);
    }

    /** setNextQuestion: clear the previous question's state and interval,
        show the current question with its answers shuffled, and start the
        countdown. */
    method SetNextQuestion(answerPicks: seq<nat>)
      requires index < |questions|
      modifies this`buttons, this`timeLeft, this`warning, this`timerActive, this`phase
      ensures multiset(buttons) == multiset(questions[index].answers)
      ensures phase == AwaitingAnswer && timerActive
      ensures timeLeft == QuestionSeconds && !warning
    {
      // resetState
      buttons := [];
      warning := false;
      timerActive := false;
      // showQuestion
      buttons := Shuffled(questions[index].answers, answerPicks);
      phase := AwaitingAnswer;
      // startTimer
      timeLeft := QuestionSeconds;
      warning := false;
      timerActive := true;
    }

    /** selectAnswer: a click on the answer button at position `choice`.
        It stops the countdown, adds one to the score exactly when that
        answer is correct, disables every button, and then either offers
        the next button or shows the final score. Clicks on disabled or
        absent buttons do nothing. */
    method SelectAnswer(choice: nat)
      requires Valid()
      modifies this, store
      ensures Valid()
      ensures old(phase) != AwaitingAnswer || choice >= |old(buttons)| ==>
                unchanged(this) && unchanged(store)
      ensures old(phase) == AwaitingAnswer && choice < |old(buttons)| ==>
                && score == old(score) + (if old(buttons)[choice].correct then 1 else 0)
                && outcomes == old(outcomes) + [old(buttons)[choice].correct]
                && !timerActive
                && questions == old(questions) && index == old(index)
                && timeLeft == old(timeLeft)
                && (index + 1 < |questions| ==>
                      phase == Revealed && buttons == old(buttons) && unchanged(store))
                && (index + 1 == |questions| ==>
                      && phase == Complete
                      && percentage == Percentage(score, |questions|)
                      && newRecord == (percentage > Best(old(store.items)))
                      && store.items == Recorded(old(store.items), percentage))
    {
      if phase != AwaitingAnswer || choice >= |buttons| {
        return;
      }
      Decide(buttons[choice].correct);
    }

    /** One firing of the countdown's interval. Once the interval is
        cleared no further firing happens, so a tick is then ignored. */
    method Tick()
      requires Valid()
      modifies this, store
      ensures Valid()
      ensures !old(timerActive) ==> unchanged(this) && unchanged(store)
      ensures old(timerActive) ==>
                && timeLeft == old(timeLeft) - 1
                && warning == (timeLeft <= WarningSeconds)
                && score == old(score)
                && questions == old(questions) && index == old(index)
      ensures old(timerActive) && timeLeft > 0 ==>
                && phase == AwaitingAnswer && timerActive
                && buttons == old(buttons) && outcomes == old(outcomes)
                && unchanged(store)
      ensures old(timerActive) && timeLeft <= 0 ==>
                && !timerActive
                && outcomes == old(outcomes) + [false]
                && (index + 1 < |questions| ==>
                      phase == Revealed && buttons == old(buttons) && unchanged(store))
                && (index + 1 == |questions| ==>
                      && phase == Complete
                      && percentage == Percentage(score, |questions|)
                      && newRecord == (percentage > Best(old(store.items)))
                      && store.items == Recorded(old(store.items), percentage))
    {
      if !timerActive {
        return;
      }
      timeLeft := timeLeft - 1;
      if timeLeft <= WarningSeconds {
        warning := true;
      }
      assert warning == (timeLeft <= WarningSeconds);
      assert Consistent();
      if timeLeft <= 0 {
        timerActive := false;
        TimeUp();
      }
    }

    /** timeUp: the question is decided as not answered correctly; the
        score is untouched. */
    method TimeUp()
      requires Consistent() && phase == AwaitingAnswer
      modifies this`timerActive, this`score, this`outcomes, this`percentage, this`newRecord, this`buttons, this`phase, store
      ensures Valid()
      ensures score == old(score) && outcomes == old(outcomes) + [false]
      ensures index + 1 < |questions| ==>
                phase == Revealed && buttons == old(buttons) && unchanged(store)
      ensures index + 1 == |questions| ==>
                && phase == Complete
                && percentage == Percentage(score, |questions|)
                && newRecord == (percentage > Best(old(store.items)))
                && store.items == Recorded(old(store.items), percentage)
    {
      Decide(false);
    }

    /** What an answer and a timeout share: the interval is cleared, the
        outcome is recorded (raising the score only for a correct answer),
        every button is disabled, and the next button is offered if
        questions remain; otherwise the final score is shown. */
    method Decide(correct: bool)
      requires Consistent() && phase == AwaitingAnswer
      modifies this`timerActive, this`score, this`outcomes, this`percentage, this`newRecord, this`buttons, this`phase, store
      ensures Valid() && !timerActive
      ensures score == old(score) + (if correct then 1 else 0)
      ensures outcomes == old(outcomes) + [correct]
      ensures index + 1 < |questions| ==>
                phase == Revealed && buttons == old(buttons) && unchanged(store)
      ensures index + 1 == |questions| ==>
                && phase == Complete
                && percentage == Percentage(score, |questions|)
                && newRecord == (percentage > Best(old(store.items)))
                && store.items == Recorded(old(store.items), percentage)
    {
      timerActive := false;
      if correct {
        score := score + 1;
      }
      CountCorrectAppend(outcomes, correct);
      outcomes := outcomes + [correct];
      assert score == CountCorrect(outcomes) && |outcomes| == index + 1;
      if |questions| > index + 1 {
        phase := Revealed;
      } else {
        ShowFinalScore();
      }
    }

    /** showFinalScore: compute the rounded percentage, offer it to the
        high-score store, and clear the answer buttons. */
    method ShowFinalScore()
      requires index + 1 == |questions|
      modifies this`percentage, this`newRecord, this`buttons, this`phase, store
      ensures phase == Complete && buttons == []
      ensures percentage == Percentage(score, |questions|)
      ensures newRecord == (percentage > Best(old(store.items)))
      ensures store.items == Recorded(old(store.items), percentage)
    {
      percentage := Percentage(score, |questions|);
      newRecord := store.SaveHighScore(percentage);
      buttons := [];
      phase := Complete;
    }
  }
}
