# Quiz session model

A Dafny model of the browser quiz in `script.js`. The user picks a category
and a difficulty. The quiz draws the matching questions from a static bank,
caps them by difficulty tier and shuffles them. Each question is shown with
its answers shuffled and a 15-second countdown. The user answers or lets the
time run out. At the end the quiz shows a rounded percentage and keeps the
best percentage in the browser's local storage.

Modules, one per component:

- `Questions` (`questions.dfy`): answers, questions, the tier caps (beginner
  10, intermediate 7, advanced 5, no cap for a difficulty that is not a key
  of the counts object) and the
  selection `getQuestionsByCategory`, written as pure functions.
- `Shuffler` (`shuffler.dfy`): the `sort(() => Math.random() - .5)` shuffle.
  The random outcomes are a parameter (`picks`), so the shuffle is a pure
  function. It is proved to return a permutation of its input, and every
  permutation is proved reachable by some outcomes. The session calls it
  through `Shuffled`, whose contract keeps only the permutation property.
- `Scoring` (`scoring.dfy`): the final percentage `Math.round(score / total *
  100)` computed exactly on integers as `(200 * score + total) / (2 * total)`.
  Also the high-score store: a class whose `items` map stands for local
  storage, with `loadHighScore` and `saveHighScore`.
- `Session` (`session.dfy`): the globals of line 24 as the fields of a class
  `QuizSession`, with one method per event: start, answer click, countdown
  tick, time-up, next button and final score. A `phase` field records which
  controls are visible or enabled. An event whose control is hidden or
  disabled leaves the state unchanged. The invariant `Valid()` ties the
  score to the recorded outcomes, with one outcome per decided question.
  It ties the index to the number of questions, the countdown to the
  phase, the buttons to a permutation of the current question's answers,
  and the final percentage to the score.
- `Scenarios` (`scenarios.dfy`): client methods that walk through concrete
  runs and assert the results the contracts give. They cover selection
  below the cap, one correct answer giving 100%, a timeout giving 0%, and a
  stored best of 70 against 65 and 85.
- `Wrappers` (`wrappers.dfy`): an `Option` type.

Behaviour of the code that the model keeps:

- An empty selection does not start a session. The code reads
  `shuffledQuestions[0]` as `undefined`, and `showQuestion` then fails on
  `question.question`. `Start` therefore requires a non-empty selection
  whenever it would start a session, that is, when no session is running.
- Timer events carry no handle or generation. Once `clearInterval` has run,
  the interval never fires again. The model has a `timerActive` flag that
  is cleared when an answer is given or the time runs out, and a `Tick`
  without an active interval does nothing.
- The source computes the percentage in floating point. The integer formula
  is exact half-up rounding. With the tier caps a session has at most 10
  questions, and for those sizes the two agree.
- The stored high score comes back from local storage as a string.
  `percentage > current` compares it as a number, so the model keeps an
  integer.

## Model

| member | source | states |
|---|---|---|
| `Questions.Cap` | script.js:255-260 | a cap exists exactly for beginner, intermediate and advanced; any other difficulty has none |
| `Questions.Matching` | script.js:254 | every kept entry is a bank entry whose category and difficulty both match, and the result is no longer than the bank |
| `Questions.MatchingMultiplicity` | script.js:254 | each matching entry appears as often as in the bank; each other entry does not appear |
| `Questions.MatchingAppend` | script.js:254 | filtering a concatenation is the concatenation of the filtered parts, so bank order is kept |
| `Questions.Select` | script.js:253-261 | the result is a prefix of the matches; its length is min(matches, cap) for a known tier; an unknown difficulty returns all matches |
| `Shuffler.ShufflePermutes` | script.js:77 | for any random outcomes, the shuffled list has the same multiset as its input, with nothing dropped or duplicated |
| `Shuffler.ShuffleReaches` | script.js:77 | every permutation of the input is produced by some random outcomes, so the possible results are exactly the permutations |
| `Shuffler.Shuffled` | script.js:101 | the shuffle as the session performs it, for the answers here and the questions at line 77: the result is a reordering of the input, of the same length |
| `Scoring.PercentageRounds` | script.js:277 | 100 * score / total lies in [p - 1/2, p + 1/2), which is round-half-up; p is at most 100 when score <= total; p is 100 when all answers are correct and 0 when none is |
| `Scoring.PercentageMonotone` | script.js:277 | with the same number of questions, a higher score never gives a lower percentage |
| `Scoring.Recorded` | script.js:211-220 | the new best is the larger of the old best and p; the value is written only when p is strictly greater, and every other key is untouched |
| `Scoring.RecordedTwice` | script.js:211-220 | offering two percentages in either order leaves the same best |
| `Scoring.HighScoreStore.SaveHighScore` | script.js:203-220 | returns true iff the percentage exceeds the stored best (absent counts as 0); the store becomes `Recorded` of the old store; a later `loadHighScore` reads back the new record, and after no record it reads what it read before |
| `Session.CountCorrectExtremes` | script.js:130-131 | the count of correct outcomes equals the number of outcomes iff all are correct, and is 0 iff none is |
| `Session.QuizSession.constructor` | script.js:24 | the initial globals satisfy the session invariant, with no interval scheduled |
| `Session.QuizSession.ScoreBounded` | script.js:124-150 | the invariant gives score <= outcomes recorded <= index + 1 <= number of questions, and score <= index while an answer is awaited |
| `Session.QuizSession.FinalPercentage` | script.js:276-277 | in the final state the percentage is at most 100; it is 100 when every question was answered correctly and 0 when none was |
| `Session.QuizSession.Start` | script.js:68-90 | the questions are a permutation of the selection; index and score are 0; the first question awaits an answer, its buttons a permutation of its answers, with 15 seconds and no warning; a start is ignored while a session runs |
| `Session.QuizSession.Next` | script.js:29-32 | in the revealed phase the index rises by exactly 1 and stays below the number of questions; score and outcomes are kept; the next question is presented with its answers permuted and a fresh countdown; in other phases nothing changes |
| `Session.QuizSession.SetNextQuestion` | script.js:92-97 | the buttons become a permutation of the current question's answers; the countdown restarts at 15 with the warning cleared and the interval running |
| `Session.QuizSession.SelectAnswer` | script.js:124-150 | the score rises by exactly 1 iff the clicked answer is correct; exactly one outcome is recorded and the interval stops; the next button is offered iff questions remain, else the final score is recorded; disabled or absent buttons change nothing |
| `Session.QuizSession.Tick` | script.js:171-186 | time left drops by 1 and the warning is set iff it is at most 5; at 0 the interval is cleared and the question is decided as incorrect without touching the score; with no interval nothing changes |
| `Session.QuizSession.TimeUp` | script.js:188-201 | records an incorrect outcome and then offers the next button or shows the final score; the score is not changed; the invariant is restored |
| `Session.QuizSession.Decide` | script.js:129-149 | the interval is cleared; the score rises by 1 iff the outcome is correct and exactly one outcome is recorded; the next button is offered iff index + 1 < number of questions, otherwise the final score is recorded |
| `Session.QuizSession.ShowFinalScore` | script.js:276-292 | the percentage is the rounded `score / total * 100`; the new-record flag and the store follow `saveHighScore`; the buttons are cleared |

## Left out

- DOM rendering, CSS status classes, button creation, explanation text and the progress bar (`updateProgress`). These are presentation only. The model keeps the answer buttons only as a list of answers in display order.
- `playSound`: Web Audio calls with floating-point frequencies and gains.
- `createConfetti` and its condition (percentage at least 80 or a new record): random styling and `setTimeout` only.
- The theme toggle and `loadTheme`: a display preference with no quiz logic.
- Real-time scheduling: `setInterval` and `clearInterval` become the `timerActive` flag and discrete `Tick` events.
- `Math.random`: the shuffle's random outcomes are a parameter. The model does not capture that the outcome is random, or how the orders are distributed.
- The static question bank: it is a constructor parameter, and the scenarios use small banks of their own.
- `loadHighScore`'s effect in `startGame`: it only displays the stored value, so `Start` does not call it.
- Local storage failures such as a quota error or storage being disabled: the source does not handle them, and the model's store never fails.
- Truthiness of stored strings: an empty string stored under `quizHighScore` would count as absent. The model stores integers only.
- Difficulty names inherited from `Object.prototype` (`toString`, `constructor`, `valueOf`, `__proto__` and the like): for them `questionCounts[difficulty]` is a function or an object, and `slice` then returns no questions. `Questions.Cap` treats every non-tier name as having no cap and so keeps all matches. The static bank holds only the three tiers, so the difference needs a bank the program does not have.
