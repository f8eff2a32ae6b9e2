# Quiz session of quiz-app, modelled in Dafny

quiz-app serves true/false trivia questions: a small server returns every
stored question as JSON, and the page script (`script.js`) walks the player
through them. The page keeps three module-level variables — the list of
questions, the cursor `currentQuestionIndex` and the count `correctCount` —
and four screens (start, quiz, explanation, result), of which the one
carrying the CSS class `active` is visible. Clicking start loads the
questions, shuffles them and shows the first; ○ and × grade the answer and
show the explanation; "next" moves the cursor and shows the next question or
the result; the three "back" buttons reset everything.

The project has four modules:

- `Shuffling` (shuffling.dfy): the in-place `sort` with a comparator that
  answers at random. The random answers are a parameter (a supply of
  choices); `Shuffle` is proved to return a permutation of its input, and
  `ShuffleReachesEveryPermutation` proves that every permutation is the
  result of some supply, so the model admits exactly the orders a sort can
  leave.
- `Quiz` (quiz.dfy): the session as a value (`Session`) and one function per
  handler giving the state after it, each with the properties the code
  guarantees; the predicate `Consistent` describes the states the buttons
  can reach.
- `Plays` (plays.dfy): the seven buttons, each placed on one screen and
  acting only while that screen is the active one; `Step`/`Run` apply
  clicks, and lemmas prove properties of whole playthroughs.
- `QuizPage` (quiz_page.dfy): the page as a class. The three variables and
  the text elements written by the handlers are fields updated in place; the
  `active` classes of the four screen elements are an array of flags that
  `ShowScreen` clears in a loop and sets on one. Each handler method is
  proved to leave exactly the state the matching `Quiz` function gives.

The grading expression is kept exactly as written: `userAnswer === (answer
=== 1)`. `Answer` keeps the JSON value's own type (a number or a boolean),
so the model shows that a question whose answer arrives as the boolean
`true` (the server's table declares the column `BOOLEAN`, app.js:55) is
graded as false: ○ is never accepted for it (`Quiz.Grade`,
`Plays.NativeTrueTallyIsZero`).

Behaviour of the code worth noting:

- resetting empties the question list (script.js:117); every start fetches
  again (script.js:59), and when that fetch fails the page stays on the
  start screen (script.js:60) instead of replaying the previous list;
- `checkAnswer` has no guard against a second answer to the same question
  and counts it again (`Quiz.CheckAnswerTwiceCountsTwice`); only the hiding
  of the answer buttons behind the explanation screen prevents it
  (`Plays.AnswerCountsOncePerQuestion`);
- a failed or empty load produces no error value: the page simply stays on
  the start screen;
- `correctCount <= currentQuestionIndex` does not hold on the explanation
  screen, where the count may already include the question at the cursor;
  `Consistent` states the bound that does hold (one more than the cursor
  there).

## Model

| member | source | states |
|---|---|---|
| `Shuffling.Shuffle` | script.js:46 | the sorted list has the same length and the same elements, with the same multiplicities, as the fetched data |
| `Shuffling.ShuffleReachesEveryPermutation` | script.js:46 | every permutation of the data is produced by some sequence of random comparator answers |
| `Quiz.Initial` | script.js:23-25 | the page starts with an empty list, cursor and count at zero, on the start screen |
| `Quiz.StoredTrue` | script.js:83 | a stored answer reads as true exactly when it is the number 1; a native boolean, even `true`, reads as false |
| `Quiz.Grade` | script.js:81-83 | an answer is correct when the stored answer is 1 and the player chose ○, or the stored answer is anything else (0, `true`, `false`) and the player chose × |
| `Quiz.ShowScreen` | script.js:29-35 | the target becomes the active screen and nothing else in the session changes |
| `Quiz.LoadQuestions` | script.js:38-53 | on success the list becomes a reordering of the fetched data; on failure it keeps its previous value; nothing else changes |
| `Quiz.StartQuiz` | script.js:56-65 | cursor and count are zeroed; the quiz screen showing the first question follows only when the list is non-empty after the load, otherwise the screen is left as it was; verdict, explanation and score line are kept |
| `Quiz.DisplayQuestion` | script.js:68-76 | the question at the cursor is read only when the cursor is inside the list; past the end the result (list length and count) is shown and the question text is kept; list, cursor, count, verdict and explanation are unchanged |
| `Quiz.Check` | script.js:79-83 | checkAnswer throws (TypeError) exactly when no question is at the cursor; otherwise its grade is `Grade` of the question at the cursor |
| `Quiz.CheckAnswer` | script.js:79-95 | a correct answer adds exactly one to the count and a wrong one leaves it; the verdict and the question's explanation are shown on the explanation screen; list and cursor untouched; a TypeError changes nothing |
| `Quiz.GoToNextQuestion` | script.js:98-105 | the cursor grows by exactly one; the result screen (reporting list length and count) is shown exactly when the new cursor is at or past the end, else the quiz screen with the new question (score line kept); list, count, verdict and explanation are kept, and the question text too on the result branch |
| `Quiz.ShowResult` | script.js:108-111 | the score line reports the number of questions and the count, and the result screen is shown |
| `Quiz.ResetApp` | script.js:114-120 | from any state: empty list, cursor and count at zero, start screen; the displayed texts are left as they were |
| `Quiz.CheckAnswerTwiceCountsTwice` | script.js:79-95 | answering the same question correctly twice in a row adds two to the count |
| `Plays.Step` | script.js:124-143 | a click on a button whose screen is not active changes nothing; otherwise the bound handler runs |
| `Plays.InitialIsConsistent` | script.js:145-146 | the initial page is a consistent state |
| `Plays.StepKeepsConsistent` | script.js:56-120 | every click maps a consistent state to a consistent one |
| `Plays.RunKeepsConsistent` | script.js:124-143 | after any sequence of clicks: the start screen has an empty session; on the quiz and explanation screens the cursor is on a question the page shows; on the result screen the cursor is at the end and the score line reports the list length and the count, never more correct than questions |
| `Plays.AnswerCountsOncePerQuestion` | script.js:128-131 | an answer click on the quiz screen never throws, adds at most one, and a second answer click right after it is ignored |
| `Plays.Play` | script.js:128-134 | a playthrough of n answers is 2n clicks (answer, then next) |
| `Plays.Tally` | script.js:83-86 | the number of answers checkAnswer accepts is at most the number of questions |
| `Plays.PlayScoresTally` | script.js:79-111 | answering every remaining question and moving on ends on the result screen whose score is the count so far plus the number of accepted answers, out of the whole list |
| `Plays.Intended` | script.js:83 | the answers that follow the rule: ○ exactly for the questions stored as 1 |
| `Plays.IntendedTallyIsFull` | script.js:83 | following the rule, every answer is accepted |
| `Plays.NativeTrueTallyIsZero` | script.js:83 | when every answer is stored as the boolean `true` and the player always chooses ○, no answer is accepted |
| `Plays.StartAndPlay` | script.js:56-111 | from the start screen, a successful non-empty load and a full play end on the result screen reporting every question with the number of accepted answers; following the rule scores all of them |
| `QuizPage.Page.constructor` | script.js:23-25 | the page begins in the initial state with exactly the start screen active |
| `QuizPage.Page.ShowScreen` | script.js:29-35 | after the loop clears every screen's flag and the target's is set, exactly the target screen is active |
| `QuizPage.Page.LoadQuestions` | script.js:38-53 | the list field is updated as `Quiz.LoadQuestions` says |
| `QuizPage.Page.StartQuiz` | script.js:56-65 | the fields and the active screen become `Quiz.StartQuiz` of the old state |
| `QuizPage.Page.DisplayQuestion` | script.js:68-76 | the fields and the active screen become `Quiz.DisplayQuestion` of the old state |
| `QuizPage.Page.CheckAnswer` | script.js:79-95 | returns the grade or the TypeError of `Quiz.Check`; the fields become `Quiz.CheckAnswer` of the old state |
| `QuizPage.Page.GoToNextQuestion` | script.js:98-105 | the fields and the active screen become `Quiz.GoToNextQuestion` of the old state |
| `QuizPage.Page.ShowResult` | script.js:108-111 | the fields and the active screen become `Quiz.ShowResult` of the old state |
| `QuizPage.Page.ResetApp` | script.js:114-120 | the fields and the active screen become `Quiz.ResetApp` of the old state |
| `QuizPage.Page.OnClick` | script.js:124-143 | a click changes the page as `Plays.Step` says and keeps a consistent page consistent |

## Left out

- The server (app.js) and the CSV import tool (import_data.js): database and
  HTTP plumbing with no decisions of their own; the request's outcome is a
  parameter (`Fetch`).
- The asynchronous load: `startQuiz` is modelled as if the load completed
  at once; a reset or a second start click arriving while the request is
  pending is not modelled. `Plays.RunKeepsConsistent` (and with it "never
  more correct answers than questions") holds only because of this: two
  start clicks during a slow load, with the player answering in between,
  let the second load's callback return to the quiz screen without zeroing
  the count again, so a one-question quiz can end reporting 2 correct out
  of 1.
- `Math.random` and the engine's sort algorithm: the comparator's answers
  are a parameter, and only the set of possible orders is modelled, not how
  likely each is.
- A response whose `data` is not an array, as in the server's own error
  reply `{"error": ...}` with status 400 (app.js:93), its main failure
  mode: the assignment at script.js:43 leaves `questions` undefined before
  `sort` throws, and the `.then` callback then throws at
  `questions.length` (script.js:60). From the start screen this looks the
  same as `FetchFailed`, which is how the model treats it.
- Non-integer numbers or strings in the `answer` field: the model's
  `Answer` holds an integer or a boolean.
- A `null` question text or explanation: the model's texts are strings, so
  `null` written to an element is taken as the empty string.
- The element look-ups, colours of the verdict line, console messages, the
  failure alert and the listener registration themselves; the stylesheet is
  taken to hide every screen but the active one, which is why a button acts
  only on its own screen. The page markup is not part of this model either:
  which screen each button sits on (`Plays.Home`) is taken from the element
  ids (script.js:8-14), and `Plays.StepKeepsConsistent` depends on that
  placement.
