/** The quiz session of script.js as a value: the three module-level
    variables (the question list, the cursor, the number of correct
    answers), the screen that carries the 'active' class, and what the page
    currently shows. One function per handler gives the state after it;
    the page class in quiz_page.dfy is proved to compute exactly these. */
module Quiz {
  import opened Shuffling

  /** The `answer` field of a question record as it arrives in the JSON:
      a number when the store keeps 0/1, a boolean when the column is a
      native BOOLEAN. */
  datatype Answer = IntAnswer(n: int) | BoolAnswer(b: bool)

  datatype Question = Question(id: int, text: string, answer: Answer, explanation: string)

  /** The four screens, in the order of the `screens` list of showScreen. */
  datatype Screen = StartScreen | QuizScreen | ExplanationScreen | ResultScreen

  /** What the verdict line (resultText) shows. */
  datatype Verdict = NoVerdict | Correct | Incorrect

  /** What the score line (scoreText) shows: nothing yet, or
      "<total> questions, <correct> correct". */
  datatype ScoreLine = NoScore | Score(total: nat, correct: nat)

  /** The outcome of the question request: the `data` array of the JSON
      body, or a failure of the request or of the JSON parsing. */
  datatype Fetch = Fetched(data: seq<Question>) | FetchFailed

  /** What a call of checkAnswer ends with: a grade, or the TypeError thrown
      when no question sits at the cursor (reading `.answer` of undefined). */
  datatype Outcome = Graded(correct: bool) | TypeError

  datatype Session = Session(
    questions: seq<Question>,
    index: nat,
    correctCount: nat,
    screen: Screen,
    questionText: string,
    verdict: Verdict,
    explanationText: string,
    score: ScoreLine)

  /** The state when the page has loaded: empty list, counters at zero and
      the start screen shown. */
  function Initial(): (s: Session)
    ensures s.screen == StartScreen && s.questions == []
    ensures s.index == 0 && s.correctCount == 0
  {
    Session([], 0, 0, StartScreen, "", NoVerdict, "", NoScore)
  }

  /** `answer === 1`: strict equality with the number 1. */
  function StoredTrue(a: Answer): (t: bool)
    ensures a.IntAnswer? ==> (t <==> a.n == 1)
    ensures a.BoolAnswer? ==> !t
  {
    a == IntAnswer(1)
  }

  /** `userAnswer === (answer === 1)`: the stored 1 agrees with ○ (true)
      and every other stored value, 0 and BOTH native booleans included,
      agrees with × (false) only. The third clause is a corollary of the
      second, spelled out for the native true: a question whose answer
      arrives as the boolean true can never be answered correctly with ○. */
  function Grade(userAnswer: bool, a: Answer): (correct: bool)
    ensures a == IntAnswer(1) ==> (correct <==> userAnswer)
    ensures a != IntAnswer(1) ==> (correct <==> !userAnswer)
    ensures a == BoolAnswer(true) ==> (correct <==> !userAnswer)
  {
    userAnswer == StoredTrue(a)
  }

  /** showScreen: the target screen becomes the only active one. */
  function ShowScreen(s: Session, target: Screen): (r: Session)
    ensures r.screen == target
    ensures r.(screen := s.screen) == s
  {
    s.(screen := target)
  }

  /** loadQuestions: on success the list becomes the fetched data in the
      order the random sort leaves it; on failure it keeps its old value.
      Nothing else changes. */
  function LoadQuestions(s: Session, fetch: Fetch, random: seq<nat>): (r: Session)
    ensures r.(questions := s.questions) == s
    ensures fetch.FetchFailed? ==> r.questions == s.questions
    ensures fetch.Fetched? ==> multiset(r.questions) == multiset(fetch.data)
  {
    match fetch
    case Fetched(data) => s.(questions := Shuffle(data, random))
    case FetchFailed => s
  }

  /** showResult: the score line reports the number of questions and the
      number answered correctly, and the result screen is shown. */
  function ShowResult(s: Session): (r: Session)
    ensures r.score == Score(|s.questions|, s.correctCount)
    ensures r.screen == ResultScreen
    ensures r.(score := s.score, screen := s.screen) == s
  {
    ShowScreen(s.(score := Score(|s.questions|, s.correctCount)), ResultScreen)
  }

  /** displayQuestion: the question at the cursor is read only when the
      cursor is inside the list; past the end the result is shown instead.
      The list and the counters are left alone. */
  function DisplayQuestion(s: Session): (r: Session)
    ensures r.questions == s.questions && r.index == s.index && r.correctCount == s.correctCount
    ensures s.index < |s.questions| ==> r == s.(questionText := s.questions[s.index].text)
    ensures s.index >= |s.questions| ==> r.screen == ResultScreen && r.score == Score(|s.questions|, s.correctCount)
    ensures s.index >= |s.questions| ==> r.questionText == s.questionText
    ensures r.verdict == s.verdict && r.explanationText == s.explanationText
  {
    if s.index < |s.questions| then s.(questionText := s.questions[s.index].text)
    else ShowResult(s)
  }

  /** startQuiz, once its load has completed: the cursor and the count
      are zeroed first, and the quiz screen (with the first question) is
      shown only when the list is non-empty after the load; otherwise the
      screen stays where it was. */
  function StartQuiz(s: Session, fetch: Fetch, random: seq<nat>): (r: Session)
    ensures r.index == 0 && r.correctCount == 0
    ensures r.questions == LoadQuestions(s, fetch, random).questions
    ensures |r.questions| > 0 ==> r.screen == QuizScreen && r.questionText == r.questions[0].text
    ensures r.verdict == s.verdict && r.explanationText == s.explanationText && r.score == s.score
    ensures |r.questions| == 0 ==> r == s.(index := 0, correctCount := 0, questions := [])
  {
    var loaded := LoadQuestions(s.(index := 0, correctCount := 0), fetch, random);
    if |loaded.questions| > 0 then ShowScreen(DisplayQuestion(loaded), QuizScreen)
    else loaded
  }

  /** The outcome of checkAnswer: the grade of the question at the cursor,
      or the TypeError when there is none. */
  function Check(s: Session, userAnswer: bool): (o: Outcome)
    ensures o.TypeError? <==> s.index >= |s.questions|
    ensures o.Graded? ==> o.correct == Grade(userAnswer, s.questions[s.index].answer)
  {
    if s.index < |s.questions| then Graded(Grade(userAnswer, s.questions[s.index].answer))
    else TypeError
  }

  /** checkAnswer: a correct answer adds exactly one to the count, a wrong
      one leaves it; the verdict and explanation of the question are shown
      on the explanation screen. The list and the cursor are never touched,
      and there is no guard against answering the same question again.
      When the cursor is past the end, the TypeError leaves everything as
      it was. */
  function CheckAnswer(s: Session, userAnswer: bool): (r: Session)
    ensures r.questions == s.questions && r.index == s.index
    ensures r.questionText == s.questionText && r.score == s.score
    ensures Check(s, userAnswer).TypeError? ==> r == s
    ensures Check(s, userAnswer) == Graded(true) ==>
      r.correctCount == s.correctCount + 1 && r.verdict == Correct
    ensures Check(s, userAnswer) == Graded(false) ==>
      r.correctCount == s.correctCount && r.verdict == Incorrect
    ensures Check(s, userAnswer).Graded? ==>
      r.screen == ExplanationScreen && r.explanationText == s.questions[s.index].explanation
  {
    match Check(s, userAnswer)
    case TypeError => s
    case Graded(correct) =>
      var counted := if correct then s.correctCount + 1 else s.correctCount;
      var shown := s.(correctCount := counted,
                      verdict := if correct then Correct else Incorrect,
                      explanationText := s.questions[s.index].explanation);
      ShowScreen(shown, ExplanationScreen)
  }

  /** goToNextQuestion: the cursor moves forward by exactly one; the
      result screen, reporting the whole list and the count, is shown
      exactly when the new cursor is at or past the end, and the quiz
      screen with the new question otherwise. */
  function GoToNextQuestion(s: Session): (r: Session)
    ensures r.index == s.index + 1
    ensures r.questions == s.questions && r.correctCount == s.correctCount
    ensures r.screen == (if r.index >= |r.questions| then ResultScreen else QuizScreen)
    ensures r.index < |r.questions| ==> r.questionText == r.questions[r.index].text
    ensures r.index >= |r.questions| ==> r.score == Score(|s.questions|, s.correctCount)
    ensures r.index < |r.questions| ==> r.score == s.score
    ensures r.index >= |r.questions| ==> r.questionText == s.questionText
    ensures r.verdict == s.verdict && r.explanationText == s.explanationText
  {
    var moved := DisplayQuestion(s.(index := s.index + 1));
    if moved.index < |moved.questions| then ShowScreen(moved, QuizScreen) else moved
  }

  /** resetApp: from any screen, back to the start screen with an empty
      list and both counters at zero. What the page shows is left as it
      was. */
  function ResetApp(s: Session): (r: Session)
    ensures r.index == 0 && r.correctCount == 0 && r.questions == []
    ensures r.screen == StartScreen
    ensures r.questionText == s.questionText && r.verdict == s.verdict
    ensures r.explanationText == s.explanationText && r.score == s.score
  {
    ShowScreen(s.(index := 0, correctCount := 0, questions := []), StartScreen)
  }

  /** What holds in every state the buttons can reach: on the start screen
      the session is empty; on the quiz and explanation screens the cursor
      is on a question, which the page shows; on the result screen the
      cursor is at the end and the score line reports the list and the
      count. The count never exceeds the number of questions answered
      (one more than the cursor while the explanation is shown). */
  predicate Consistent(s: Session) {
    match s.screen
    case StartScreen =>
      s.questions == [] && s.index == 0 && s.correctCount == 0
    case QuizScreen =>
      s.index < |s.questions| && s.correctCount <= s.index
      && s.questionText == s.questions[s.index].text
    case ExplanationScreen =>
      s.index < |s.questions| && s.correctCount <= s.index + 1
      && s.explanationText == s.questions[s.index].explanation && s.verdict != NoVerdict
    case ResultScreen =>
      s.index == |s.questions| && s.correctCount <= s.index
      && s.score == Score(|s.questions|, s.correctCount)
  }

  /** Answering the same question twice with a correct answer counts it
      twice: checkAnswer has no guard of its own. */
  lemma CheckAnswerTwiceCountsTwice(s: Session, userAnswer: bool)
    requires Check(s, userAnswer) == Graded(true)
    ensures CheckAnswer(CheckAnswer(s, userAnswer), userAnswer).correctCount == s.correctCount + 2
  {
    assert Check(CheckAnswer(s, userAnswer), userAnswer) == Graded(true);
  }
}
