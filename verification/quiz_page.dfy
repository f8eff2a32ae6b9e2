/** The page of script.js as an object: the three module-level variables
    become fields that the handlers update in place, the 'active' class of
    the four screen elements becomes an array of flags, and the text
    elements the handlers write become fields. Each handler is proved to
    leave exactly the state the matching function of module Quiz gives. */
module QuizPage {
  import opened Shuffling
  import opened Quiz
  import opened Plays

  /** The position of a screen in the `screens` list of showScreen. */
  function Slot(s: Screen): (k: nat)
    ensures k < 4
  {
    match s
    case StartScreen => 0
    case QuizScreen => 1
    case ExplanationScreen => 2
    case ResultScreen => 3
  }

  class Page {
    var questions: seq<Question>
    var currentQuestionIndex: nat
    var correctCount: nat
    /** active[k]: whether screen element k carries the 'active' class. */
    const active: array<bool>
    /** The screen that carries it. */
    ghost var shown: Screen
    var questionText: string
    var verdict: Verdict
    var explanationText: string
    var scoreText: ScoreLine

    /** Exactly one screen element is active: the one `shown` names. */
    ghost predicate Valid()
      reads this, active
    {
      active.Length == 4 && forall k :: 0 <= k < 4 ==> (active[k] <==> k == Slot(shown))
    }

    ghost function State(): Session
      reads this
    {
      Session(questions, currentQuestionIndex, correctCount, shown,
              questionText, verdict, explanationText, scoreText)
    }

    /** The page as it stands once the script has run: the empty session,
        with the start screen shown (the call at the end of the script). */
    constructor ()
      ensures Valid() && fresh(active)
      ensures State() == Initial()
    {
      questions := [];
      currentQuestionIndex := 0;
      correctCount := 0;
      active := new bool[4];
      questionText, verdict, explanationText, scoreText := "", NoVerdict, "", NoScore;
      new;
      ShowScreen(StartScreen);
    }

    /** showScreen: clear 'active' on every screen, then set it on the
        target, so that the target is the one active screen. */
    method ShowScreen(target: Screen)
      requires active.Length == 4
      modifies this`shown, active
      ensures Valid() && shown == target
    {
      for k := 0 to active.Length
        invariant forall j :: 0 <= j < k ==> !active[j]
      {
        active[k] := false;
      }
      active[Slot(target)] := true;
      shown := target;
    }

    /** loadQuestions, with the request's outcome and the sort's random
        answers given. */
    method LoadQuestions(fetch: Fetch, random: seq<nat>)
      requires Valid()
      modifies this`questions
      ensures Valid()
      ensures State() == Quiz.LoadQuestions(old(State()), fetch, random)
    {
      match fetch {
        case Fetched(data) =>
          questions := Shuffle(data, random);
        case FetchFailed =>
      }
    }

    method StartQuiz(fetch: Fetch, random: seq<nat>)
      requires Valid()
      modifies this, active
      ensures Valid()
      ensures State() == Quiz.StartQuiz(old(State()), fetch, random)
    {
      currentQuestionIndex := 0;
      correctCount := 0;
      LoadQuestions(fetch, random);
      if |questions| > 0 {
        DisplayQuestion();
        ShowScreen(QuizScreen);
      }
    }

    method DisplayQuestion()
      requires Valid()
      modifies this, active
      ensures Valid()
      ensures State() == Quiz.DisplayQuestion(old(State()))
    {
      if currentQuestionIndex < |questions| {
        questionText := questions[currentQuestionIndex].text;
      } else {
        ShowResult();
      }
    }

    /** checkAnswer: besides the new state, it reports the grade, or the
        TypeError thrown (before anything is written) when no question sits
        at the cursor. */
    method CheckAnswer(userAnswer: bool) returns (outcome: Outcome)
      requires Valid()
      modifies this, active
      ensures Valid()
      ensures outcome == Check(old(State()), userAnswer)
      ensures State() == Quiz.CheckAnswer(old(State()), userAnswer)
    {
      if currentQuestionIndex >= |questions| {
        return TypeError;
      }
      var current := questions[currentQuestionIndex];
      var isCorrect := Grade(userAnswer, current.answer);
      if isCorrect {
        correctCount := correctCount + 1;
        verdict := Correct;
      } else {
        verdict := Incorrect;
      }
      explanationText := current.explanation;
      ShowScreen(ExplanationScreen);
      outcome := Graded(isCorrect);
    }

    method GoToNextQuestion()
      requires Valid()
      modifies this, active
      ensures Valid()
      ensures State() == Quiz.GoToNextQuestion(old(State()))
    {
      currentQuestionIndex := currentQuestionIndex + 1;
      DisplayQuestion();
      if currentQuestionIndex < |questions| {
        ShowScreen(QuizScreen);
      }
    }

    method ShowResult()
      requires Valid()
      modifies this, active
      ensures Valid()
      ensures State() == Quiz.ShowResult(old(State()))
    {
      scoreText := Score(|questions|, correctCount);
      ShowScreen(ResultScreen);
    }

    method ResetApp()
      requires Valid()
      modifies this, active
      ensures Valid()
      ensures State() == Quiz.ResetApp(old(State()))
    {
      currentQuestionIndex := 0;
      correctCount := 0;
      questions := [];
      ShowScreen(StartScreen);
    }

    /** A click on a button: it acts only when its screen element is the
        active one, and then runs the handler bound to it. Consistency of
        the session is kept. */
    method OnClick(c: Click)
      requires Valid()
      modifies this, active
      ensures Valid()
      ensures State() == Step(old(State()), c)
      ensures old(Consistent(State())) ==> Consistent(State())
    {
      ghost var before := State();
      if active[Slot(Home(c))] {
        match c {
          case StartClick(fetch, random) => StartQuiz(fetch, random);
          case MaruClick => var _ := CheckAnswer(true);
          case BatsuClick => var _ := CheckAnswer(false);
          case NextClick => GoToNextQuestion();
          case BackFromQuizClick => ResetApp();
          case BackFromExplanationClick => ResetApp();
          case BackFromResultClick => ResetApp();
        }
      }
      if Consistent(before) {
        StepKeepsConsistent(before, c);
      }
    }
  }
}
