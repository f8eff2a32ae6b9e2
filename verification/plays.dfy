/** The buttons of the page and what a sequence of clicks does to the
    session. A button sits on one screen and can be clicked only while that
    screen carries the 'active' class (the others are hidden); its click
    runs the handler the listeners of script.js bind to it. */
module Plays {
  import opened Shuffling
  import opened Quiz

  /** A click on one of the seven buttons. Clicking start carries what the
      question request returns and the random answers of the sort. */
  datatype Click =
    | StartClick(fetch: Fetch, random: seq<nat>)
    | MaruClick
    | BatsuClick
    | NextClick
    | BackFromQuizClick
    | BackFromExplanationClick
    | BackFromResultClick

  /** The screen each button is placed on. */
  function Home(c: Click): Screen {
    match c
    case StartClick(_, _) => StartScreen
    case MaruClick => QuizScreen
    case BatsuClick => QuizScreen
    case NextClick => ExplanationScreen
    case BackFromQuizClick => QuizScreen
    case BackFromExplanationClick => ExplanationScreen
    case BackFromResultClick => ResultScreen
  }

  /** The handler bound to each button: ○ answers true, × answers false,
      and the three back buttons all reset. */
  function Handle(s: Session, c: Click): Session {
    match c
    case StartClick(fetch, random) => StartQuiz(s, fetch, random)
    case MaruClick => CheckAnswer(s, true)
    case BatsuClick => CheckAnswer(s, false)
    case NextClick => GoToNextQuestion(s)
    case BackFromQuizClick => ResetApp(s)
    case BackFromExplanationClick => ResetApp(s)
    case BackFromResultClick => ResetApp(s)
  }

  /** A click on a hidden button does nothing. */
  function Step(s: Session, c: Click): (r: Session)
    ensures s.screen != Home(c) ==> r == s
    ensures s.screen == Home(c) ==> r == Handle(s, c)
  {
    if s.screen == Home(c) then Handle(s, c) else s
  }

  function Run(s: Session, clicks: seq<Click>): Session
    decreases |clicks|
  {
    if clicks == [] then s else Run(Step(s, clicks[0]), clicks[1..])
  }

  lemma InitialIsConsistent()
    ensures Consistent(Initial())
  {
  }

  /** Every click keeps the session consistent. */
  lemma StepKeepsConsistent(s: Session, c: Click)
    requires Consistent(s)
    ensures Consistent(Step(s, c))
  {
  }

  /** However many clicks follow, the session stays consistent; in
      particular the count never exceeds the cursor by more than one and
      the result screen never reports more correct answers than questions. */
  lemma {:induction false} RunKeepsConsistent(s: Session, clicks: seq<Click>)
    requires Consistent(s)
    ensures Consistent(Run(s, clicks))
    decreases |clicks|
  {
    if clicks != [] {
      StepKeepsConsistent(s, clicks[0]);
      RunKeepsConsistent(Step(s, clicks[0]), clicks[1..]);
    }
  }

  lemma {:induction false} RunAppend(s: Session, first: seq<Click>, later: seq<Click>)
    ensures Run(s, first + later) == Run(Run(s, first), later)
    decreases |first|
  {
    if first == [] {
      assert first + later == later;
    } else {
      assert (first + later)[1..] == first[1..] + later;
      RunAppend(Step(s, first[0]), first[1..], later);
    }
  }

  /** An answer click never meets the TypeError of checkAnswer, and a
      second answer click on the same question is ignored, since the
      answer buttons are hidden once the explanation screen is shown: the
      count grows by at most one per question. */
  lemma AnswerCountsOncePerQuestion(s: Session, first: Click, second: Click)
    requires Consistent(s) && s.screen == QuizScreen
    requires first == MaruClick || first == BatsuClick
    requires second == MaruClick || second == BatsuClick
    ensures Check(s, first == MaruClick).Graded?
    ensures Run(s, [first, second]) == Step(s, first)
    ensures Step(s, first).correctCount <= s.correctCount + 1
  {
    assert Step(s, first).screen == ExplanationScreen;
    assert Run(Step(s, first), [second][1..]) == Step(s, first);
  }

  /** The clicks of a player who answers each question in turn (○ for
      true, × for false) and then moves on. */
  function Play(answers: seq<bool>): (clicks: seq<Click>)
    ensures |clicks| == 2 * |answers|
  {
    if answers == [] then []
    else [if answers[0] then MaruClick else BatsuClick, NextClick] + Play(answers[1..])
  }

  /** The number of answers that checkAnswer accepts. */
  function Tally(qs: seq<Question>, answers: seq<bool>): (n: nat)
    requires |answers| == |qs|
    ensures n <= |qs|
  {
    if qs == [] then 0
    else (if Grade(answers[0], qs[0].answer) then 1 else 0) + Tally(qs[1..], answers[1..])
  }

  /** Playing out the rest of a quiz from the question at the cursor ends
      on the result screen, whose score line reports the whole list and the
      count so far plus the number of remaining answers the rule accepts. */
  lemma {:induction false} PlayScoresTally(s: Session, answers: seq<bool>)
    requires s.screen == QuizScreen && s.index < |s.questions|
    requires |answers| == |s.questions| - s.index
    ensures Run(s, Play(answers)).screen == ResultScreen
    ensures Run(s, Play(answers)).score
         == Score(|s.questions|, s.correctCount + Tally(s.questions[s.index..], answers))
    decreases |answers|
  {
    var click := if answers[0] then MaruClick else BatsuClick;
    var answered := Step(s, click);
    assert answered == CheckAnswer(s, answers[0]);
    var moved := Step(answered, NextClick);
    assert moved == GoToNextQuestion(answered);
    var rest := s.questions[s.index..];
    assert rest[0] == s.questions[s.index] && rest[1..] == s.questions[s.index + 1..];
    var gained := if Grade(answers[0], rest[0].answer) then 1 else 0;
    assert moved.correctCount == s.correctCount + gained;
    assert Play(answers) == [click, NextClick] + Play(answers[1..]);
    RunAppend(s, [click, NextClick], Play(answers[1..]));
    assert Run(s, [click, NextClick]) == moved by {
      assert [click, NextClick][1..] == [NextClick];
      assert Run(moved, [NextClick][1..]) == moved;
    }
    if |answers| == 1 {
      assert Play(answers[1..]) == [];
      assert Tally(rest, answers) == gained;
    } else {
      PlayScoresTally(moved, answers[1..]);
    }
  }

  /** The answers a player gives when following the rule of checkAnswer. */
  function Intended(qs: seq<Question>): (answers: seq<bool>)
    ensures |answers| == |qs|
    ensures forall i :: 0 <= i < |qs| ==> answers[i] == StoredTrue(qs[i].answer)
  {
    if qs == [] then [] else [StoredTrue(qs[0].answer)] + Intended(qs[1..])
  }

  lemma {:induction false} IntendedTallyIsFull(qs: seq<Question>)
    ensures Tally(qs, Intended(qs)) == |qs|
  {
    if qs != [] {
      assert Intended(qs)[1..] == Intended(qs[1..]);
      IntendedTallyIsFull(qs[1..]);
    }
  }

  /** When every answer is stored as the native boolean true (a BOOLEAN
      column) and the player answers ○ every time, the rule accepts none
      of the answers. */
  lemma {:induction false} NativeTrueTallyIsZero(qs: seq<Question>, answers: seq<bool>)
    requires |answers| == |qs|
    requires forall i :: 0 <= i < |qs| ==> qs[i].answer == BoolAnswer(true) && answers[i]
    ensures Tally(qs, answers) == 0
  {
    if qs != [] {
      NativeTrueTallyIsZero(qs[1..], answers[1..]);
    }
  }

  /** From the start screen, a successful load of a non-empty list followed
      by a full play ends on the result screen reporting every question,
      with a score equal to the number of accepted answers; a player who
      follows the rule scores every question. */
  lemma StartAndPlay(s: Session, data: seq<Question>, random: seq<nat>, answers: seq<bool>)
    requires s.screen == StartScreen && |data| > 0 && |answers| == |data|
    ensures var clicks := [StartClick(Fetched(data), random)] + Play(answers);
      var shuffled := Shuffle(data, random);
      && Run(s, clicks).screen == ResultScreen
      && Run(s, clicks).score == Score(|data|, Tally(shuffled, answers))
      && (answers == Intended(shuffled) ==> Run(s, clicks).score == Score(|data|, |data|))
  {
    var start := StartClick(Fetched(data), random);
    var started := Step(s, start);
    assert started == StartQuiz(s, Fetched(data), random);
    RunAppend(s, [start], Play(answers));
    assert Run(started, [start][1..]) == started;
    PlayScoresTally(started, answers);
    assert started.questions[0..] == Shuffle(data, random);
    if answers == Intended(Shuffle(data, random)) {
      IntendedTallyIsFull(Shuffle(data, random));
    }
  }
}
