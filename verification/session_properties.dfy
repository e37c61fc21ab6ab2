/** Properties of whole sessions: the events that drive the view-model, the
    invariant every reachable state keeps, the idempotence of the guards, the
    countdown, and end-to-end scenarios. */
module SessionProperties {
  import opened Wrappers
  import opened Numeric
  import opened Questions
  import opened Scoring
  import opened Performance
  import opened Session

  /** What can happen to a session: the player's taps, a second of the countdown,
      the delayed (or direct) call of `nextQuestion`, and the dialog's buttons. */
  datatype Event =
    | Select(answer: string)
    | Submit(nowMs: Int64)
    | TimerTick
    | Advance(nowMs: Int64)
    | DismissDialog
    | Exit

  function Step(vm: GameViewModel, e: Event): (r: GameViewModel)
  {
    match e
    case Select(a) => SelectAnswer(vm, a)
    case Submit(t) => SubmitAnswer(vm, t)
    case TimerTick => Tick(vm)
    case Advance(t) => NextQuestion(vm, t)
    case DismissDialog => DismissPerformanceDialog(vm)
    case Exit => ExitGame(vm)
  }

  function Run(vm: GameViewModel, events: seq<Event>): (r: GameViewModel)
    decreases |events|
  {
    if |events| == 0 then vm else Run(Step(vm, events[0]), events[1..])
  }

  /** What every reachable state satisfies: the score is never negative and never
      below the points its records earned (flooring only ever adds), every record
      follows the scoring rule, the index stays on the list, and a running
      countdown shows its own time on an unanswered question. */
  predicate Valid(vm: GameViewModel)
  {
    && 0 <= vm.ui.userScore
    && SumPoints(vm.ui.answeredQuestions) <= vm.ui.userScore
    && AllWellFormed(vm.ui.answeredQuestions)
    && 0 <= vm.ui.timeRemaining <= QUESTION_TIME_LIMIT
    && 0 <= vm.ui.currentQuestionIndex
    && (vm.ui.currentQuestionIndex < |vm.ui.questions|
        || (vm.ui.questions == [] && vm.ui.currentQuestionIndex == 0))
    && (vm.timer.Counting? ==>
          && 1 <= vm.timer.time <= QUESTION_TIME_LIMIT
          && vm.ui.timeRemaining == vm.timer.time
          && !vm.ui.isAnswerSubmitted)
  }

  lemma AppendKeepsWellFormed(rs: seq<AnsweredQuestion>, rec: AnsweredQuestion)
    requires AllWellFormed(rs) && WellFormedRecord(rec)
    ensures AllWellFormed(rs + [rec])
  {
    assert forall i :: 0 <= i < |rs| ==> (rs + [rec])[i] == rs[i];
  }

  /** A freshly loaded session is valid. */
  lemma LoadedSessionIsValid(questions: seq<Question>, nowMs: Int64)
    ensures Valid(LoadQuestions(questions, nowMs))
  {
  }

  /** Every event keeps the invariant. */
  lemma StepPreservesValid(vm: GameViewModel, e: Event)
    requires Valid(vm)
    ensures Valid(Step(vm, e))
  {
    match e
    case Submit(t) =>
      if !vm.ui.isAnswerSubmitted && CurrentQuestion(vm.ui).Some? {
        var q := CurrentQuestion(vm.ui).value;
        var seconds := ResponseSeconds(vm.ui.questionStartTime, t);
        var rec := SubmissionRecord(q, vm.ui.selectedAnswer, seconds);
        RecordsAreWellFormed(q, vm.ui.selectedAnswer, seconds);
        SumPointsAppend(vm.ui.answeredQuestions, rec);
        AppendKeepsWellFormed(vm.ui.answeredQuestions, rec);
      }
    case TimerTick =>
      if TimesOut(vm) {
        var q := CurrentQuestion(vm.ui).value;
        RecordsAreWellFormed(q, None, 0);
        SumPointsAppend(vm.ui.answeredQuestions, TimeOutRecord(q));
        AppendKeepsWellFormed(vm.ui.answeredQuestions, TimeOutRecord(q));
      }
    case _ =>
  }

  /** Every sequence of events keeps the invariant; in particular the score never
      goes below zero. */
  lemma {:induction false} RunPreservesValid(vm: GameViewModel, events: seq<Event>)
    requires Valid(vm)
    ensures Valid(Run(vm, events))
    ensures Run(vm, events).ui.userScore >= 0
    decreases |events|
  {
    if |events| > 0 {
      StepPreservesValid(vm, events[0]);
      RunPreservesValid(Step(vm, events[0]), events[1..]);
    }
  }

  /** From the moment the questions are loaded, no sequence of events makes the
      score negative. */
  lemma ScoreNeverNegative(questions: seq<Question>, nowMs: Int64, events: seq<Event>)
    ensures Run(LoadQuestions(questions, nowMs), events).ui.userScore >= 0
  {
    LoadedSessionIsValid(questions, nowMs);
    RunPreservesValid(LoadQuestions(questions, nowMs), events);
  }

  /** In a valid state the out-of-range guard only fires for an empty question
      list, such as the one `exitGame` leaves. */
  lemma NoCurrentQuestionOnlyWhenEmpty(vm: GameViewModel)
    requires Valid(vm)
    ensures CurrentQuestion(vm.ui).None? <==> vm.ui.questions == []
  {
  }

  /** A second submission, whenever it comes, changes nothing. */
  lemma SubmitIsIdempotent(vm: GameViewModel, t1: Int64, t2: Int64)
    ensures SubmitAnswer(SubmitAnswer(vm, t1), t2) == SubmitAnswer(vm, t1)
  {
  }

  /** Once the question has timed out, submitting and selecting change nothing. */
  lemma TimedOutQuestionIgnoresInput(vm: GameViewModel, t: Int64, answer: string)
    requires TimesOut(vm)
    ensures SubmitAnswer(Tick(vm), t) == Tick(vm)
    ensures SelectAnswer(Tick(vm), answer) == Tick(vm)
  {
  }

  /** After a submission the timer is stopped, so later ticks change nothing and
      no timeout can be recorded. */
  lemma SubmittedQuestionCannotTimeOut(vm: GameViewModel, t: Int64)
    requires !vm.ui.isAnswerSubmitted && CurrentQuestion(vm.ui).Some?
    ensures Tick(SubmitAnswer(vm, t)) == SubmitAnswer(vm, t)
  {
  }

  /** `k` seconds of the countdown. */
  function Ticks(vm: GameViewModel, k: nat): (r: GameViewModel)
    decreases k
  {
    if k == 0 then vm else Ticks(Tick(vm), k - 1)
  }

  /** While more than `k` seconds remain, `k` ticks only count down. */
  lemma {:induction false} CountingDown(vm: GameViewModel, k: nat)
    requires vm.timer.Counting? && k < vm.timer.time
    requires vm.ui.timeRemaining == vm.timer.time
    ensures Ticks(vm, k) == GameViewModel(vm.ui.(timeRemaining := vm.timer.time - k),
                                          Counting(vm.timer.time - k))
    decreases k
  {
    if k > 0 {
      CountingDown(Tick(vm), k - 1);
    }
  }

  /** A freshly started countdown on an unanswered question expires on exactly
      the twentieth tick, recording a time-out worth -5 points. */
  lemma TimeOutAfterTwentySeconds(vm: GameViewModel)
    requires vm.timer == Counting(QUESTION_TIME_LIMIT) && vm.ui.timeRemaining == QUESTION_TIME_LIMIT
    requires !vm.ui.isAnswerSubmitted && CurrentQuestion(vm.ui).Some?
    ensures Ticks(vm, QUESTION_TIME_LIMIT - 1).ui.answeredQuestions == vm.ui.answeredQuestions
    ensures var r := Ticks(vm, QUESTION_TIME_LIMIT);
            && r.ui.answeredQuestions
               == vm.ui.answeredQuestions + [TimeOutRecord(CurrentQuestion(vm.ui).value)]
            && r.ui.userScore == Max(0, vm.ui.userScore + WRONG_PENALTY)
            && r.ui.timeRemaining == 0 && r.timer == Stopped
  {
    var before := Ticks(vm, QUESTION_TIME_LIMIT - 1);
    CountingDown(vm, QUESTION_TIME_LIMIT - 1);
    assert before == GameViewModel(vm.ui.(timeRemaining := 1), Counting(1));
    assert CurrentQuestion(before.ui) == CurrentQuestion(vm.ui);
    assert TimesOut(before);
    TicksSplit(vm, QUESTION_TIME_LIMIT - 1);
    assert Ticks(vm, QUESTION_TIME_LIMIT) == Tick(before);
  }

  lemma {:induction false} TicksSplit(vm: GameViewModel, k: nat)
    ensures Ticks(vm, k + 1) == Tick(Ticks(vm, k))
    decreases k
  {
    if k > 0 {
      TicksSplit(Tick(vm), k - 1);
    }
  }

  /** The two example questions the scenarios play, with options already in order. */
  const Capital: Question :=
    assert !Text.IsWhitespace("Capital of Myanmar?"[0]);
    assert |["Naypyidaw", "Dili"]| == 2 && "Naypyidaw" != "Dili";
    QuizQuestion("Capital of Myanmar?", ["Naypyidaw", "Dili"], 0, None)

  /** One question, the correct answer tapped one second in: 10 points plus a
      bonus of 1. */
  lemma CorrectAnswerAfterOneSecond()
    ensures var vm := SubmitAnswer(SelectAnswer(LoadQuestions([Capital], 0), "Naypyidaw"), 1000);
            && vm.ui.userScore == 11
            && vm.ui.answeredQuestions
               == [AnsweredQuestion("Capital of Myanmar?", "Naypyidaw", "Naypyidaw", true, 1, 1, 11)]
  {
  }

  /** One question, nothing chosen, the countdown runs out: a wrong "Time Out"
      record and a score floored at zero. */
  lemma UnansweredQuestionTimesOut()
    ensures var vm := Ticks(LoadQuestions([Capital], 0), QUESTION_TIME_LIMIT);
            && vm.ui.userScore == 0
            && vm.ui.answeredQuestions
               == [AnsweredQuestion("Capital of Myanmar?", TIME_OUT, "Naypyidaw", false, 20, 0, -5)]
  {
    TimeOutAfterTwentySeconds(LoadQuestions([Capital], 0));
  }

  const FirstOfTwo := AnsweredQuestion("Capital of Myanmar?", "Naypyidaw", "Naypyidaw", true, 3, 2, 12)
  const SecondOfTwo := AnsweredQuestion("Capital of Myanmar?", "Naypyidaw", "Naypyidaw", true, 11, 6, 16)

  /** The second of two questions on screen, shown at 5 s after the first was
      answered correctly. */
  const SecondShown := GameViewModel(
    InitialUiState.(questions := [Capital, Capital], currentQuestionIndex := 1, userScore := 12,
                    questionStartTime := 5000, answeredQuestions := [FirstOfTwo]),
    Counting(QUESTION_TIME_LIMIT))

  /** The first of two questions answered correctly after 3 s (10 points plus a
      bonus of 2), then the delayed advance at 5 s: the second question is shown
      with a fresh countdown. */
  lemma FirstOfTwoAnsweredAfterThreeSeconds()
    ensures var vm0 := LoadQuestions([Capital, Capital], 0);
            NextQuestion(SubmitAnswer(SelectAnswer(vm0, "Naypyidaw"), 3000), 5000) == SecondShown
  {
    var a := SubmitAnswer(SelectAnswer(LoadQuestions([Capital, Capital], 0), "Naypyidaw"), 3000);
    assert a.ui.answeredQuestions == [FirstOfTwo] && a.ui.userScore == 12;
  }

  /** The second question answered correctly 11 s after it was shown (10 points
      plus a bonus of 6). */
  lemma SecondOfTwoAnsweredAfterElevenSeconds()
    ensures var b := SubmitAnswer(SelectAnswer(SecondShown, "Naypyidaw"), 16000);
            && b.ui.answeredQuestions == [FirstOfTwo, SecondOfTwo] && b.ui.userScore == 28
            && b.ui.questions == [Capital, Capital] && b.ui.currentQuestionIndex == 1
  {
  }

  /** Two questions both answered correctly, after 3 s and after 11 s, each
      followed by the delayed advance: the game finishes with two correct answers,
      no wrong ones, and 10 + 2 + 10 + 6 points. */
  lemma TwoCorrectAnswersFinishTheGame()
    ensures var vm0 := LoadQuestions([Capital, Capital], 0);
            var vm1 := NextQuestion(SubmitAnswer(SelectAnswer(vm0, "Naypyidaw"), 3000), 5000);
            var vm2 := NextQuestion(SubmitAnswer(SelectAnswer(vm1, "Naypyidaw"), 16000), 18000);
            && vm2.ui.gameFinished && vm2.ui.showPerformanceDialog
            && vm2.ui.performanceStats.totalCorrect == 2
            && vm2.ui.performanceStats.totalWrong == 0
            && vm2.ui.userScore == 28
  {
    FirstOfTwoAnsweredAfterThreeSeconds();
    SecondOfTwoAnsweredAfterElevenSeconds();
    assert CorrectAnswers([FirstOfTwo, SecondOfTwo]) == [FirstOfTwo, SecondOfTwo];
    assert WrongAnswers([FirstOfTwo, SecondOfTwo]) == [];
  }
}
