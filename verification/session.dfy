/** `GameViewModel`: the game session as an immutable state plus the countdown
    coroutine, and every transition as a pure function from state to state.
    The clock is a parameter (`nowMs`), and the coroutine's one-second delays are
    `Tick` events; the two-second pause before the next question is a later call
    of `NextQuestion`. */
module Session {
  import opened Wrappers
  import opened Numeric
  import opened Questions
  import opened Scoring
  import opened Performance

  /** `GameUiState`. */
  datatype GameUiState = GameUiState(
    currentQuestionIndex: int,
    questions: seq<Question>,
    userScore: int,
    selectedAnswer: Option<string>,
    isAnswerSubmitted: bool,
    gameFinished: bool,
    questionStartTime: Int64,
    timeRemaining: int,
    showCorrectAnswer: bool,
    showPerformanceDialog: bool,
    performanceStats: PerformanceStats,
    answeredQuestions: seq<AnsweredQuestion>)

  /** `timerJob`: cancelled or finished, or suspended in its one-second delay right
      after showing `time` seconds. */
  datatype Timer = Stopped | Counting(time: nat)

  datatype GameViewModel = GameViewModel(ui: GameUiState, timer: Timer)

  /** The default `GameUiState()`. */
  const InitialUiState: GameUiState :=
    GameUiState(0, [], 0, None, false, false, 0, QUESTION_TIME_LIMIT, false, false, InitialStats, [])

  /** `questions.getOrNull(currentQuestionIndex)`. */
  function CurrentQuestion(ui: GameUiState): (q: Option<Question>)
    ensures q.Some? <==> 0 <= ui.currentQuestionIndex < |ui.questions|
  {
    if 0 <= ui.currentQuestionIndex < |ui.questions| then Some(ui.questions[ui.currentQuestionIndex])
    else None
  }

  /** `startTimer`: cancels any running countdown and starts a new one from the
      limit. Its first updates run at once on the main dispatcher. */
  function StartTimer(vm: GameViewModel): (r: GameViewModel)
    ensures r.timer == Counting(QUESTION_TIME_LIMIT)
    ensures r.ui.timeRemaining == QUESTION_TIME_LIMIT && !r.ui.showCorrectAnswer
    ensures r.ui.(timeRemaining := vm.ui.timeRemaining, showCorrectAnswer := vm.ui.showCorrectAnswer)
            == vm.ui
  {
    GameViewModel(vm.ui.(timeRemaining := QUESTION_TIME_LIMIT, showCorrectAnswer := false),
                  Counting(QUESTION_TIME_LIMIT))
  }

  /** The `init` block: `loadQuestions` on a fresh state, which starts the timer. */
  function LoadQuestions(questions: seq<Question>, nowMs: Int64): (r: GameViewModel)
    ensures r.ui.questions == questions
    ensures r.ui.currentQuestionIndex == 0 && r.ui.userScore == 0
    ensures r.ui.answeredQuestions == [] && r.ui.selectedAnswer == None
    ensures !r.ui.isAnswerSubmitted && !r.ui.gameFinished
    ensures r.ui.questionStartTime == nowMs
    ensures r.timer == Counting(QUESTION_TIME_LIMIT) && r.ui.timeRemaining == QUESTION_TIME_LIMIT
    ensures !r.ui.showCorrectAnswer && !r.ui.showPerformanceDialog
    ensures r.ui.performanceStats == InitialStats
  {
    StartTimer(GameViewModel(
      InitialUiState.(questions := questions, questionStartTime := nowMs,
                      timeRemaining := QUESTION_TIME_LIMIT),
      Stopped))
  }

  /** `selectAnswer`: records the choice unless the answer is already submitted. */
  function SelectAnswer(vm: GameViewModel, answer: string): (r: GameViewModel)
    ensures vm.ui.isAnswerSubmitted ==> r == vm
    ensures !vm.ui.isAnswerSubmitted ==> r.ui.selectedAnswer == Some(answer)
    ensures r.timer == vm.timer
    ensures r.ui.(selectedAnswer := vm.ui.selectedAnswer) == vm.ui
  {
    if !vm.ui.isAnswerSubmitted then vm.(ui := vm.ui.(selectedAnswer := Some(answer))) else vm
  }

  /** `submitAnswer` at clock time `nowMs`: ignored once submitted or when there is
      no current question; otherwise stops the timer, grades the selection, floors
      the new score at zero and appends one record. */
  function SubmitAnswer(vm: GameViewModel, nowMs: Int64): (r: GameViewModel)
    ensures vm.ui.isAnswerSubmitted || CurrentQuestion(vm.ui).None? ==> r == vm
    ensures !vm.ui.isAnswerSubmitted && CurrentQuestion(vm.ui).Some? ==>
              var rec := SubmissionRecord(CurrentQuestion(vm.ui).value, vm.ui.selectedAnswer,
                                          ResponseSeconds(vm.ui.questionStartTime, nowMs));
              && r.ui.answeredQuestions == vm.ui.answeredQuestions + [rec]
              && r.ui.userScore == Max(0, vm.ui.userScore + rec.pointsEarned)
              && r.ui.isAnswerSubmitted && r.ui.showCorrectAnswer
              && r.timer == Stopped
              && r.ui.(isAnswerSubmitted := vm.ui.isAnswerSubmitted,
                       showCorrectAnswer := vm.ui.showCorrectAnswer,
                       userScore := vm.ui.userScore,
                       answeredQuestions := vm.ui.answeredQuestions) == vm.ui
  {
    if vm.ui.isAnswerSubmitted then vm
    else
      match CurrentQuestion(vm.ui)
      case None => vm
      case Some(q) =>
        var seconds := ResponseSeconds(vm.ui.questionStartTime, nowMs);
        var rec := SubmissionRecord(q, vm.ui.selectedAnswer, seconds);
        GameViewModel(
          vm.ui.(isAnswerSubmitted := true,
                 showCorrectAnswer := true,
                 userScore := CoerceAtLeast(vm.ui.userScore + rec.pointsEarned, 0),
                 answeredQuestions := vm.ui.answeredQuestions + [rec]),
          Stopped)
  }

  /** `handleTimeOut`: ignored when there is no current question; otherwise
      records a timed-out, wrong answer, clears the selection and floors the
      penalised score at zero. */
  function HandleTimeOut(vm: GameViewModel): (r: GameViewModel)
    ensures CurrentQuestion(vm.ui).None? ==> r == vm
    ensures CurrentQuestion(vm.ui).Some? ==>
              && r.ui.answeredQuestions
                 == vm.ui.answeredQuestions + [TimeOutRecord(CurrentQuestion(vm.ui).value)]
              && r.ui.userScore == Max(0, vm.ui.userScore + WRONG_PENALTY)
              && r.ui.selectedAnswer == None
              && r.ui.isAnswerSubmitted && r.ui.showCorrectAnswer
              && r.ui.(answeredQuestions := vm.ui.answeredQuestions,
                       userScore := vm.ui.userScore,
                       selectedAnswer := vm.ui.selectedAnswer,
                       isAnswerSubmitted := vm.ui.isAnswerSubmitted,
                       showCorrectAnswer := vm.ui.showCorrectAnswer) == vm.ui
    ensures r.timer == vm.timer
  {
    match CurrentQuestion(vm.ui)
    case None => vm
    case Some(q) =>
      GameViewModel(
        vm.ui.(isAnswerSubmitted := true,
               showCorrectAnswer := true,
               selectedAnswer := None,
               userScore := CoerceAtLeast(vm.ui.userScore + WRONG_PENALTY, 0),
               answeredQuestions := vm.ui.answeredQuestions + [TimeOutRecord(q)]),
        vm.timer)
  }

  /** The countdown is on its last second, nothing is submitted and a question is
      current: the next tick times the question out. */
  predicate TimesOut(vm: GameViewModel)
  {
    && vm.timer.Counting? && vm.timer.time <= 1
    && !vm.ui.isAnswerSubmitted
    && CurrentQuestion(vm.ui).Some?
  }

  /** One second of the countdown loop. Above one second it only counts down; the
      tick that reaches zero ends the coroutine, which times the question out if
      it is still unanswered. */
  function Tick(vm: GameViewModel): (r: GameViewModel)
    ensures vm.timer.Stopped? ==> r == vm
    ensures vm.timer.Counting? && vm.timer.time > 1 ==>
              r == GameViewModel(vm.ui.(timeRemaining := vm.timer.time - 1), Counting(vm.timer.time - 1))
    ensures vm.timer.Counting? && vm.timer.time <= 1 ==> r.timer == Stopped && r.ui.timeRemaining == 0
    ensures TimesOut(vm) <==> |r.ui.answeredQuestions| == |vm.ui.answeredQuestions| + 1
    ensures TimesOut(vm) ==>
              && r.ui.answeredQuestions
                 == vm.ui.answeredQuestions + [TimeOutRecord(CurrentQuestion(vm.ui).value)]
              && r.ui.userScore == Max(0, vm.ui.userScore + WRONG_PENALTY)
              && r.ui.selectedAnswer == None
              && r.ui.isAnswerSubmitted && r.ui.showCorrectAnswer
    ensures TimesOut(vm) ==>
              r.ui.(timeRemaining := vm.ui.timeRemaining,
                    answeredQuestions := vm.ui.answeredQuestions,
                    userScore := vm.ui.userScore,
                    selectedAnswer := vm.ui.selectedAnswer,
                    isAnswerSubmitted := vm.ui.isAnswerSubmitted,
                    showCorrectAnswer := vm.ui.showCorrectAnswer) == vm.ui
    ensures !TimesOut(vm) ==>
              && r.ui.answeredQuestions == vm.ui.answeredQuestions
              && r.ui.userScore == vm.ui.userScore
              && r.ui.selectedAnswer == vm.ui.selectedAnswer
              && r.ui.isAnswerSubmitted == vm.ui.isAnswerSubmitted
    ensures vm.timer.Counting? && vm.timer.time <= 1 && !TimesOut(vm) ==>
              r.ui == vm.ui.(timeRemaining := 0)
    ensures r.ui.currentQuestionIndex == vm.ui.currentQuestionIndex && r.ui.questions == vm.ui.questions
  {
    match vm.timer
    case Stopped => vm
    case Counting(t) =>
      if t > 1 then GameViewModel(vm.ui.(timeRemaining := t - 1), Counting(t - 1))
      else
        var expired := GameViewModel(vm.ui.(timeRemaining := 0), Stopped);
        if expired.ui.isAnswerSubmitted then expired else HandleTimeOut(expired)
  }

  /** `calculatePerformanceStats`: leaves the state alone when nothing was answered. */
  function CalculatePerformanceStats(ui: GameUiState): (r: GameUiState)
    ensures ui.answeredQuestions == [] ==> r == ui
    ensures ui.answeredQuestions != [] ==>
              && r.performanceStats.totalCorrect + r.performanceStats.totalWrong
                 == |ui.answeredQuestions|
              && r.performanceStats.fastestAnswer <= r.performanceStats.slowestAnswer
              && r.performanceStats == ComputeStats(ui.answeredQuestions)
    ensures r.(performanceStats := ui.performanceStats) == ui
  {
    if |ui.answeredQuestions| == 0 then ui
    else ui.(performanceStats := ComputeStats(ui.answeredQuestions))
  }

  /** `nextQuestion` at clock time `nowMs`: moves to the following question and
      restarts the timer, or, after the last one, computes the summary and
      finishes the game. */
  function NextQuestion(vm: GameViewModel, nowMs: Int64): (r: GameViewModel)
    ensures vm.ui.currentQuestionIndex + 1 < |vm.ui.questions| ==>
              && r.ui.currentQuestionIndex == vm.ui.currentQuestionIndex + 1
              && r.ui.selectedAnswer == None
              && !r.ui.isAnswerSubmitted && !r.ui.showCorrectAnswer
              && r.ui.questionStartTime == nowMs
              && r.ui.timeRemaining == QUESTION_TIME_LIMIT
              && r.timer == Counting(QUESTION_TIME_LIMIT)
              && r.ui.(currentQuestionIndex := vm.ui.currentQuestionIndex,
                       selectedAnswer := vm.ui.selectedAnswer,
                       isAnswerSubmitted := vm.ui.isAnswerSubmitted,
                       showCorrectAnswer := vm.ui.showCorrectAnswer,
                       questionStartTime := vm.ui.questionStartTime,
                       timeRemaining := vm.ui.timeRemaining) == vm.ui
    ensures vm.ui.currentQuestionIndex + 1 >= |vm.ui.questions| ==>
              && r.ui.currentQuestionIndex == vm.ui.currentQuestionIndex
              && r.ui.gameFinished && r.ui.showPerformanceDialog
              && r.ui.performanceStats == CalculatePerformanceStats(vm.ui).performanceStats
              && r.timer == vm.timer
              && r.ui.(performanceStats := vm.ui.performanceStats,
                       gameFinished := vm.ui.gameFinished,
                       showPerformanceDialog := vm.ui.showPerformanceDialog) == vm.ui
    ensures r.ui.userScore == vm.ui.userScore
    ensures r.ui.answeredQuestions == vm.ui.answeredQuestions
    ensures r.ui.questions == vm.ui.questions
  {
    var nextIndex := vm.ui.currentQuestionIndex + 1;
    if nextIndex < |vm.ui.questions| then
      StartTimer(GameViewModel(
        vm.ui.(currentQuestionIndex := nextIndex,
               selectedAnswer := None,
               isAnswerSubmitted := false,
               showCorrectAnswer := false,
               questionStartTime := nowMs),
        vm.timer))
    else
      GameViewModel(
        CalculatePerformanceStats(vm.ui).(gameFinished := true, showPerformanceDialog := true),
        vm.timer)
  }

  /** `dismissPerformanceDialog`: hides the summary and changes nothing else. */
  function DismissPerformanceDialog(vm: GameViewModel): (r: GameViewModel)
    ensures !r.ui.showPerformanceDialog
    ensures r.ui.(showPerformanceDialog := vm.ui.showPerformanceDialog) == vm.ui
    ensures r.timer == vm.timer
  {
    vm.(ui := vm.ui.(showPerformanceDialog := false))
  }

  /** `exitGame`: cancels the timer and returns to the default, empty state, in
      which no question is current. */
  function ExitGame(vm: GameViewModel): (r: GameViewModel)
    ensures r.timer == Stopped
    ensures r.ui.questions == [] && CurrentQuestion(r.ui).None?
    ensures r.ui.currentQuestionIndex == 0 && r.ui.selectedAnswer == None
    ensures r.ui.userScore == 0 && r.ui.answeredQuestions == []
    ensures r.ui.performanceStats == InitialStats
    ensures !r.ui.isAnswerSubmitted && !r.ui.showCorrectAnswer
    ensures !r.ui.gameFinished && !r.ui.showPerformanceDialog
    ensures r.ui.questionStartTime == 0 && r.ui.timeRemaining == QUESTION_TIME_LIMIT
  {
    GameViewModel(InitialUiState, Stopped)
  }
}
