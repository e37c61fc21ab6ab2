# Bhubishwo quiz session, modelled in Dafny

Bhubishwo is a timed, single-player multiple-choice quiz for Android. This
project models its logic core:

- the game session of `GameViewModel` — the immutable `GameUiState`, the
  countdown coroutine, and the transitions `selectAnswer`, `submitAnswer`,
  `handleTimeOut`, `nextQuestion`, `calculatePerformanceStats`,
  `dismissPerformanceDialog` and `exitGame`, with their scoring rules
  (+10 plus a time bonus for a correct answer, −5 otherwise, score floored at 0);
- the `QuizQuestion` factory, which validates a question, shuffles its options
  and re-locates the correct answer;
- the `User` record's `init` validation and its `isActive` and `level` getters.

Every transition is a pure function from state to state. Three things become
explicit inputs:

- **The clock.** `System.currentTimeMillis()` becomes a `nowMs` parameter of
  `LoadQuestions`, `SubmitAnswer` and `NextQuestion`.
- **The countdown coroutine.** It becomes `Timer = Stopped | Counting(time)`.
  Each one-second `delay` is a `Tick`. The tick that reaches zero ends the
  coroutine and runs `handleTimeOut` when the question is still unanswered.
- **The two-second pause.** After a submission or a time-out the code waits two
  seconds and then calls `nextQuestion`. That call is an `Advance` event, and
  `nextQuestion` is public anyway.

`SessionProperties.Event`, `Step` and `Run` replay any sequence of these events.

Kotlin's fixed-width arithmetic is written out where it changes a result (module
`Numeric`):

- the `Long` subtraction of the two timestamps;
- the truncating `/ 1000`;
- `Long.toInt()`.

The options are shuffled with `List.shuffled()`, which runs
`java.util.Collections.shuffle`. It is JDK library code, outside the app; it is
modelled as its documented Fisher–Yates loop: for i from the size
down to 2, swap slot i−1 with slot `nextInt(i)`. The values `nextInt` returns
are an input, `draws`. `Shuffling.DrawsFor` shows that every permutation is
reachable, so the factory's shuffle is an arbitrary permutation.

Both invariants hold for every value, so both records are subset types:
`Questions.Question` and `Users.User`. `QuizQuestion`'s constructor is private
and only its factory builds one. `User`'s constructor is public, but its `init`
block runs on every construction, `copy()` included, and rejects invalid fields.

Three facts about the code shape the model:

- The code has no restart operation.
- `handleTimeOut` records `"Time Out"` with 20 s and clears the selection,
  unlike a submission without an answer, which records `"No Answer"`.
- Finishing with no records leaves the statistics unchanged.

## Model

| member | source | states |
|---|---|---|
| Lists.DistinctKeepsLengthIff | app/src/main/java/com/nidoham/bhubishwo/domain/QuizQuestion.kt:18 | `options.size == options.distinct().size` holds exactly when no option occurs twice (both directions) |
| Lists.IndexOf | app/src/main/java/com/nidoham/bhubishwo/domain/QuizQuestion.kt:23 | `indexOf` returns -1 exactly when the value is absent, otherwise a position holding it with no earlier occurrence |
| Shuffling.Shuffle | app/src/main/java/com/nidoham/bhubishwo/domain/QuizQuestion.kt:22 | the shuffled list has the same length and the same multiset of elements as the input, and stays duplicate-free |
| Shuffling.DrawsFor | app/src/main/java/com/nidoham/bhubishwo/domain/QuizQuestion.kt:22 | for every permutation of the options there are draws the random source can produce that make the shuffle yield it |
| Questions.NewQuestion | app/src/main/java/com/nidoham/bhubishwo/domain/QuizQuestion.kt:10-26 | construction succeeds iff the title is not blank, the options are non-empty and distinct, and the index is in range; each failure is reported in the code's checking order; a success keeps the title and url, holds a permutation of the options, and its index points at the original correct answer |
| Questions.ShuffleOptions | app/src/main/java/com/nidoham/bhubishwo/domain/QuizQuestion.kt:21-25 | after shuffling, the re-located index is in range and names the same answer text as before; title and url unchanged |
| Questions.EveryOrderIsPossible | app/src/main/java/com/nidoham/bhubishwo/domain/QuizQuestion.kt:21-25 | every ordering of a valid question's options is a possible result of the factory |
| Users.NewUser | app/src/main/java/com/nidoham/bhubishwo/domain/User.kt:15-22 | a user is built iff uid, name and username are not blank, the email is not blank and contains '@', and point and experience are non-negative; each failure is reported in the code's checking order; a built user carries the given fields |
| Users.ActivityFollowsBanAndVerification | app/src/main/java/com/nidoham/bhubishwo/domain/User.kt:24-25 | a banned or unverified user is never active, an unbanned verified one always is, and points and experience play no part |
| Users.Level | app/src/main/java/com/nidoham/bhubishwo/domain/User.kt:27-28 | the intended level is at least 1 and is the k with (k-1)·1000 ≤ experience < k·1000 |
| Users.LevelAsWritten | app/src/main/java/com/nidoham/bhubishwo/domain/User.kt:27-28 | the getter with Kotlin's 32-bit `Int` conversion and addition agrees with the intended level while experience / 1000 stays below Int.MAX_VALUE |
| Users.LevelAsWrittenGoesNegative | app/src/main/java/com/nidoham/bhubishwo/domain/User.kt:27-28 | for experience 2,147,483,647,000 to 2,147,483,647,999 the getter reports level Int.MIN_VALUE where the intended level is 2^31 |
| Users.LevelMonotone | app/src/main/java/com/nidoham/bhubishwo/domain/User.kt:27-28 | more experience never gives a lower level |
| Users.LevelSteps | app/src/main/java/com/nidoham/bhubishwo/domain/User.kt:27-28 | 1000 more experience raises the level by exactly one; gains that stay within the current thousand leave it unchanged |
| Scoring.TimeBonus | app/src/main/java/com/nidoham/bhubishwo/viewmodel/GameViewModel.kt:160-172 | the bucket table equals max(1, (t+1)/2) for t in 0..20 and is 0 outside |
| Scoring.TimeBonusRange | app/src/main/java/com/nidoham/bhubishwo/viewmodel/GameViewModel.kt:160-172 | inside the time limit the bonus lies in 1..10 |
| Scoring.TimeBonusMonotone | app/src/main/java/com/nidoham/bhubishwo/viewmodel/GameViewModel.kt:160-172 | a slower answer never earns a smaller bonus |
| Scoring.ResponseSeconds | app/src/main/java/com/nidoham/bhubishwo/viewmodel/GameViewModel.kt:149-151 | the response time is always in 0..20; it is the whole seconds elapsed for 0 to 20.999 s, 0 for anything under one second and above −2^31 s (so a clock going backwards by less than that gives 0), and 20 for anything from 20 s up to below 2^31 s; outside ±2^31 s the `Int` conversion wraps, and only the 0..20 bound is stated |
| Scoring.SubmissionRecord | app/src/main/java/com/nidoham/bhubishwo/viewmodel/GameViewModel.kt:153-186 | the answer is correct iff the selection is the correct option; correct earns 10 plus the time bonus, wrong or missing earns exactly -5 with bonus 0; a missing selection is recorded as "No Answer" |
| Scoring.TimeOutRecord | app/src/main/java/com/nidoham/bhubishwo/viewmodel/GameViewModel.kt:107-115 | a time-out record is a wrong "Time Out" answer at the full 20 s that costs 5 points, names the question and its correct option, and follows the scoring rule |
| Scoring.RecordsAreWellFormed | app/src/main/java/com/nidoham/bhubishwo/viewmodel/GameViewModel.kt:107-115 | both the submission record and the time-out record follow the scoring rule; a correct answer earns 11 to 20 points |
| Performance.CorrectAnswers | app/src/main/java/com/nidoham/bhubishwo/viewmodel/GameViewModel.kt:233 | the filter keeps every correct record as often as it occurs, drops every wrong one, and keeps the original order |
| Performance.WrongAnswers | app/src/main/java/com/nidoham/bhubishwo/viewmodel/GameViewModel.kt:234 | the filter keeps every wrong record as often as it occurs, drops every correct one, and keeps the original order |
| Performance.FastestAnswer | app/src/main/java/com/nidoham/bhubishwo/viewmodel/GameViewModel.kt:241 | the fastest time is attained by some record and no record is faster |
| Performance.SlowestAnswer | app/src/main/java/com/nidoham/bhubishwo/viewmodel/GameViewModel.kt:242 | the slowest time is attained by some record and no record is slower |
| Performance.CorrectAndWrongPartition | app/src/main/java/com/nidoham/bhubishwo/viewmodel/GameViewModel.kt:233-234 | correct and wrong counts add up to the number of records |
| Performance.ComputeStats | app/src/main/java/com/nidoham/bhubishwo/viewmodel/GameViewModel.kt:233-257 | totalCorrect and totalWrong are the sizes of the correct and wrong filters and add up to the number of records, basePoints = 10 × correct, penaltyPoints = -5 × wrong, the bonus total sums the correct records' bonuses, fastest ≤ slowest with both attained and bounding every record |
| Performance.PointsAccountedFor | app/src/main/java/com/nidoham/bhubishwo/viewmodel/GameViewModel.kt:236-238 | the points earned over well-formed records are exactly base points + penalties + time bonus |
| Performance.TimeBonusBounds | app/src/main/java/com/nidoham/bhubishwo/viewmodel/GameViewModel.kt:236 | the bonus total lies between the number of correct answers and ten times it |
| Performance.StatsAccountForPoints | app/src/main/java/com/nidoham/bhubishwo/viewmodel/GameViewModel.kt:229-258 | the summary's base, penalty and bonus add up to the points the records earned |
| Performance.SumPointsAppend | app/src/main/java/com/nidoham/bhubishwo/viewmodel/GameViewModel.kt:193 | appending a record adds its points to the total |
| Session.StartTimer | app/src/main/java/com/nidoham/bhubishwo/viewmodel/GameViewModel.kt:80-85 | a fresh 20-second countdown starts, the display shows 20 s, the correct answer is hidden, and nothing else changes |
| Session.LoadQuestions | app/src/main/java/com/nidoham/bhubishwo/viewmodel/GameViewModel.kt:59-78 | a new session holds the given questions at index 0 with score 0, no selection, no records, the initial statistics, the answer and the summary dialog hidden, the start time set, and a 20-second countdown running |
| Session.SelectAnswer | app/src/main/java/com/nidoham/bhubishwo/viewmodel/GameViewModel.kt:134-138 | after submission nothing changes; before it only the selection changes |
| Session.SubmitAnswer | app/src/main/java/com/nidoham/bhubishwo/viewmodel/GameViewModel.kt:140-201 | nothing changes once submitted or without a current question; otherwise exactly one graded record is appended, earlier records kept, the score becomes max(0, score + points), the answer is marked submitted and shown, the timer stops, and nothing else changes |
| Session.HandleTimeOut | app/src/main/java/com/nidoham/bhubishwo/viewmodel/GameViewModel.kt:102-125 | without a current question nothing changes; otherwise exactly one time-out record is appended, the score becomes max(0, score - 5), the selection is cleared, the answer is marked submitted and shown, and nothing else changes |
| Session.Tick | app/src/main/java/com/nidoham/bhubishwo/viewmodel/GameViewModel.kt:80-132 | a stopped timer ignores ticks; above one second a tick only counts down; the tick reaching zero stops the timer and shows 0 s, and a record is appended iff the question is current and unanswered: "Time Out", wrong, 20 s, bonus 0, -5 points, selection cleared, answer marked submitted and shown, score floored at 0; that tick changes nothing else, and leaves everything but the displayed time alone when nothing times out |
| Session.CalculatePerformanceStats | app/src/main/java/com/nidoham/bhubishwo/viewmodel/GameViewModel.kt:229-258 | with no records the state is untouched; otherwise only the statistics change, to counts that add up to the record count and fastest ≤ slowest |
| Session.NextQuestion | app/src/main/java/com/nidoham/bhubishwo/viewmodel/GameViewModel.kt:203-227 | with a question left it moves to it, clears selection and flags, stamps the start time and restarts the countdown; otherwise the index stays, the statistics are recomputed from the records, the game is finished and the summary shown; score and records never change, and no other field changes in either case |
| Session.DismissPerformanceDialog | app/src/main/java/com/nidoham/bhubishwo/viewmodel/GameViewModel.kt:260-262 | the summary is hidden and nothing else changes |
| Session.ExitGame | app/src/main/java/com/nidoham/bhubishwo/viewmodel/GameViewModel.kt:264-267 | the timer stops and every field returns to its initial value: no questions, index 0, no selection, score 0, no records, initial statistics, both flags and the dialog off, 20 s on display |
| SessionProperties.LoadedSessionIsValid | app/src/main/java/com/nidoham/bhubishwo/viewmodel/GameViewModel.kt:64-78 | a freshly loaded session satisfies the session invariant |
| SessionProperties.StepPreservesValid | app/src/main/java/com/nidoham/bhubishwo/viewmodel/GameViewModel.kt:134-267 | every event keeps the invariant: score ≥ 0 and ≥ the points recorded, records well formed, index on the list, a running countdown in 1..20 only on an unanswered question |
| SessionProperties.RunPreservesValid | app/src/main/java/com/nidoham/bhubishwo/viewmodel/GameViewModel.kt:188-195 | any sequence of events keeps the invariant, so the score is never negative |
| SessionProperties.ScoreNeverNegative | app/src/main/java/com/nidoham/bhubishwo/viewmodel/GameViewModel.kt:122 | from loading onwards no sequence of events makes the score negative |
| SessionProperties.NoCurrentQuestionOnlyWhenEmpty | app/src/main/java/com/nidoham/bhubishwo/viewmodel/GameViewModel.kt:144-145 | in a reachable state the out-of-range guard fires exactly when the question list is empty |
| SessionProperties.SubmitIsIdempotent | app/src/main/java/com/nidoham/bhubishwo/viewmodel/GameViewModel.kt:140-142 | a second submission, at any time, changes nothing |
| SessionProperties.TimedOutQuestionIgnoresInput | app/src/main/java/com/nidoham/bhubishwo/viewmodel/GameViewModel.kt:134-142 | after a time-out, selecting and submitting change nothing |
| SessionProperties.SubmittedQuestionCannotTimeOut | app/src/main/java/com/nidoham/bhubishwo/viewmodel/GameViewModel.kt:147 | after a submission later ticks change nothing |
| SessionProperties.CountingDown | app/src/main/java/com/nidoham/bhubishwo/viewmodel/GameViewModel.kt:86-92 | while more than k seconds remain, k ticks only lower the displayed time by k |
| SessionProperties.TimeOutAfterTwentySeconds | app/src/main/java/com/nidoham/bhubishwo/viewmodel/GameViewModel.kt:86-98 | a fresh countdown on an unanswered question records nothing for 19 ticks and the time-out on the 20th |
| SessionProperties.CorrectAnswerAfterOneSecond | app/src/main/java/com/nidoham/bhubishwo/viewmodel/GameViewModel.kt:140-195 | one question answered correctly after one second scores 10 + 1 |
| SessionProperties.UnansweredQuestionTimesOut | app/src/main/java/com/nidoham/bhubishwo/viewmodel/GameViewModel.kt:102-125 | one unanswered question times out as a wrong "Time Out" record, and the score stays floored at 0 |
| SessionProperties.FirstOfTwoAnsweredAfterThreeSeconds | app/src/main/java/com/nidoham/bhubishwo/viewmodel/GameViewModel.kt:140-217 | the first of two questions answered correctly after 3 s scores 12 and the advance shows the second with a fresh countdown |
| SessionProperties.SecondOfTwoAnsweredAfterElevenSeconds | app/src/main/java/com/nidoham/bhubishwo/viewmodel/GameViewModel.kt:140-195 | the second question answered correctly 11 s after it was shown brings the score to 28 |
| SessionProperties.TwoCorrectAnswersFinishTheGame | app/src/main/java/com/nidoham/bhubishwo/viewmodel/GameViewModel.kt:203-258 | two correct answers (3 s, 11 s) finish the game with 2 correct, 0 wrong and 28 points |

## Left out

- `PerformanceStats.averageResponseTime`: a Float average, not modelled.
- `User.joined`: it defaults to the wall-clock time.
- Restart: the code has no such operation.
- Coroutine scheduling. The timer and the delayed `nextQuestion` are events, not
  concurrent tasks. The two-second coroutines are not tracked, so an `Advance`
  may arrive at any time, just as a direct call of the public `nextQuestion` can.
- `onCleared` is not modelled; it only cancels the timer.
- `Session.SubmitAnswer`: the score is an unbounded integer. Kotlin's `Int`
  would wrap only after about 10^8 answers.
- `Performance.ComputeStats`: the statistics' `Int` arithmetic
  (`correctAnswers.size * CORRECT_POINTS`, `wrongAnswers.size * WRONG_PENALTY`,
  `sumOf { it.timeBonus }`) is unbounded here. It would wrap only with more than
  about 2 × 10^8 records.
- `Session.Tick`: a `Counting(0)` timer never occurs. The model treats it like
  `Counting(1)`.
- `Questions.Question`: Kotlin's generated `copy()` of `QuizQuestion` could
  bypass its private constructor. No code uses it, so it is not modelled.
- `Text.IsWhitespace`: it follows Java's `Character.isWhitespace` or
  `isSpaceChar` for current Unicode. U+180E, a space separator only in older
  Unicode versions, is not whitespace here.
- The `QuizData` fixture of eight questions. The scenarios use their own small
  question list instead.
- The Compose screen, the activity and the theme: presentation only.

## Findings

| source | as written | input that shows it | evidently intended | confidence | as-written member | corrected member |
|---|---|---|---|---|---|---|
| app/src/main/java/com/nidoham/bhubishwo/domain/User.kt:27-28 | `(experience / 1000).toInt() + 1` converts to a 32-bit `Int` and adds in 32 bits | a valid user with experience 2,147,483,647,000 (a legal `Long`) gets level -2,147,483,648 | level = experience / 1000 + 1, so every valid user has level ≥ 1 | medium; not executed | Users.LevelAsWrittenGoesNegative | Users.Level |
