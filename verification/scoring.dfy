/** The scoring rules of `GameViewModel`: its constants, the response-time
    measurement, the time-bonus table and the record kept for each question. */
module Scoring {
  import opened Wrappers
  import opened Numeric
  import opened Questions

  const CORRECT_POINTS: int := 10
  const WRONG_PENALTY: int := -5
  const QUESTION_TIME_LIMIT: int := 20

  /** What an unanswered submission and an expired question record as the choice. */
  const NO_ANSWER: string := "No Answer"
  const TIME_OUT: string := "Time Out"

  /** `AnsweredQuestion`: the outcome of one question. */
  datatype AnsweredQuestion = AnsweredQuestion(
    questionTitle: string,
    selectedAnswer: string,
    correctAnswer: string,
    isCorrect: bool,
    responseTimeSeconds: int,
    timeBonus: int,
    pointsEarned: int)

  /** The bonus table of `submitAnswer`: two seconds per step, from 1 point for
      0-2 s up to 10 points for 19-20 s, and nothing outside 0..20. */
  function TimeBonus(seconds: int): (bonus: int)
    ensures 0 <= seconds <= QUESTION_TIME_LIMIT ==> bonus == Max(1, (seconds + 1) / 2)
    ensures !(0 <= seconds <= QUESTION_TIME_LIMIT) ==> bonus == 0
  {
    if 0 <= seconds <= 2 then 1
    else if 3 <= seconds <= 4 then 2
    else if 5 <= seconds <= 6 then 3
    else if 7 <= seconds <= 8 then 4
    else if 9 <= seconds <= 10 then 5
    else if 11 <= seconds <= 12 then 6
    else if 13 <= seconds <= 14 then 7
    else if 15 <= seconds <= 16 then 8
    else if 17 <= seconds <= 18 then 9
    else if 19 <= seconds <= 20 then 10
    else 0
  }

  function Max(a: int, b: int): (r: int)
  {
    if a >= b then a else b
  }

  /** Inside the time limit the bonus is between 1 and 10. */
  lemma TimeBonusRange(seconds: int)
    requires 0 <= seconds <= QUESTION_TIME_LIMIT
    ensures 1 <= TimeBonus(seconds) <= 10
  {
  }

  /** A slower answer never earns a smaller bonus. */
  lemma TimeBonusMonotone(s: int, t: int)
    requires 0 <= s <= t <= QUESTION_TIME_LIMIT
    ensures TimeBonus(s) <= TimeBonus(t)
  {
  }

  /** The response time of `submitAnswer`: `(end - start) / 1000` on `Long`s,
      converted to `Int`, then coerced into 0..20. */
  function ResponseSeconds(startMs: Int64, endMs: Int64): (seconds: int)
    ensures 0 <= seconds <= QUESTION_TIME_LIMIT
    ensures 0 <= endMs - startMs < 21_000 ==> seconds == (endMs - startMs) / 1000
    ensures -1000 * (INT32_MAX + 1) < endMs - startMs < 1000 ==> seconds == 0
    ensures 20_000 <= endMs - startMs < 1000 * (INT32_MAX + 1) ==> seconds == QUESTION_TIME_LIMIT
  {
    var elapsedMs := ToInt64(endMs - startMs);
    CoerceIn(ToInt32(TruncDiv(elapsedMs, 1000)), 0, QUESTION_TIME_LIMIT)
  }

  /** The record `submitAnswer` builds for the current selection (`None` when
      nothing was chosen) answered after `seconds`. */
  function SubmissionRecord(q: Question, selected: Option<string>, seconds: int): (rec: AnsweredQuestion)
    ensures rec.isCorrect <==> selected == Some(CorrectAnswer(q))
    ensures selected.None? ==> rec.selectedAnswer == NO_ANSWER
    ensures selected.Some? ==> rec.selectedAnswer == selected.value
    ensures rec.isCorrect ==>
              rec.timeBonus == TimeBonus(seconds) && rec.pointsEarned == CORRECT_POINTS + rec.timeBonus
    ensures !rec.isCorrect ==> rec.timeBonus == 0 && rec.pointsEarned == WRONG_PENALTY
    ensures rec.questionTitle == q.title && rec.correctAnswer == CorrectAnswer(q)
    ensures rec.responseTimeSeconds == seconds
  {
    var isCorrect := selected == Some(CorrectAnswer(q));
    var timeBonus := if isCorrect then TimeBonus(seconds) else 0;
    var pointsEarned := if isCorrect then CORRECT_POINTS + timeBonus else WRONG_PENALTY;
    var shown := match selected case Some(a) => a case None => NO_ANSWER;
    AnsweredQuestion(q.title, shown, CorrectAnswer(q), isCorrect, seconds, timeBonus, pointsEarned)
  }

  /** The record `handleTimeOut` builds when the countdown expires. */
  function TimeOutRecord(q: Question): (rec: AnsweredQuestion)
    ensures WellFormedRecord(rec) && !rec.isCorrect && rec.selectedAnswer == TIME_OUT
    ensures rec.responseTimeSeconds == QUESTION_TIME_LIMIT && rec.pointsEarned == WRONG_PENALTY
    ensures rec.questionTitle == q.title && rec.correctAnswer == CorrectAnswer(q)
  {
    AnsweredQuestion(q.title, TIME_OUT, CorrectAnswer(q), false, QUESTION_TIME_LIMIT, 0, WRONG_PENALTY)
  }

  /** The shape every record has: a response time within the limit, and points
      that follow the scoring rule for its correctness. */
  predicate WellFormedRecord(rec: AnsweredQuestion)
  {
    && 0 <= rec.responseTimeSeconds <= QUESTION_TIME_LIMIT
    && (rec.isCorrect ==>
          rec.timeBonus == TimeBonus(rec.responseTimeSeconds)
          && rec.pointsEarned == CORRECT_POINTS + rec.timeBonus)
    && (!rec.isCorrect ==> rec.timeBonus == 0 && rec.pointsEarned == WRONG_PENALTY)
  }

  /** Both ways of resolving a question produce well-formed records: a correct
      answer earns 11 to 20 points, anything else loses exactly 5. */
  lemma RecordsAreWellFormed(q: Question, selected: Option<string>, seconds: int)
    requires 0 <= seconds <= QUESTION_TIME_LIMIT
    ensures WellFormedRecord(SubmissionRecord(q, selected, seconds))
    ensures WellFormedRecord(TimeOutRecord(q))
    ensures SubmissionRecord(q, selected, seconds).isCorrect ==>
              11 <= SubmissionRecord(q, selected, seconds).pointsEarned <= 20
  {
    TimeBonusRange(seconds);
  }
}
