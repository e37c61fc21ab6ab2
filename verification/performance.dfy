/** `PerformanceStats` and `calculatePerformanceStats`: the end-of-session summary
    over the answered records. The Float `averageResponseTime` is not modelled. */
module Performance {
  import opened Scoring

  datatype PerformanceStats = PerformanceStats(
    totalCorrect: int,
    totalWrong: int,
    totalTimeBonus: int,
    basePoints: int,
    penaltyPoints: int,
    fastestAnswer: int,
    slowestAnswer: int)

  /** The default `PerformanceStats()`. */
  const InitialStats: PerformanceStats := PerformanceStats(0, 0, 0, 0, 0, QUESTION_TIME_LIMIT, 0)

  /** `xs` is `ys` with some elements dropped, the rest kept in order. */
  predicate IsSubsequence(xs: seq<AnsweredQuestion>, ys: seq<AnsweredQuestion>)
    decreases |ys|
  {
    if |xs| == 0 then true
    else if |ys| == 0 then false
    else if xs[0] == ys[0] then IsSubsequence(xs[1..], ys[1..])
    else IsSubsequence(xs, ys[1..])
  }

  /** `filter { it.isCorrect }`: every correct record, as often as it occurs and
      in its original order, and nothing else. */
  function CorrectAnswers(rs: seq<AnsweredQuestion>): (cs: seq<AnsweredQuestion>)
    ensures |cs| <= |rs|
    ensures forall x :: multiset(cs)[x] == (if x.isCorrect then multiset(rs)[x] else 0)
    ensures IsSubsequence(cs, rs)
  {
    if |rs| == 0 then []
    else
      assert rs == [rs[0]] + rs[1..];
      if rs[0].isCorrect then [rs[0]] + CorrectAnswers(rs[1..])
      else CorrectAnswers(rs[1..])
  }

  /** `filter { !it.isCorrect }`: every wrong record, as often as it occurs and
      in its original order, and nothing else. */
  function WrongAnswers(rs: seq<AnsweredQuestion>): (ws: seq<AnsweredQuestion>)
    ensures |ws| <= |rs|
    ensures forall x :: multiset(ws)[x] == (if x.isCorrect then 0 else multiset(rs)[x])
    ensures IsSubsequence(ws, rs)
  {
    if |rs| == 0 then []
    else
      assert rs == [rs[0]] + rs[1..];
      if !rs[0].isCorrect then [rs[0]] + WrongAnswers(rs[1..])
      else WrongAnswers(rs[1..])
  }

  /** `sumOf { it.timeBonus }`. */
  function SumTimeBonus(rs: seq<AnsweredQuestion>): (r: int)
  {
    if |rs| == 0 then 0 else rs[0].timeBonus + SumTimeBonus(rs[1..])
  }

  /** The total of `pointsEarned` over the records. */
  function SumPoints(rs: seq<AnsweredQuestion>): (r: int)
  {
    if |rs| == 0 then 0 else rs[0].pointsEarned + SumPoints(rs[1..])
  }

  /** `minOfOrNull { it.responseTimeSeconds }` on a non-empty list. */
  function FastestAnswer(rs: seq<AnsweredQuestion>): (m: int)
    requires |rs| > 0
    ensures exists i :: 0 <= i < |rs| && rs[i].responseTimeSeconds == m
    ensures forall i :: 0 <= i < |rs| ==> m <= rs[i].responseTimeSeconds
  {
    if |rs| == 1 then rs[0].responseTimeSeconds
    else
      var m := FastestAnswer(rs[1..]);
      assert forall i :: 0 <= i < |rs| - 1 ==> rs[1..][i] == rs[i + 1];
      if rs[0].responseTimeSeconds <= m then rs[0].responseTimeSeconds else m
  }

  /** `maxOfOrNull { it.responseTimeSeconds }` on a non-empty list. */
  function SlowestAnswer(rs: seq<AnsweredQuestion>): (m: int)
    requires |rs| > 0
    ensures exists i :: 0 <= i < |rs| && rs[i].responseTimeSeconds == m
    ensures forall i :: 0 <= i < |rs| ==> rs[i].responseTimeSeconds <= m
  {
    if |rs| == 1 then rs[0].responseTimeSeconds
    else
      var m := SlowestAnswer(rs[1..]);
      assert forall i :: 0 <= i < |rs| - 1 ==> rs[1..][i] == rs[i + 1];
      if rs[0].responseTimeSeconds >= m then rs[0].responseTimeSeconds else m
  }

  /** Every record is either correct or wrong. */
  lemma {:induction false} CorrectAndWrongPartition(rs: seq<AnsweredQuestion>)
    ensures |CorrectAnswers(rs)| + |WrongAnswers(rs)| == |rs|
  {
    if |rs| > 0 {
      CorrectAndWrongPartition(rs[1..]);
    }
  }

  /** The statistics `calculatePerformanceStats` stores for a non-empty list. */
  function ComputeStats(rs: seq<AnsweredQuestion>): (s: PerformanceStats)
    requires |rs| > 0
    ensures s.totalCorrect == |CorrectAnswers(rs)| && s.totalWrong == |WrongAnswers(rs)|
    ensures s.totalCorrect + s.totalWrong == |rs|
    ensures s.basePoints == CORRECT_POINTS * s.totalCorrect
    ensures s.penaltyPoints == WRONG_PENALTY * s.totalWrong
    ensures s.totalTimeBonus == SumTimeBonus(CorrectAnswers(rs))
    ensures s.fastestAnswer <= s.slowestAnswer
    ensures forall i :: 0 <= i < |rs| ==>
              s.fastestAnswer <= rs[i].responseTimeSeconds <= s.slowestAnswer
    ensures exists i :: 0 <= i < |rs| && rs[i].responseTimeSeconds == s.fastestAnswer
    ensures exists i :: 0 <= i < |rs| && rs[i].responseTimeSeconds == s.slowestAnswer
  {
    CorrectAndWrongPartition(rs);
    var correct := CorrectAnswers(rs);
    var wrong := WrongAnswers(rs);
    PerformanceStats(
      |correct|,
      |wrong|,
      SumTimeBonus(correct),
      |correct| * CORRECT_POINTS,
      |wrong| * WRONG_PENALTY,
      FastestAnswer(rs),
      SlowestAnswer(rs))
  }

  predicate AllWellFormed(rs: seq<AnsweredQuestion>)
  {
    forall i :: 0 <= i < |rs| ==> WellFormedRecord(rs[i])
  }

  /** The points earned over well-formed records split exactly into the base
      points, the penalties and the time bonus of the summary. */
  lemma {:induction false} PointsAccountedFor(rs: seq<AnsweredQuestion>)
    requires AllWellFormed(rs)
    ensures SumPoints(rs)
         == CORRECT_POINTS * |CorrectAnswers(rs)| + WRONG_PENALTY * |WrongAnswers(rs)|
            + SumTimeBonus(CorrectAnswers(rs))
  {
    if |rs| > 0 {
      assert WellFormedRecord(rs[0]);
      assert AllWellFormed(rs[1..]) by {
        forall i | 0 <= i < |rs| - 1 ensures WellFormedRecord(rs[1..][i]) {
          assert rs[1..][i] == rs[i + 1];
        }
      }
      PointsAccountedFor(rs[1..]);
    }
  }

  /** Each correct answer contributes between 1 and 10 bonus points. */
  lemma {:induction false} TimeBonusBounds(rs: seq<AnsweredQuestion>)
    requires AllWellFormed(rs)
    ensures |CorrectAnswers(rs)| <= SumTimeBonus(CorrectAnswers(rs)) <= 10 * |CorrectAnswers(rs)|
  {
    if |rs| > 0 {
      assert WellFormedRecord(rs[0]);
      TimeBonusRange(rs[0].responseTimeSeconds);
      assert AllWellFormed(rs[1..]) by {
        forall i | 0 <= i < |rs| - 1 ensures WellFormedRecord(rs[1..][i]) {
          assert rs[1..][i] == rs[i + 1];
        }
      }
      TimeBonusBounds(rs[1..]);
    }
  }

  /** For a finished session the summary accounts for every point earned. */
  lemma StatsAccountForPoints(rs: seq<AnsweredQuestion>)
    requires |rs| > 0 && AllWellFormed(rs)
    ensures var s := ComputeStats(rs);
            && SumPoints(rs) == s.basePoints + s.penaltyPoints + s.totalTimeBonus
            && s.totalCorrect <= s.totalTimeBonus <= 10 * s.totalCorrect
  {
    PointsAccountedFor(rs);
    TimeBonusBounds(rs);
  }

  /** Appending a record adds its points to the total. */
  lemma {:induction false} SumPointsAppend(rs: seq<AnsweredQuestion>, r: AnsweredQuestion)
    ensures SumPoints(rs + [r]) == SumPoints(rs) + r.pointsEarned
  {
    if |rs| > 0 {
      assert (rs + [r])[1..] == rs[1..] + [r];
      SumPointsAppend(rs[1..], r);
    }
  }
}
