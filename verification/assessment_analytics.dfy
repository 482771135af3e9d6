/** Assessment analytics for a teacher: per-assessment chart points, totals,
    and the three difficulty buckets (actions/get-assessment-analytics.ts). */
module AssessmentAnalytics {
  import opened Common
  import opened Schema

  datatype Difficulty = Easy | Medium | Hard {
    /** The label the reports and the create request use. */
    function Name(): string {
      match this
      case Easy => "EASY"
      case Medium => "MEDIUM"
      case Hard => "HARD"
    }
  }

  /** getDifficultyLabel: total over the integers, MEDIUM by default. */
  function DifficultyLabel(level: int): (d: Difficulty)
    ensures d == Easy <==> level == 1
    ensures d == Hard <==> level == 3
    ensures d == Medium <==> level != 1 && level != 3
  {
    if level == 1 then Easy
    else if level == 3 then Hard
    else Medium
  }

  /** The bucket of an assessment: `getDifficultyLabel(level || 2)`, so a
      missing or zero level counts as medium. */
  function BucketOf(a: Assessment): (d: Difficulty)
    ensures d == Easy <==> a.difficultyLevel == Some(1)
    ensures d == Hard <==> a.difficultyLevel == Some(3)
  {
    DifficultyLabel(if a.difficultyLevel.None? || a.difficultyLevel.value == 0 then 2 else a.difficultyLevel.value)
  }

  /** `session.score || 0`. */
  function ScoreOf(s: AssessmentSession): nat {
    s.score.GetOr(0)
  }

  function ScoreSum(ss: seq<AssessmentSession>): nat {
    if |ss| == 0 then 0 else ScoreOf(ss[0]) + ScoreSum(ss[1..])
  }

  /** An assessment's average: the rounded mean session score, 0 with no
      sessions. */
  function AverageScore(ss: seq<AssessmentSession>): (r: nat)
    ensures |ss| == 0 ==> r == 0
    ensures |ss| > 0 ==> RoundsTo(r, ScoreSum(ss), |ss|)
  {
    if |ss| > 0 then RoundDiv(ScoreSum(ss), |ss|) else 0
  }

  /** No session scoring above `bound` yields an average above `bound`. */
  lemma {:induction false} AverageAtMost(ss: seq<AssessmentSession>, bound: nat)
    requires forall s :: s in ss ==> ScoreOf(s) <= bound
    ensures AverageScore(ss) <= bound
  {
    if |ss| > 0 {
      ScoreSumAtMost(ss, bound);
      RoundDivAtMost(ScoreSum(ss), |ss|, bound);
    }
  }

  lemma {:induction false} ScoreSumAtMost(ss: seq<AssessmentSession>, bound: nat)
    requires forall s :: s in ss ==> ScoreOf(s) <= bound
    ensures ScoreSum(ss) <= bound * |ss|
  {
    if |ss| > 0 {
      var tail := ss[1..];
      assert ss[0] in ss;
      assert forall s :: s in tail ==> s in ss;
      ScoreSumAtMost(tail, bound);
      MulSucc(bound, |tail|);
    }
  }

  const MaxNameLength := 20

  /** The chart label: titles longer than 20 characters are cut to 20 and
      given an ellipsis. */
  function DisplayName(title: string): (r: string)
    ensures |r| <= MaxNameLength + 3
    ensures |title| <= MaxNameLength ==> r == title
    ensures |title| > MaxNameLength ==>
      |r| == MaxNameLength + 3 && r[..MaxNameLength] == title[..MaxNameLength] && r[MaxNameLength..] == "..."
  {
    if |title| > MaxNameLength then title[..MaxNameLength] + "..." else title
  }

  /** Shortening a shortened name changes nothing. */
  lemma DisplayNameIdempotent(title: string)
    ensures DisplayName(DisplayName(title)) == DisplayName(title)
  {
  }

  datatype ChartPoint = ChartPoint(name: string, score: nat, attempts: nat)

  /** `assessments.map(...)`: one point per assessment, in input order. */
  function AssessmentData(assessments: seq<Assessment>): (r: seq<ChartPoint>)
    ensures |r| == |assessments|
    ensures forall i :: 0 <= i < |r| ==>
      && r[i].name == DisplayName(assessments[i].title)
      && r[i].attempts == |assessments[i].sessions|
      && r[i].score == AverageScore(assessments[i].sessions)
  {
    seq(|assessments|, i requires 0 <= i < |assessments| =>
      ChartPoint(DisplayName(assessments[i].title), AverageScore(assessments[i].sessions), |assessments[i].sessions|))
  }

  function TotalAttempts(assessments: seq<Assessment>): nat {
    if |assessments| == 0 then 0 else |assessments[0].sessions| + TotalAttempts(assessments[1..])
  }

  /** Sum of every session score of every assessment. */
  function TotalScore(assessments: seq<Assessment>): nat {
    if |assessments| == 0 then 0 else ScoreSum(assessments[0].sessions) + TotalScore(assessments[1..])
  }

  /** `assessments.flatMap(a => a.sessions.map(s => s.score || 0))`. */
  function AllScores(assessments: seq<Assessment>): seq<nat> {
    if |assessments| == 0 then [] else SessionScores(assessments[0].sessions) + AllScores(assessments[1..])
  }

  function SessionScores(ss: seq<AssessmentSession>): (r: seq<nat>)
    ensures |r| == |ss|
  {
    if |ss| == 0 then [] else [ScoreOf(ss[0])] + SessionScores(ss[1..])
  }

  function Sum(xs: seq<nat>): nat {
    if |xs| == 0 then 0 else xs[0] + Sum(xs[1..])
  }

  lemma {:induction false} SumConcat(a: seq<nat>, b: seq<nat>)
    ensures Sum(a + b) == Sum(a) + Sum(b)
  {
    if |a| == 0 {
      assert a + b == b;
    } else {
      assert (a + b)[1..] == a[1..] + b;
      SumConcat(a[1..], b);
    }
  }

  lemma {:induction false} SessionScoresSum(ss: seq<AssessmentSession>)
    ensures Sum(SessionScores(ss)) == ScoreSum(ss)
  {
    if |ss| > 0 {
      SessionScoresSum(ss[1..]);
      SumConcat([ScoreOf(ss[0])], SessionScores(ss[1..]));
    }
  }

  /** The flattened score list has one entry per session, and its sum is
      the sum of the per-assessment score sums. */
  lemma {:induction false} AllScoresShape(assessments: seq<Assessment>)
    ensures |AllScores(assessments)| == TotalAttempts(assessments)
    ensures Sum(AllScores(assessments)) == TotalScore(assessments)
  {
    if |assessments| > 0 {
      AllScoresShape(assessments[1..]);
      SessionScoresSum(assessments[0].sessions);
      SumConcat(SessionScores(assessments[0].sessions), AllScores(assessments[1..]));
    }
  }

  /** The overall average: the rounded mean of all session scores, 0 when
      there are no sessions at all. */
  function OverallAverage(assessments: seq<Assessment>): (r: nat)
    ensures TotalAttempts(assessments) == 0 ==> r == 0
    ensures TotalAttempts(assessments) > 0 ==> RoundsTo(r, TotalScore(assessments), TotalAttempts(assessments))
  {
    if TotalAttempts(assessments) > 0 then
      var scores := AllScores(assessments);
      AllScoresShape(assessments);
      RoundDiv(Sum(scores), |scores|)
    else 0
  }

  /** A difficulty bucket: how many assessments it holds and its running
      average score. */
  datatype Bucket = Bucket(count: nat, avgScore: nat)

  datatype ByDifficulty = ByDifficulty(easy: Bucket, medium: Bucket, hard: Bucket) {
    function Get(d: Difficulty): Bucket {
      match d
      case Easy => easy
      case Medium => medium
      case Hard => hard
    }

    function Set(d: Difficulty, b: Bucket): (r: ByDifficulty)
      ensures r.Get(d) == b
      ensures forall e :: e != d ==> r.Get(e) == Get(e)
    {
      match d
      case Easy => this.(easy := b)
      case Medium => this.(medium := b)
      case Hard => this.(hard := b)
    }

    function TotalCount(): nat {
      easy.count + medium.count + hard.count
    }
  }

  const EmptyBuckets := ByDifficulty(Bucket(0, 0), Bucket(0, 0), Bucket(0, 0))

  /** The bucket average after an assessment with average `own` joins a
      bucket that held `count` assessments averaging `prev`:
      `Math.round((prev·count + own) / (count + 1))`. */
  function RunningAverage(prev: nat, count: nat, own: nat): nat {
    RoundDiv(prev * count + own, count + 1)
  }

  /** One assessment joining its bucket: the count goes up by one; with
      sessions, the average becomes round((prev·(count−1) + own)/count)
      over the new count, and without sessions it stays as it was. */
  function Blend(b: Bucket, ss: seq<AssessmentSession>): (r: Bucket)
    ensures r.count == b.count + 1
    ensures |ss| == 0 ==> r.avgScore == b.avgScore
    ensures |ss| > 0 ==> RoundsTo(r.avgScore, b.avgScore * b.count + AverageScore(ss), r.count)
  {
    if |ss| > 0 then
      Bucket(b.count + 1, RunningAverage(b.avgScore, b.count, AverageScore(ss)))
    else
      Bucket(b.count + 1, b.avgScore)
  }

  /** The body of the `forEach` over the assessments. */
  function Step(bs: ByDifficulty, a: Assessment): (r: ByDifficulty)
    ensures r.Get(BucketOf(a)).count == bs.Get(BucketOf(a)).count + 1
    ensures forall d :: d != BucketOf(a) ==> r.Get(d) == bs.Get(d)
    ensures r.TotalCount() == bs.TotalCount() + 1
  {
    var d := BucketOf(a);
    bs.Set(d, Blend(bs.Get(d), a.sessions))
  }

  /** The buckets after processing the assessments in order: each one
      joins the bucket of its difficulty, which counts it and, when it has
      sessions, takes the rounded weighted mean of its old average and the
      assessment's; the other buckets keep what they had. */
  function Tally(assessments: seq<Assessment>): (r: ByDifficulty)
    ensures |assessments| == 0 ==> r == EmptyBuckets
    ensures |assessments| > 0 ==>
      var a, prev := assessments[|assessments| - 1], Tally(assessments[..|assessments| - 1]);
      var was, now := prev.Get(BucketOf(a)), r.Get(BucketOf(a));
      && now.count == was.count + 1
      && (|a.sessions| == 0 ==> now.avgScore == was.avgScore)
      && (|a.sessions| > 0 ==> RoundsTo(now.avgScore, was.avgScore * was.count + AverageScore(a.sessions), now.count))
      && forall d :: d != BucketOf(a) ==> r.Get(d) == prev.Get(d)
  {
    if |assessments| == 0 then EmptyBuckets else Step(Tally(assessments[..|assessments| - 1]), assessments[|assessments| - 1])
  }

  /** How many of the assessments fall in bucket `d`. */
  function LabelCount(assessments: seq<Assessment>, d: Difficulty): nat {
    if |assessments| == 0 then 0
    else LabelCount(assessments[..|assessments| - 1], d) + (if BucketOf(assessments[|assessments| - 1]) == d then 1 else 0)
  }

  /** Each assessment lands in exactly one bucket: every bucket counts its
      own assessments and the counts add up to the number of assessments. */
  lemma {:induction false} TallyCounts(assessments: seq<Assessment>)
    ensures forall d :: Tally(assessments).Get(d).count == LabelCount(assessments, d)
    ensures Tally(assessments).TotalCount() == |assessments|
  {
    if |assessments| > 0 {
      TallyCounts(assessments[..|assessments| - 1]);
    }
  }

  /** `count` copies of `avg` and one `own`, all at most `bound`, sum to at
      most `bound` times `count + 1`. */
  lemma WeightedAtMost(avg: nat, count: nat, own: nat, bound: nat)
    requires avg <= bound && own <= bound
    ensures avg * count + own <= bound * (count + 1)
  {
    MulMonotone(count, avg, bound);
    MulSucc(bound, count);
    assert avg * count == count * avg && bound * count == count * bound;
  }

  /** Blending an average no larger than `bound` into a bucket whose
      average is no larger than `bound` keeps it there. */
  lemma BlendAtMost(b: Bucket, ss: seq<AssessmentSession>, bound: nat)
    requires b.avgScore <= bound
    requires AverageScore(ss) <= bound
    ensures Blend(b, ss).avgScore <= bound
  {
    var r := Blend(b, ss);
    if |ss| > 0 {
      var total := b.avgScore * b.count + AverageScore(ss);
      WeightedAtMost(b.avgScore, b.count, AverageScore(ss), bound);
      RoundDivUnique(total, r.count, r.avgScore);
      RoundDivAtMost(total, r.count, bound);
    }
  }

  /** If no assessment averages above `bound`, no bucket does either. */
  lemma {:induction false} TallyAverageAtMost(assessments: seq<Assessment>, bound: nat)
    requires forall a :: a in assessments ==> AverageScore(a.sessions) <= bound
    ensures forall d :: Tally(assessments).Get(d).avgScore <= bound
  {
    if |assessments| > 0 {
      var prefix := assessments[..|assessments| - 1];
      var a := assessments[|assessments| - 1];
      assert forall x :: x in prefix ==> x in assessments;
      assert a in assessments;
      TallyAverageAtMost(prefix, bound);
      BlendAtMost(Tally(prefix).Get(BucketOf(a)), a.sessions, bound);
    }
  }

  // The six blending steps of the example below, one rounding each; each
  // is its own lemma so that the arithmetic of one step stays out of the
  // others' proofs.
  lemma StepOne() ensures RunningAverage(0, 0, 1) == 1 { RoundDivUnique(1, 1, 1); }
  lemma StepTwo() ensures RunningAverage(1, 1, 0) == 1 { RoundDivUnique(1, 2, 1); }
  lemma StepThree() ensures RunningAverage(1, 2, 0) == 1 { RoundDivUnique(2, 3, 1); }
  lemma StepOne'() ensures RunningAverage(0, 0, 0) == 0 { RoundDivUnique(0, 1, 0); }
  lemma StepTwo'() ensures RunningAverage(0, 1, 0) == 0 { RoundDivUnique(0, 2, 0); }
  lemma StepThree'() ensures RunningAverage(0, 2, 1) == 0 { RoundDivUnique(1, 3, 0); }

  /** The running average depends on the order of the assessments: blending
      per-assessment averages 1, 0, 0 into an empty bucket leaves 1, while
      0, 0, 1 leaves 0 (the mean of the three is 1/3 either way). */
  lemma RunningAverageIsOrderDependent()
    ensures RunningAverage(RunningAverage(RunningAverage(0, 0, 1), 1, 0), 2, 0) == 1
    ensures RunningAverage(RunningAverage(RunningAverage(0, 0, 0), 1, 0), 2, 1) == 0
  {
    StepOne(); StepTwo(); StepThree();
    StepOne'(); StepTwo'(); StepThree'();
  }

  datatype AssessmentReport = AssessmentReport(
    assessmentData: seq<ChartPoint>,
    totalAssessments: nat,
    totalAttempts: nat,
    avgScore: nat,
    assessmentsByDifficulty: ByDifficulty)

  const EmptyReport := AssessmentReport([], 0, 0, 0, EmptyBuckets)

  /** getAssessmentAnalytics over the assessment table (sessions joined;
      `None` when the query throws). */
  function GetAssessmentAnalytics(store: Option<seq<Assessment>>, teacherId: string): (r: AssessmentReport)
    ensures store.None? ==> r == EmptyReport
    ensures store.Some? ==>
      var mine := Filter(store.value, (a: Assessment) => a.createdById == teacherId);
      && r.totalAssessments == |mine| == |r.assessmentData|
      && (forall i :: 0 <= i < |mine| ==>
            && r.assessmentData[i].name == DisplayName(mine[i].title)
            && r.assessmentData[i].attempts == |mine[i].sessions|
            && r.assessmentData[i].score == AverageScore(mine[i].sessions))
      && r.assessmentsByDifficulty == Tally(mine)
      && r.totalAttempts == TotalAttempts(mine)
      && r.assessmentsByDifficulty.TotalCount() == r.totalAssessments
      && (forall d :: r.assessmentsByDifficulty.Get(d).count == LabelCount(mine, d))
      && (r.totalAttempts == 0 ==> r.avgScore == 0)
      && (r.totalAttempts > 0 ==> RoundsTo(r.avgScore, TotalScore(mine), r.totalAttempts))
  {
    match store
    case None => EmptyReport
    case Some(rows) =>
      var mine := Filter(rows, (a: Assessment) => a.createdById == teacherId);
      TallyCounts(mine);
      AssessmentReport(AssessmentData(mine), |mine|, TotalAttempts(mine), OverallAverage(mine), Tally(mine))
  }
}
