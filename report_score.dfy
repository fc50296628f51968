/**
 * The score summary of the feedback page: the overall score shown in the
 * circle (a rounded mean of the five category scores), the colour of a score
 * badge, the letter grade, and the normalisation of the stored profile-image
 * path into a URL.
 */
module ReportScore {
  import opened Options
  import opened Strings
  import opened InterviewModel

  /**
   * The five category scores of a fetched interview as the page sees them:
   * `None` when the category or its `score` is absent.
   */
  datatype ScoreView = ScoreView(
    communicationSkills: Option<int>,
    technicalKnowledge: Option<int>,
    problemSolving: Option<int>,
    culturalFit: Option<int>,
    confidenceAndClarity: Option<int>)

  // ---------------------------------------------------------------------------
  // Overall score
  // ---------------------------------------------------------------------------

  /** `score || 0`: an absent score counts as 0 (and a score of 0 is 0 either way). */
  function OrZero(score: Option<int>): int {
    score.GetOr(0)
  }

  /** The array literal of the five scores, in the order the page lists them. */
  function Scores(v: ScoreView): (xs: seq<int>)
    ensures |xs| == 5
  {
    [OrZero(v.communicationSkills), OrZero(v.technicalKnowledge), OrZero(v.problemSolving),
     OrZero(v.culturalFit), OrZero(v.confidenceAndClarity)]
  }

  /** `reduce((sum, score) => sum + score, 0)`. */
  function Sum(xs: seq<int>): int {
    if |xs| == 0 then 0 else xs[0] + Sum(xs[1..])
  }

  /** `Math.round(t / 5)`: the integer nearest to t/5 (no integer t gives a tie). */
  function RoundFifth(t: int): (r: int)
    ensures 10 * r - 5 <= 2 * t < 10 * r + 5
  {
    (t + 2) / 5
  }

  /**
   * `calculateOverallScore`: 0 without a feedback object, otherwise the rounded
   * mean of the five scores.
   */
  function OverallScore(feedback: Option<ScoreView>): (r: int)
    ensures feedback.None? ==> r == 0
    ensures feedback.Some? ==> 10 * r - 5 <= 2 * Sum(Scores(feedback.value)) < 10 * r + 5
  {
    match feedback
    case None => 0
    case Some(v) => RoundFifth(Sum(Scores(v)))
  }

  /** Every element of `xs` lies in [lo, hi], so the sum lies in [|xs|·lo, |xs|·hi]. */
  lemma {:induction false} SumBounds(xs: seq<int>, lo: int, hi: int)
    requires forall i :: 0 <= i < |xs| ==> lo <= xs[i] <= hi
    ensures |xs| * lo <= Sum(xs) <= |xs| * hi
  {
    if |xs| > 0 {
      SumBounds(xs[1..], lo, hi);
    }
  }

  /** A sequence whose elements all equal `s` sums to |xs|·s. */
  lemma {:induction false} SumConstant(xs: seq<int>, s: int)
    requires forall i :: 0 <= i < |xs| ==> xs[i] == s
    ensures Sum(xs) == |xs| * s
  {
    if |xs| > 0 {
      SumConstant(xs[1..], s);
    }
  }

  /** Five equal scores give that score as the overall score. */
  lemma OverallOfEqualScores(v: ScoreView, s: int)
    requires forall i :: 0 <= i < 5 ==> Scores(v)[i] == s
    ensures OverallScore(Some(v)) == s
  {
    SumConstant(Scores(v), s);
  }

  /** Scores between 0 and 100 give an overall score between 0 and 100. */
  lemma OverallInRange(v: ScoreView)
    requires forall i :: 0 <= i < 5 ==> 0 <= Scores(v)[i] <= 100
    ensures 0 <= OverallScore(Some(v)) <= 100
  {
    SumBounds(Scores(v), 0, 100);
  }

  /** How a stored feedback record reaches the page: every category carries its score. */
  function ViewOf(f: Feedback): (v: ScoreView)
    ensures Scores(v) == [f.communicationSkills.score, f.technicalKnowledge.score, f.problemSolving.score,
                          f.culturalFit.score, f.confidenceAndClarity.score]
  {
    ScoreView(Some(f.communicationSkills.score), Some(f.technicalKnowledge.score), Some(f.problemSolving.score),
              Some(f.culturalFit.score), Some(f.confidenceAndClarity.score))
  }

  /** A feedback object whose categories all lack a score gives 0, as does the schema's default feedback. */
  lemma OverallOfMissingScores()
    ensures OverallScore(Some(ScoreView(None, None, None, None, None))) == 0
    ensures OverallScore(Some(ViewOf(DefaultFeedback))) == 0
  {
    OverallOfEqualScores(ScoreView(None, None, None, None, None), 0);
    OverallOfEqualScores(ViewOf(DefaultFeedback), 0);
  }

  // ---------------------------------------------------------------------------
  // Colours and grades
  // ---------------------------------------------------------------------------

  const Green := "#4ade80"
  const Yellow := "#fbbf24"
  const Orange := "#fb923c"
  const Red := "#ef4444"

  /** `getScoreColor` of the page: green from 80, yellow from 60, orange from 40, red below. */
  function ScoreColor(score: int): (c: string)
    ensures c == Green <==> score >= 80
    ensures c == Yellow <==> 60 <= score < 80
    ensures c == Orange <==> 40 <= score < 60
    ensures c == Red <==> score < 40
  {
    if score >= 80 then Green
    else if score >= 60 then Yellow
    else if score >= 40 then Orange
    else Red
  }

  /** The copy of `getScoreColor` inside the score card. */
  function ScoreCardColor(score: int): (c: string)
    ensures c in {Green, Yellow, Orange, Red}
  {
    if score >= 80 then "#4ade80"
    else if score >= 60 then "#fbbf24"
    else if score >= 40 then "#fb923c"
    else "#ef4444"
  }

  /** The score card colours a score exactly as the page does. */
  lemma CardColorAgrees(score: int)
    ensures ScoreCardColor(score) == ScoreColor(score)
  {
    assert Green == "#4ade80" && Yellow == "#fbbf24" && Orange == "#fb923c" && Red == "#ef4444";
  }

  /** Colours from worst (red, 0) to best (green, 3). */
  function ColorRank(c: string): nat {
    if c == Green then 3 else if c == Yellow then 2 else if c == Orange then 1 else 0
  }

  /** A higher score never gets a worse colour. */
  lemma ColorMonotone(a: int, b: int)
    requires a <= b
    ensures ColorRank(ScoreColor(a)) <= ColorRank(ScoreColor(b))
  {
  }

  /** `getGradeFromScore`. */
  function Grade(score: int): (g: string)
    ensures g == "A+" <==> score >= 90
    ensures g == "A" <==> 80 <= score < 90
    ensures g == "B+" <==> 70 <= score < 80
    ensures g == "B" <==> 60 <= score < 70
    ensures g == "C" <==> 50 <= score < 60
    ensures g == "D" <==> score < 50
  {
    if score >= 90 then "A+"
    else if score >= 80 then "A"
    else if score >= 70 then "B+"
    else if score >= 60 then "B"
    else if score >= 50 then "C"
    else "D"
  }

  /** Grades from worst (D, 0) to best (A+, 5). */
  function GradeRank(g: string): nat {
    if g == "A+" then 5 else if g == "A" then 4 else if g == "B+" then 3
    else if g == "B" then 2 else if g == "C" then 1 else 0
  }

  /** A higher score never yields a lower grade. */
  lemma GradeMonotone(a: int, b: int)
    requires a <= b
    ensures GradeRank(Grade(a)) <= GradeRank(Grade(b))
  {
  }

  /**
   * The grade badge and the circle share a colour that matches the grade:
   * A grades are green, B grades yellow, a C orange, and a red score is a D.
   */
  lemma GradeMatchesColor(score: int)
    ensures Grade(score) in {"A+", "A"} <==> ScoreColor(score) == Green
    ensures Grade(score) in {"B+", "B"} <==> ScoreColor(score) == Yellow
    ensures Grade(score) == "C" ==> ScoreColor(score) == Orange
    ensures ScoreColor(score) == Red ==> Grade(score) == "D"
  {
  }

  // ---------------------------------------------------------------------------
  // Profile image
  // ---------------------------------------------------------------------------

  const ImageHost := "http://localhost:5000/"

  /**
   * The stored user's `profileImage` as the page uses it: a non-empty path that
   * does not start with "http" is served from the backend host; an absent
   * field, an empty path and an absolute URL are left alone.
   */
  function NormalizeProfileImage(image: Option<string>): (r: Option<string>)
    ensures image.None? ==> r.None?
    ensures image.Some? && (image.value == "" || StartsWith(image.value, "http")) ==> r == image
    ensures image.Some? && image.value != "" && !StartsWith(image.value, "http") ==> r == Some(ImageHost + image.value)
    ensures r.Some? ==> r.value == "" || StartsWith(r.value, "http")
  {
    match image
    case None => None
    case Some(p) =>
      if p != "" && !StartsWith(p, "http") then
        assert (ImageHost + p)[..4] == "http";
        Some(ImageHost + p)
      else image
  }

  /** Normalising an already normalised image changes nothing. */
  lemma NormalizeIdempotent(image: Option<string>)
    ensures NormalizeProfileImage(NormalizeProfileImage(image)) == NormalizeProfileImage(image)
  {
    var r := NormalizeProfileImage(image);
    if r.Some? && r.value != "" {
      assert StartsWith(r.value, "http");
    }
  }
}
