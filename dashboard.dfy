/**
 * The per-project aggregates of the dashboard (src/pages/Dashboard.tsx): the scores of one
 * project, their average and the status label. The display rounding with `toFixed` is not
 * part of this model; averages are exact reals.
 */
module Dashboard {
  import opened Wrappers
  import opened Seqs

  /** A stored `scores` row: five criteria a human judge gave one project. */
  datatype Score = Score(projectId: string, innovation: real, technical: real, impact: real,
                         feasibility: real, presentation: real)

  function ForProject(id: string): Score -> bool {
    (s: Score) => s.projectId == id
  }

  /** `getProjectScores`. */
  function ProjectScores(scores: seq<Score>, id: string): seq<Score> {
    Filter(scores, ForProject(id))
  }

  /** The scores of a project are exactly the rows with its id, and they keep their order. */
  lemma ProjectScoresSpec(scores: seq<Score>, id: string, more: seq<Score>)
    ensures forall s :: s in ProjectScores(scores, id) <==> s in scores && s.projectId == id
    ensures ProjectScores(scores + more, id) == ProjectScores(scores, id) + ProjectScores(more, id)
  {
    FilterMembers(scores, ForProject(id));
    FilterAppend(scores, more, ForProject(id));
  }

  /** The mean of one row's five criteria. */
  function RowMean(s: Score): real {
    (s.innovation + s.technical + s.impact + s.feasibility + s.presentation) / 5.0
  }

  /** The `reduce` from 0: the row means added from left to right. */
  function SumOfMeans(ps: seq<Score>): real
    decreases |ps|
  {
    if ps == [] then 0.0 else SumOfMeans(ps[..|ps| - 1]) + RowMean(ps[|ps| - 1])
  }

  /** `getAverageScore`: nothing for a project without scores, else the mean of the row means. */
  function AverageScore(scores: seq<Score>, id: string): (r: Option<real>)
    ensures r.None? <==> ProjectScores(scores, id) == []
  {
    var ps := ProjectScores(scores, id);
    if |ps| == 0 then None else Some(SumOfMeans(ps) / |ps| as real)
  }

  /** `getStatus`. */
  function Status(scores: seq<Score>, id: string): string {
    if |ProjectScores(scores, id)| > 0 then "Scored" else "Not Scored"
  }

  /** A project is "Scored" exactly when it has a score row, and its average is missing exactly when it is "Not Scored". */
  lemma StatusSpec(scores: seq<Score>, id: string)
    ensures Status(scores, id) == "Scored" <==> exists s :: s in scores && s.projectId == id
    ensures AverageScore(scores, id).None? <==> Status(scores, id) == "Not Scored"
  {
    FilterMembers(scores, ForProject(id));
    if ProjectScores(scores, id) != [] {
      assert ProjectScores(scores, id)[0] in ProjectScores(scores, id);
    }
  }

  /** Every criterion lies on the 1..10 slider. */
  predicate OnScale(s: Score) {
    1.0 <= s.innovation <= 10.0 && 1.0 <= s.technical <= 10.0 && 1.0 <= s.impact <= 10.0
    && 1.0 <= s.feasibility <= 10.0 && 1.0 <= s.presentation <= 10.0
  }

  lemma {:induction false} SumBounds(ps: seq<Score>)
    requires forall k | 0 <= k < |ps| :: OnScale(ps[k])
    ensures |ps| as real <= SumOfMeans(ps) <= 10.0 * |ps| as real
    decreases |ps|
  {
    if ps != [] {
      var init := ps[..|ps| - 1];
      assert forall k | 0 <= k < |init| :: init[k] == ps[k];
      SumBounds(init);
      assert OnScale(ps[|ps| - 1]);
    }
  }

  lemma MeanBounds(sum: real, n: real)
    requires n > 0.0 && n <= sum <= 10.0 * n
    ensures 1.0 <= sum / n <= 10.0
  {
    var avg := sum / n;
    assert avg * n == sum;
    PosFactor(avg - 1.0, n);
    PosFactor(10.0 - avg, n);
  }

  lemma PosFactor(d: real, n: real)
    requires n > 0.0 && d * n >= 0.0
    ensures d >= 0.0
  {
    assert d == (d * n) / n;
  }

  /** With every criterion of the project's rows on the slider scale, the average lies in [1, 10]. */
  lemma AverageBounds(scores: seq<Score>, id: string)
    requires forall s | s in scores && s.projectId == id :: OnScale(s)
    ensures AverageScore(scores, id).Some? ==> 1.0 <= AverageScore(scores, id).value <= 10.0
  {
    var ps := ProjectScores(scores, id);
    FilterMembers(scores, ForProject(id));
    if ps != [] {
      forall k | 0 <= k < |ps|
        ensures OnScale(ps[k])
      {
        assert ps[k] in ps;
      }
      SumBounds(ps);
      MeanBounds(SumOfMeans(ps), |ps| as real);
    }
  }
}
