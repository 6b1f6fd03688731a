/**
 * The debate gate of supabase/functions/run-debate/index.ts: the evaluations are copied and
 * sorted by descending score, the first and last of the copy are the two judges, and a debate
 * is requested only when their scores are at least 3 apart.
 */
module RunDebate {
  import opened Wrappers
  import opened Judges
  import opened Sorting
  import opened Edge

  /** A judge as the response reports it: `{name, type, score}`. */
  datatype Side = Side(name: string, kind: string, score: real)

  /** The JSON body: the skip notice, the debate with its two judges, or `{error}`. */
  datatype Body = Skipped(reason: string) | Debate(debate: string, high: Side, low: Side) | Error(message: string)

  /** A response, and whether the language-model API was called on the way. */
  datatype Outcome = Outcome(status: nat, body: Body, asked: bool)

  const GAP_REASON: string := "Score gap too small for debate"

  /** The message of the TypeError the runtime throws for `undefined.score`. */
  const UNDEFINED_SCORE: string := "Cannot read properties of undefined (reading 'score')"

  function ScoreOf(e: Evaluation): real {
    e.score
  }

  function SideOf(e: Evaluation): Side {
    Side(e.judgeName, e.judgeType, e.score)
  }

  /** The handler, given the API key, the request's evaluations and the reply the API would give. */
  function Respond(key: Option<string>, evals: seq<Evaluation>, reply: Reply): Outcome {
    if !Configured(key) then Outcome(500, Error(KEY_MISSING), false)
    else
      var sorted := SortDesc(evals, ScoreOf);
      if sorted == [] then Outcome(500, Error(UNDEFINED_SCORE), false)
      else
        var high, low := sorted[0], sorted[|sorted| - 1];
        if high.score - low.score < 3.0 then Outcome(200, Skipped(GAP_REASON), false)
        else match reply
          case Failed(status, body) => Outcome(500, Error(ApiError(status, body)), true)
          case Answered(text) => Outcome(200, Debate(text, SideOf(high), SideOf(low)), true)
  }

  /** The first of the sorted copy has the highest score and the last the lowest, and both are evaluations of the request. */
  lemma Extremes(evals: seq<Evaluation>)
    requires evals != []
    ensures var sorted := SortDesc(evals, ScoreOf);
      |sorted| == |evals| && sorted[0] in evals && sorted[|sorted| - 1] in evals
      && forall e | e in evals :: sorted[|sorted| - 1].score <= e.score <= sorted[0].score
  {
    var sorted := SortDesc(evals, ScoreOf);
    SortedDesc(evals, ScoreOf);
    SortPermutes(evals, ScoreOf);
    assert |multiset(sorted)| == |multiset(evals)|;
    assert sorted[0] in multiset(sorted) && sorted[|sorted| - 1] in multiset(sorted);
    forall e | e in evals
      ensures sorted[|sorted| - 1].score <= e.score <= sorted[0].score
    {
      assert e in multiset(sorted);
      var k :| 0 <= k < |sorted| && sorted[k] == e;
      assert ScoreOf(sorted[0]) >= ScoreOf(sorted[k]) || k == 0;
      assert ScoreOf(sorted[k]) >= ScoreOf(sorted[|sorted| - 1]) || k == |sorted| - 1;
    }
  }

  /** The highest and the lowest score among the evaluations. */
  predicate IsMax(evals: seq<Evaluation>, v: real) {
    (exists e | e in evals :: e.score == v) && forall e | e in evals :: e.score <= v
  }

  predicate IsMin(evals: seq<Evaluation>, v: real) {
    (exists e | e in evals :: e.score == v) && forall e | e in evals :: v <= e.score
  }

  /**
   * The API is called exactly when the key is set and the highest and lowest scores are at
   * least 3 apart; a successful debate names a judge with the highest and one with the lowest
   * score, and reports their name, type and score.
   */
  lemma RespondSpec(key: Option<string>, evals: seq<Evaluation>, reply: Reply, hi: real, lo: real)
    requires evals != [] && IsMax(evals, hi) && IsMin(evals, lo)
    ensures Respond(key, evals, reply).asked <==> Configured(key) && hi - lo >= 3.0
    ensures Configured(key) && hi - lo < 3.0 ==> Respond(key, evals, reply) == Outcome(200, Skipped(GAP_REASON), false)
    ensures Respond(key, evals, reply).body.Debate? ==> (reply.Answered?
      && Respond(key, evals, reply).body.debate == reply.text
      && Respond(key, evals, reply).body.high.score == hi && Respond(key, evals, reply).body.low.score == lo
      && (exists e | e in evals :: SideOf(e) == Respond(key, evals, reply).body.high)
      && (exists e | e in evals :: SideOf(e) == Respond(key, evals, reply).body.low))
  {
    Extremes(evals);
  }

  /** One evaluation is always too close to itself for a debate. */
  lemma SingleEvaluation(key: Option<string>, e: Evaluation, reply: Reply)
    requires Configured(key)
    ensures Respond(key, [e], reply) == Outcome(200, Skipped(GAP_REASON), false)
  {
    Extremes([e]);
  }

  /** The failures: no key, no evaluations, and a non-ok reply, each a 500 with its message. */
  lemma RespondErrors(key: Option<string>, evals: seq<Evaluation>, reply: Reply)
    ensures !Configured(key) ==> Respond(key, evals, reply) == Outcome(500, Error(KEY_MISSING), false)
    ensures Configured(key) && evals == [] ==> Respond(key, evals, reply) == Outcome(500, Error(UNDEFINED_SCORE), false)
    ensures Respond(key, evals, reply).asked && reply.Failed? ==>
      Respond(key, evals, reply) == Outcome(500, Error(ApiError(reply.status, reply.body)), true)
    ensures Respond(key, evals, reply).status == 200 || Respond(key, evals, reply).body.Error?
  {
    if Configured(key) && evals == [] {
      assert SortDesc(evals, ScoreOf) == [];
    }
  }

  /** The handler as the function runs it: `[...evaluations].sort(...)` on a fresh array, then the gate. */
  method Serve(key: Option<string>, evals: seq<Evaluation>, reply: Reply) returns (out: Outcome)
    ensures out == Respond(key, evals, reply)
  {
    if !Configured(key) {
      return Outcome(500, Error(KEY_MISSING), false);
    }
    var copy := new Evaluation[|evals|](i requires 0 <= i < |evals| => evals[i]);
    assert copy[..] == evals;
    SortInPlace(copy, ScoreOf);
    if copy.Length == 0 {
      return Outcome(500, Error(UNDEFINED_SCORE), false);
    }
    var high, low := copy[0], copy[copy.Length - 1];
    if high.score - low.score < 3.0 {
      return Outcome(200, Skipped(GAP_REASON), false);
    }
    match reply
    case Failed(status, body) =>
      out := Outcome(500, Error(ApiError(status, body)), true);
    case Answered(text) =>
      out := Outcome(200, Debate(text, SideOf(high), SideOf(low)), true);
  }
}
