/** The placeholder qualitative stage (src/ai_investor/scoring/qualitative.py): every
    candidate gets a score of 0.0 on each configured axis and a total of 0.0. */
module Qualitative {
  import opened Wrappers
  import opened Models

  /** One configured axis, `{"id": ...}`; the id key may be absent. */
  datatype Axis = Axis(id: Option<string>)

  /** `{axis["id"]: 0.0 for axis in axes}`: `None` when an axis has no id (the `KeyError`).
      Duplicate ids give one key. */
  function ZeroScores(axes: seq<Axis>): (r: Option<map<string, real>>)
    ensures r.Some? <==> forall a :: a in axes ==> a.id.Some?
    ensures r.Some? ==> forall k :: k in r.value <==> Axis(Some(k)) in axes
    ensures r.Some? ==> forall k :: k in r.value ==> r.value[k] == 0.0
  {
    if axes == [] then Some(map[])
    else if axes[0].id.None? then None
    else
      match ZeroScores(axes[1..])
      case None => None
      case Some(m) => Some(m[axes[0].id.value := 0.0])
  }

  /** `score_candidates`: with at least one candidate and an axis without an id it fails
      before writing anything; otherwise each candidate's axis scores become the zero map
      and its total 0.0. The normalized score, the maximum and every other field are
      outside the frame and keep their values. */
  method ScoreCandidates(cands: seq<Candidate>, axes: seq<Axis>) returns (r: Result<(), string>)
    modifies cands`qualitativeScores, cands`qualitativeScoreTotal
    ensures r.Failure? <==> cands != [] && ZeroScores(axes).None?
    ensures r.Failure? ==> forall c :: c in cands ==> unchanged(c)
    ensures r.Success? ==> forall c :: c in cands ==>
      && ZeroScores(axes).Some?
      && c.qualitativeScores == ZeroScores(axes).value
      && c.qualitativeScoreTotal == 0.0
  {
    if cands == [] {
      return Success(());
    }
    var scores := ZeroScores(axes);
    if scores.None? {
      return Failure("KeyError: 'id'");
    }
    var i := 0;
    while i < |cands|
      invariant 0 <= i <= |cands|
      invariant forall j :: 0 <= j < i ==> cands[j].qualitativeScores == scores.value && cands[j].qualitativeScoreTotal == 0.0
    {
      cands[i].qualitativeScores := scores.value;
      cands[i].qualitativeScoreTotal := 0.0;
      i := i + 1;
    }
    return Success(());
  }
}
