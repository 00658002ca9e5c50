/** The placeholder exclusion gate (src/ai_investor/scoring/exclusion.py): it clears every
    candidate's flag and reasons and ignores its rules. */
module Exclusion {
  import opened Models

  /** `apply_exclusion_rules`: afterwards no candidate is excluded and none has a reason.
      `rules` (of any shape) is not read, so the outcome is the same for every rule list;
      the candidate list itself and every other field are left as they were. */
  method ApplyExclusionRules<R>(cands: seq<Candidate>, rules: seq<R>)
    modifies cands`excluded, cands`exclusionReasons
    ensures forall c :: c in cands ==> !c.excluded && c.exclusionReasons == []
  {
    var i := 0;
    while i < |cands|
      invariant 0 <= i <= |cands|
      invariant forall j :: 0 <= j < i ==> !cands[j].excluded && cands[j].exclusionReasons == []
    {
      cands[i].excluded := false;
      cands[i].exclusionReasons := [];
      i := i + 1;
    }
  }
}
