/** The deep-dive recommendation picker (src/ai_investor/research/top3_deep_dive.py): drop the
    excluded candidates, rank the rest by composite score, keep the first `topK` and give each
    a fixed "Watch" record. */
module TopDeepDive {
  import opened Sorting
  import opened Models
  import opened Ranking

  /** `[c for c in cands if not c.excluded]`. */
  function NotExcluded(cands: seq<Candidate>): (r: seq<Candidate>)
    reads cands`excluded
    ensures |r| <= |cands|
    ensures forall k :: 0 <= k < |r| ==> r[k] in cands && !r[k].excluded
    ensures forall k :: 0 <= k < |cands| && !cands[k].excluded ==> cands[k] in r
  {
    if cands == [] then []
    else (if cands[0].excluded then [] else [cands[0]]) + NotExcluded(cands[1..])
  }

  /** The candidates recommendations are built for, in order: `ranked[:top_k]`. */
  function Selected(cands: seq<Candidate>, topK: int): seq<Candidate>
    reads cands`excluded, cands`compositeScore
  {
    PySliceTo(RankByComposite(NotExcluded(cands)), topK)
  }

  /** The record built for one selected ticker. */
  function WatchRecommendation(ticker: string): Recommendation {
    Recommendation(
      ticker, "Watch",
      reasons := ["Scaffold mode: deep-dive logic not implemented yet."],
      risks := ["Data collector integration pending."],
      assumptions := ["Switch decision after real news and filing evidence."])
  }

  /** `build_recommendations`: one Watch record per selected candidate, in selection order.
      The candidates are only read. */
  method BuildRecommendations(cands: seq<Candidate>, topK: int) returns (recs: seq<Recommendation>)
    ensures |recs| == |Selected(cands, topK)|
    ensures forall i :: 0 <= i < |recs| ==> recs[i] == WatchRecommendation(Selected(cands, topK)[i].ticker)
  {
    recs := WatchAll(Selected(cands, topK));
  }

  /** The loop of `build_recommendations`: a Watch record per candidate, in order. */
  method WatchAll(selected: seq<Candidate>) returns (recs: seq<Recommendation>)
    ensures |recs| == |selected|
    ensures forall i :: 0 <= i < |recs| ==> recs[i] == WatchRecommendation(selected[i].ticker)
  {
    recs := [];
    for i := 0 to |selected|
      invariant |recs| == i
      invariant forall j :: 0 <= j < i ==> recs[j] == WatchRecommendation(selected[j].ticker)
    {
      recs := recs + [WatchRecommendation(selected[i].ticker)];
    }
  }

  /** Every record says "Watch" with one fixed reason, risk and assumption, and has every
      other list empty. */
  lemma {:induction false} WatchRecommendationShape(ticker: string)
    ensures var r := WatchRecommendation(ticker);
      && r.ticker == ticker && r.decision == "Watch"
      && |r.reasons| == 1 && |r.risks| == 1 && |r.assumptions| == 1
      && r.industryTrends == [] && r.peerStrengths == [] && r.peerWeaknesses == []
      && r.lagCauses == [] && r.criticalViews == [] && r.breakScenarios == []
      && r.reevaluationTriggers == [] && r.sourceLinks == []
  {
  }

  /** Only non-excluded input candidates are selected, and for `topK >= 0` at most `topK`
      of them: exactly `min(topK, number not excluded)`. */
  lemma {:induction false} SelectedMembers(cands: seq<Candidate>, topK: int)
    ensures forall c :: c in Selected(cands, topK) ==> c in cands && !c.excluded
    ensures topK >= 0 ==> |Selected(cands, topK)| == if topK < |NotExcluded(cands)| then topK else |NotExcluded(cands)|
  {
    var ranked := RankByComposite(NotExcluded(cands));
    RankedIsPermutation(NotExcluded(cands));
    forall c | c in Selected(cands, topK) ensures c in cands && !c.excluded {
      assert c in ranked;
      assert c in multiset(NotExcluded(cands));
    }
  }

  /** The selection is ordered by composite score, highest first. */
  lemma {:induction false} SelectedNonIncreasing(cands: seq<Candidate>, topK: int)
    ensures var s := Selected(cands, topK);
      forall i, j :: 0 <= i < j < |s| ==> s[i].compositeScore >= s[j].compositeScore
  {
    RankedNonIncreasing(NotExcluded(cands));
  }

  /** The selection is the best of the non-excluded candidates: one left out scores no higher
      than any selected one. */
  lemma {:induction false} SelectedAreBest(cands: seq<Candidate>, topK: int)
    ensures forall c, s :: c in NotExcluded(cands) && c !in Selected(cands, topK) && s in Selected(cands, topK) ==>
      c.compositeScore <= s.compositeScore
  {
    var kept := NotExcluded(cands);
    var sel := Selected(cands, topK);
    assert sel == RankByComposite(kept)[..|sel|];
    RankedPrefixBest(kept, |sel|);
  }

  /** `NotExcluded` keeps the input order of the candidates it keeps. */
  lemma {:induction false} NotExcludedOrder(cands: seq<Candidate>, i: nat, j: nat)
    requires i < j < |cands| && !cands[i].excluded && !cands[j].excluded
    ensures exists p, q :: 0 <= p < q < |NotExcluded(cands)| && NotExcluded(cands)[p] == cands[i] && NotExcluded(cands)[q] == cands[j]
  {
    if i == 0 {
      NotExcludedHead(cands, j);
    } else {
      var tail := cands[1..];
      var rest := NotExcluded(tail);
      assert tail[i - 1] == cands[i] && tail[j - 1] == cands[j];
      NotExcludedOrder(tail, i - 1, j - 1);
      var p, q :| 0 <= p < q < |rest| && rest[p] == cands[i] && rest[q] == cands[j];
      NotExcludedShift(cands, p, q);
    }
  }

  lemma {:induction false} NotExcludedHead(cands: seq<Candidate>, j: nat)
    requires 0 < j < |cands| && !cands[0].excluded && !cands[j].excluded
    ensures exists q :: 0 < q < |NotExcluded(cands)| && NotExcluded(cands)[0] == cands[0] && NotExcluded(cands)[q] == cands[j]
  {
    var tail := cands[1..];
    var rest := NotExcluded(tail);
    assert NotExcluded(cands) == [cands[0]] + rest;
    assert cands[j] == tail[j - 1];
    assert cands[j] in rest;
    var q :| 0 <= q < |rest| && rest[q] == cands[j];
    assert NotExcluded(cands)[q + 1] == cands[j];
  }

  lemma {:induction false} NotExcludedShift(cands: seq<Candidate>, p: nat, q: nat)
    requires cands != [] && p < q < |NotExcluded(cands[1..])|
    ensures exists p', q' ::
              && 0 <= p' < q' < |NotExcluded(cands)|
              && NotExcluded(cands)[p'] == NotExcluded(cands[1..])[p]
              && NotExcluded(cands)[q'] == NotExcluded(cands[1..])[q]
  {
    var rest := NotExcluded(cands[1..]);
    var all := NotExcluded(cands);
    if cands[0].excluded {
      assert all == rest;
      assert 0 <= p < q < |all| && all[p] == rest[p] && all[q] == rest[q];
    } else {
      assert all == [cands[0]] + rest;
      assert 0 <= p + 1 < q + 1 < |all| && all[p + 1] == rest[p] && all[q + 1] == rest[q];
    }
  }

  lemma {:induction false} NotExcludedDistinct(cands: seq<Candidate>)
    requires Distinct(cands)
    ensures Distinct(NotExcluded(cands))
  {
    if cands != [] {
      NotExcludedDistinct(cands[1..]);
      var rest := NotExcluded(cands[1..]);
      if !cands[0].excluded {
        assert cands[0] !in cands[1..];
        assert cands[0] !in rest;
        var r := [cands[0]] + rest;
        forall a, b | 0 <= a < b < |r| ensures r[a] != r[b] {
          if a == 0 { assert r[b] == rest[b - 1]; assert rest[b - 1] in rest; }
        }
      }
    }
  }

  /** Of two different candidates with equal composite scores, neither excluded, the later
      one in the input is selected only together with the earlier one, after it. */
  lemma {:induction false} SelectedTiesInInputOrder(cands: seq<Candidate>, topK: int, i: nat, j: nat)
    requires Distinct(cands)
    requires i < j < |cands| && !cands[i].excluded && !cands[j].excluded
    requires cands[i].compositeScore == cands[j].compositeScore
    requires cands[j] in Selected(cands, topK)
    ensures exists p, q ::
              && 0 <= p < q < |Selected(cands, topK)|
              && Selected(cands, topK)[p] == cands[i]
              && Selected(cands, topK)[q] == cands[j]
  {
    var kept := NotExcluded(cands);
    NotExcludedOrder(cands, i, j);
    NotExcludedDistinct(cands);
    var a, b :| 0 <= a < b < |kept| && kept[a] == cands[i] && kept[b] == cands[j];
    RankedTiesInInputOrder(kept, a, b);
    var ranked := RankByComposite(kept);
    var p, q :| 0 <= p < q < |kept| && ranked[p] == cands[i] && ranked[q] == cands[j];
    RankedDistinct(kept);
    var s := Selected(cands, topK);
    assert s == ranked[..|s|];
    PrefixKeepsPair(ranked, |s|, p, q);
    assert 0 <= p < q < |s| && s[p] == cands[i] && s[q] == cands[j];
  }
}
