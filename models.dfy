/** The records that flow through the screening pipeline (src/ai_investor/models.py). */
module Models {

  /** A piece of supporting evidence attached to a candidate. */
  datatype Evidence = Evidence(source: string, url: string, fetchedAt: string, note: string)

  /** One screened stock. Created from a universe row, then written in place by each scoring stage. */
  class Candidate {
    var ticker: string
    var companyName: string
    var sector: string
    var quantitativeMetrics: map<string, real>
    var quantitativeScore: real
    var quantitativeScorePriceNow: real
    var quantitativeScoreFundamentalsBase: real
    var qualitativeScores: map<string, real>
    var qualitativeScoreTotal: real
    var qualitativeScoreMax: real
    var qualitativeScoreNormalized: real
    var compositeScore: real
    var excluded: bool
    var exclusionReasons: seq<string>
    var evidence: seq<Evidence>

    /** A new candidate: every score 0.0 except the 25.0 qualitative maximum, not excluded,
        and every map and list empty. */
    constructor (ticker: string, companyName: string, sector: string := "UNKNOWN")
      ensures this.ticker == ticker && this.companyName == companyName && this.sector == sector
      ensures quantitativeMetrics == map[] && qualitativeScores == map[]
      ensures quantitativeScore == 0.0 && quantitativeScorePriceNow == 0.0
      ensures quantitativeScoreFundamentalsBase == 0.0
      ensures qualitativeScoreTotal == 0.0 && qualitativeScoreMax == 25.0
      ensures qualitativeScoreNormalized == 0.0 && compositeScore == 0.0
      ensures !excluded && exclusionReasons == [] && evidence == []
    {
      this.ticker := ticker;
      this.companyName := companyName;
      this.sector := sector;
      quantitativeMetrics := map[];
      quantitativeScore := 0.0;
      quantitativeScorePriceNow := 0.0;
      quantitativeScoreFundamentalsBase := 0.0;
      qualitativeScores := map[];
      qualitativeScoreTotal := 0.0;
      qualitativeScoreMax := 25.0;
      qualitativeScoreNormalized := 0.0;
      compositeScore := 0.0;
      excluded := false;
      exclusionReasons := [];
      evidence := [];
    }
  }

  /** A deep-dive verdict for one ticker; every list defaults to empty. */
  datatype Recommendation = Recommendation(
    ticker: string,
    decision: string,
    reasons: seq<string> := [],
    risks: seq<string> := [],
    assumptions: seq<string> := [],
    industryTrends: seq<string> := [],
    peerStrengths: seq<string> := [],
    peerWeaknesses: seq<string> := [],
    lagCauses: seq<string> := [],
    criticalViews: seq<string> := [],
    breakScenarios: seq<string> := [],
    reevaluationTriggers: seq<string> := [],
    sourceLinks: seq<string> := [])

  /** What a pipeline run returns: the shortlist and the recommendations; both default to empty. */
  datatype PipelineResult = PipelineResult(
    candidates: seq<Candidate> := [],
    topRecommendations: seq<Recommendation> := [])

  /** Every list field of a recommendation built from a ticker and a decision alone is empty. */
  lemma {:induction false} NewRecommendationDefaults(ticker: string, decision: string)
    ensures var r := Recommendation(ticker, decision);
      && r.ticker == ticker && r.decision == decision
      && r.reasons == [] && r.risks == [] && r.assumptions == []
      && r.industryTrends == [] && r.peerStrengths == [] && r.peerWeaknesses == []
      && r.lagCauses == [] && r.criticalViews == [] && r.breakScenarios == []
      && r.reevaluationTriggers == [] && r.sourceLinks == []
  {
  }

  /** A default pipeline result holds no candidates and no recommendations. */
  lemma {:induction false} NewPipelineResultDefaults()
    ensures PipelineResult().candidates == [] && PipelineResult().topRecommendations == []
  {
  }
}
