/** The screening run (src/ai_investor/pipeline.py): build candidates from the universe, give
    them their metrics, run the scoring stages in place, rank by composite score, cut the
    shortlist and build the recommendations. */
module Pipeline {
  import opened Wrappers
  import opened Sorting
  import opened Models
  import opened MarketData
  import opened SbiCsv
  import opened SbiCsvCollector
  import Quantitative
  import Qualitative
  import Exclusion
  import opened Ranking
  import opened TopDeepDive

  /** An exclusion rule as configured; the placeholder gate does not read it. */
  datatype ExclusionRule = ExclusionRule(fields: map<string, string>)

  /** The parts of the strategy configuration the run reads. */
  datatype StrategyConfig = StrategyConfig(
    metrics: seq<Quantitative.MetricDef>,
    axes: seq<Qualitative.Axis>,
    exclusionRules: seq<ExclusionRule>,
    topNCandidates: int,
    topK: int)

  /** Python's `given or fallback` for an optional count: `None` and 0 fall back. */
  function OrElse(given: Option<int>, fallback: int): (r: int)
    ensures given.Some? && given.value != 0 ==> r == given.value
    ensures given.None? || given.value == 0 ==> r == fallback
  {
    if given.Some? && given.value != 0 then given.value else fallback
  }

  /** `quant_metrics.get(ticker, {})`. */
  function MetricsFor(metrics: map<string, map<string, real>>, ticker: string): (r: map<string, real>)
    ensures ticker in metrics ==> r == metrics[ticker]
    ensures ticker !in metrics ==> r == map[]
  {
    if ticker in metrics then metrics[ticker] else map[]
  }

  /** `ranked[:n]` over the composite ranking. */
  function Shortlist(cands: seq<Candidate>, n: int): seq<Candidate>
    reads cands`compositeScore
  {
    PySliceTo(RankByComposite(cands), n)
  }

  function Min(a: int, b: int): int {
    if a < b then a else b
  }

  /** For `n >= 0` the shortlist has `min(n, len)` members, all of them candidates, in
      non-increasing composite order, none twice (ShortlistAreBest: they are the best `n`). */
  lemma {:induction false} ShortlistShape(cands: seq<Candidate>, n: int)
    requires Distinct(cands)
    ensures var s := Shortlist(cands, n);
      && (n >= 0 ==> |s| == Min(n, |cands|))
      && (forall i :: 0 <= i < |s| ==> s[i] in cands)
      && (forall i, j :: 0 <= i < j < |s| ==> s[i].compositeScore >= s[j].compositeScore)
      && Distinct(s)
  {
    var ranked := RankByComposite(cands);
    var s := Shortlist(cands, n);
    assert s == ranked[..|s|];
    forall i | 0 <= i < |s| ensures s[i] in cands {
      RankedIsPermutation(cands);
      assert s[i] in multiset(ranked) by { assert s[i] == ranked[i]; }
    }
    forall i, j | 0 <= i < j < |s| ensures s[i].compositeScore >= s[j].compositeScore && s[i] != s[j] {
      RankedNonIncreasing(cands);
      RankedDistinct(cands);
      assert s[i] == ranked[i] && s[j] == ranked[j];
    }
  }

  /** The shortlist is the best `n`: a candidate left out scores no higher than any
      shortlisted one. */
  lemma {:induction false} ShortlistAreBest(cands: seq<Candidate>, n: int)
    ensures forall c, s :: c in cands && c !in Shortlist(cands, n) && s in Shortlist(cands, n) ==>
      c.compositeScore <= s.compositeScore
  {
    var s := Shortlist(cands, n);
    assert s == RankByComposite(cands)[..|s|];
    RankedPrefixBest(cands, |s|);
  }

  /** Exclusion only flags: a shortlist as long as the candidate list holds every candidate,
      excluded or not. */
  lemma {:induction false} ShortlistKeepsExcluded(cands: seq<Candidate>, n: int)
    requires n >= |cands|
    ensures multiset(Shortlist(cands, n)) == multiset(cands)
  {
    RankedIsPermutation(cands);
  }

  /** Every shortlisted candidate carries the identity of a universe row. */
  lemma {:induction false} ShortlistFromUniverse(cands: seq<Candidate>, rows: seq<UniverseRow>, n: int)
    requires |cands| == |rows| && Distinct(cands)
    requires forall i :: 0 <= i < |cands| ==>
               cands[i].ticker == rows[i].ticker && cands[i].companyName == rows[i].companyName && cands[i].sector == rows[i].sector
    ensures var s := Shortlist(cands, n);
      forall i :: 0 <= i < |s| ==> UniverseRow(s[i].ticker, s[i].companyName, s[i].sector) in rows
  {
    ShortlistShape(cands, n);
    var s := Shortlist(cands, n);
    forall i | 0 <= i < |s| ensures UniverseRow(s[i].ticker, s[i].companyName, s[i].sector) in rows {
      var j :| 0 <= j < |cands| && cands[j] == s[i];
      assert rows[j] == UniverseRow(s[i].ticker, s[i].companyName, s[i].sector);
    }
  }

  /** What a successful run promises of its shortlist: at most one per universe row and
      `min(n, len(universe))` of them for `n >= 0`, no candidate twice, non-increasing
      composite score, and each one a universe row's stock, not excluded, with its composite
      equal to its quantitative score. */
  ghost predicate GoodShortlist(s: seq<Candidate>, universe: seq<UniverseRow>, n: int)
    reads s
  {
    && |s| <= |universe|
    && (n >= 0 ==> |s| == Min(n, |universe|))
    && Distinct(s)
    && (forall i, j :: 0 <= i < j < |s| ==> s[i].compositeScore >= s[j].compositeScore)
    && (forall i :: 0 <= i < |s| ==>
          && s[i].compositeScore == s[i].quantitativeScore
          && !s[i].excluded
          && UniverseRow(s[i].ticker, s[i].companyName, s[i].sector) in universe)
  }

  /** One Watch recommendation per candidate the deep dive selects from the shortlist, in
      selection order. */
  ghost predicate Recommended(shortlist: seq<Candidate>, recs: seq<Recommendation>, k: int)
    reads shortlist
  {
    var selected := Selected(shortlist, k);
    && |recs| == |selected|
    && (forall i :: 0 <= i < |selected| ==> selected[i] in shortlist)
    && forall i :: 0 <= i < |selected| ==> recs[i] == WatchRecommendation(selected[i].ticker)
  }

  /** Candidates built from `rows` and scored with the placeholder stages give a good
      shortlist. */
  lemma {:induction false} ShortlistGood(cands: seq<Candidate>, rows: seq<UniverseRow>, n: int)
    requires ReadyToRank(cands, rows)
    ensures GoodShortlist(Shortlist(cands, n), rows, n)
  {
    ShortlistShape(cands, n);
    ShortlistFromUniverse(cands, rows, n);
    var s := Shortlist(cands, n);
    forall i | 0 <= i < |s| ensures s[i].compositeScore == s[i].quantitativeScore && !s[i].excluded {
      var j :| 0 <= j < |cands| && cands[j] == s[i];
    }
  }

  /** `[c.ticker for c in candidates]`. */
  function TickersOf(cands: seq<Candidate>): (r: seq<string>)
    reads cands`ticker
    ensures |r| == |cands| && forall i :: 0 <= i < |cands| ==> r[i] == cands[i].ticker
  {
    if cands == [] then [] else [cands[0].ticker] + TickersOf(cands[1..])
  }

  /** The candidate list comprehension: one new candidate per universe row, in row order. */
  method NewCandidates(rows: seq<UniverseRow>) returns (cands: seq<Candidate>)
    ensures |cands| == |rows| && Distinct(cands)
    ensures forall i :: 0 <= i < |cands| ==> fresh(cands[i])
    ensures forall i :: 0 <= i < |cands| ==>
              && cands[i].ticker == rows[i].ticker
              && cands[i].companyName == rows[i].companyName
              && cands[i].sector == rows[i].sector
              && cands[i].qualitativeScoreNormalized == 0.0
    ensures Unscored(cands)
  {
    cands := [];
    for i := 0 to |rows|
      invariant |cands| == i && Distinct(cands)
      invariant forall j :: 0 <= j < i ==> fresh(cands[j])
      invariant forall j :: 0 <= j < i ==>
                  && cands[j].ticker == rows[j].ticker
                  && cands[j].companyName == rows[j].companyName
                  && cands[j].sector == rows[j].sector
                  && cands[j].qualitativeScoreNormalized == 0.0
      invariant Unscored(cands)
    {
      var c := new Candidate(rows[i].ticker, rows[i].companyName, rows[i].sector);
      cands := cands + [c];
    }
  }

  /** In `run`, each candidate's metrics are the collector's map for its ticker, or empty. */
  method AssignMetrics(cands: seq<Candidate>, metrics: map<string, map<string, real>>)
    modifies cands`quantitativeMetrics
    ensures forall c :: c in cands ==> c.quantitativeMetrics == MetricsFor(metrics, c.ticker)
  {
    for i := 0 to |cands|
      invariant forall j :: 0 <= j < i ==> cands[j].quantitativeMetrics == MetricsFor(metrics, cands[j].ticker)
    {
      cands[i].quantitativeMetrics := MetricsFor(metrics, cands[i].ticker);
    }
  }

  /** In `run`, the composite is the quantitative score plus the normalized qualitative score. */
  method SetComposite(cands: seq<Candidate>)
    modifies cands`compositeScore
    ensures forall c :: c in cands ==> c.compositeScore == c.quantitativeScore + c.qualitativeScoreNormalized
  {
    for i := 0 to |cands|
      invariant forall j :: 0 <= j < i ==>
                  cands[j].compositeScore == cands[j].quantitativeScore + cands[j].qualitativeScoreNormalized
    {
      cands[i].compositeScore := cands[i].quantitativeScore + cands[i].qualitativeScoreNormalized;
    }
  }

  /** Every quantitative score is still the 0.0 a new candidate starts with. */
  ghost predicate Unscored(cands: seq<Candidate>)
    reads cands`quantitativeScore, cands`quantitativeScorePriceNow, cands`quantitativeScoreFundamentalsBase
  {
    forall c :: c in cands ==>
      c.quantitativeScore == 0.0 && c.quantitativeScorePriceNow == 0.0 && c.quantitativeScoreFundamentalsBase == 0.0
  }

  /** What the scoring stages leave on every candidate: its metrics from the collector's map,
      the quantitative scores of the configured metrics over all candidates' metrics (when
      any metric is configured), the zero qualitative score of every axis, no exclusion, and
      the composite of the quantitative and normalized qualitative scores. */
  ghost predicate ScoredBy(cands: seq<Candidate>, metrics: map<string, map<string, real>>, config: StrategyConfig)
    reads cands
  {
    QuantScored(cands, metrics, config.metrics) && QualScored(cands, config.axes) && Composed(cands)
  }

  /** The metrics and, when any metric is configured, the quantitative scores over all
      candidates' metrics. */
  ghost predicate QuantScored(cands: seq<Candidate>, metrics: map<string, map<string, real>>, defs: seq<Quantitative.MetricDef>)
    reads cands`ticker, cands`quantitativeMetrics, cands`quantitativeScore
    reads cands`quantitativeScorePriceNow, cands`quantitativeScoreFundamentalsBase
  {
    forall i :: 0 <= i < |cands| ==>
      && cands[i].quantitativeMetrics == MetricsFor(metrics, cands[i].ticker)
      && (defs != [] ==> QuantScoresOf(cands[i], Quantitative.Rows(cands), defs))
  }

  /** The three quantitative scores of the configured metrics over `rows`. */
  ghost predicate QuantScoresOf(c: Candidate, rows: seq<Quantitative.MetricRow>, defs: seq<Quantitative.MetricDef>)
    reads c`ticker, c`quantitativeScore, c`quantitativeScorePriceNow, c`quantitativeScoreFundamentalsBase
  {
    && c.quantitativeScorePriceNow == Quantitative.PriceNowScore(rows, defs, c.ticker)
    && c.quantitativeScoreFundamentalsBase == Quantitative.FundamentalsScore(rows, defs, c.ticker)
    && c.quantitativeScore == Quantitative.QuantitativeScore(rows, defs, c.ticker)
  }

  /** Every candidate has the zero score of each axis, every axis having an id. */
  ghost predicate QualScored(cands: seq<Candidate>, axes: seq<Qualitative.Axis>)
    reads cands`qualitativeScores, cands`qualitativeScoreTotal
  {
    forall c :: c in cands ==>
      && Qualitative.ZeroScores(axes).Some?
      && c.qualitativeScores == Qualitative.ZeroScores(axes).value && c.qualitativeScoreTotal == 0.0
  }

  /** No candidate excluded, and each composite the quantitative plus normalized qualitative score. */
  ghost predicate Composed(cands: seq<Candidate>)
    reads cands`excluded, cands`exclusionReasons, cands`compositeScore
    reads cands`quantitativeScore, cands`qualitativeScoreNormalized
  {
    forall c :: c in cands ==>
      && !c.excluded && c.exclusionReasons == []
      && c.compositeScore == c.quantitativeScore + c.qualitativeScoreNormalized
  }

  /** The quantitative part of `run`: each candidate's metrics, then the quantitative stage,
      which leaves the scores as they were when no metric is configured. */
  method ScoreQuantitative(cands: seq<Candidate>, metrics: map<string, map<string, real>>, defs: seq<Quantitative.MetricDef>)
    modifies cands`quantitativeMetrics, cands`quantitativeScore, cands`quantitativeScorePriceNow
    modifies cands`quantitativeScoreFundamentalsBase
    ensures QuantScored(cands, metrics, defs)
    ensures defs == [] ==> forall c :: c in cands ==>
              && c.quantitativeScore == old(c.quantitativeScore)
              && c.quantitativeScorePriceNow == old(c.quantitativeScorePriceNow)
              && c.quantitativeScoreFundamentalsBase == old(c.quantitativeScoreFundamentalsBase)
  {
    AssignMetrics(cands, metrics);
    Quantitative.ScoreCandidates(cands, defs);
  }

  /** The qualitative, exclusion and composite part of `run`. Fails, with nothing written,
      exactly when there is a candidate and an axis has no id. */
  method ScoreRest(cands: seq<Candidate>, config: StrategyConfig) returns (r: Result<(), string>)
    modifies cands`qualitativeScores, cands`qualitativeScoreTotal
    modifies cands`excluded, cands`exclusionReasons, cands`compositeScore
    ensures r.Failure? <==> cands != [] && Qualitative.ZeroScores(config.axes).None?
    ensures r.Failure? ==> forall c :: c in cands ==>
              && c.qualitativeScores == old(c.qualitativeScores) && c.qualitativeScoreTotal == old(c.qualitativeScoreTotal)
              && c.excluded == old(c.excluded) && c.exclusionReasons == old(c.exclusionReasons)
              && c.compositeScore == old(c.compositeScore)
    ensures r.Success? ==> QualScored(cands, config.axes) && Composed(cands)
  {
    r := Qualitative.ScoreCandidates(cands, config.axes);
    if r.Failure? {
      return;
    }
    Exclusion.ApplyExclusionRules(cands, config.exclusionRules);
    assert QualScored(cands, config.axes);
    SetComposite(cands);
    assert QualScored(cands, config.axes);
  }

  /** The scoring part of `run`: metrics, the three scoring stages in order, then the composite.
      Fails exactly when there is a candidate and an axis has no id (`ScoreRest` says that
      nothing past the quantitative stage is then written). */
  method ScoreAll(cands: seq<Candidate>, metrics: map<string, map<string, real>>, config: StrategyConfig)
    returns (r: Result<(), string>)
    modifies cands`quantitativeMetrics, cands`quantitativeScore, cands`quantitativeScorePriceNow
    modifies cands`quantitativeScoreFundamentalsBase, cands`qualitativeScores, cands`qualitativeScoreTotal
    modifies cands`excluded, cands`exclusionReasons, cands`compositeScore
    ensures ScoreOutcome(r, cands, metrics, config)
    ensures config.metrics == [] && old(Unscored(cands)) ==> Unscored(cands)
  {
    ghost var wasUnscored := Unscored(cands);
    ScoreQuantitative(cands, metrics, config.metrics);
    assert config.metrics == [] && wasUnscored ==> Unscored(cands);
    r := ScoreRest(cands, config);
    assert QuantScored(cands, metrics, config.metrics) && (config.metrics == [] && wasUnscored ==> Unscored(cands));
  }

  /** What the scoring stages promise: they fail exactly when there is a candidate and an
      axis has no id; the quantitative stage has run either way, and on success every stage has. */
  ghost predicate ScoreOutcome(r: Result<(), string>, cands: seq<Candidate>, metrics: map<string, map<string, real>>, config: StrategyConfig)
    reads cands
  {
    && (r.Failure? <==> cands != [] && Qualitative.ZeroScores(config.axes).None?)
    && QuantScored(cands, metrics, config.metrics)
    && (r.Success? ==> ScoredBy(cands, metrics, config))
  }

  /** The end of `run`: rank, cut the shortlist at `n`, build recommendations for the best `k`. */
  method Conclude(cands: seq<Candidate>, n: int, k: int) returns (res: PipelineResult)
    ensures res.candidates == Shortlist(cands, n)
    ensures Recommended(res.candidates, res.topRecommendations, k)
  {
    var shortlisted := Shortlist(cands, n);
    var recommendations := BuildRecommendations(shortlisted, k);
    res := PipelineResult(candidates := shortlisted, topRecommendations := recommendations);
    SelectedMembers(shortlisted, k);
    var selected := Selected(shortlisted, k);
    forall i | 0 <= i < |selected| ensures selected[i] in shortlisted {
      assert selected[i] in selected;
    }
  }

  /** The end of `run` after scoring: the shortlist and recommendations of scored candidates. */
  method RankScored(cands: seq<Candidate>, rows: seq<UniverseRow>, n: int, k: int) returns (res: PipelineResult)
    requires ReadyToRank(cands, rows)
    ensures BuiltFrom(cands, rows)
    ensures res.candidates == Shortlist(cands, n)
    ensures GoodShortlist(res.candidates, rows, n)
    ensures Recommended(res.candidates, res.topRecommendations, k)
  {
    res := Conclude(cands, n, k);
    assert ReadyToRank(cands, rows);
    ShortlistGood(cands, rows, n);
  }

  /** Built from `rows` and through the scoring stages: composite equals quantitative plus
      normalized qualitative score, and nothing is excluded. */
  ghost predicate ReadyToRank(cands: seq<Candidate>, rows: seq<UniverseRow>)
    reads cands
  {
    BuiltFrom(cands, rows) && Composed(cands)
  }

  /** The candidates are new ones made from `rows`, one per row and in row order, with the
      identity of their row and the 0.0 normalized qualitative score they start with. */
  ghost predicate BuiltFrom(cands: seq<Candidate>, rows: seq<UniverseRow>)
    reads cands`ticker, cands`companyName, cands`sector, cands`qualitativeScoreNormalized
  {
    && |cands| == |rows| && Distinct(cands)
    && forall i :: 0 <= i < |cands| ==>
         && cands[i].ticker == rows[i].ticker && cands[i].companyName == rows[i].companyName
         && cands[i].sector == rows[i].sector && cands[i].qualitativeScoreNormalized == 0.0
  }

  /** Built from `rows` and not yet scored. */
  ghost predicate NewlyBuilt(cands: seq<Candidate>, rows: seq<UniverseRow>)
    reads cands`ticker, cands`companyName, cands`sector, cands`qualitativeScoreNormalized
    reads cands`quantitativeScore, cands`quantitativeScorePriceNow, cands`quantitativeScoreFundamentalsBase
  {
    BuiltFrom(cands, rows) && Unscored(cands)
  }

  /** `run` from the metrics on, for candidates built from `rows`: score them, then rank, cut and recommend. */
  method ScoreAndRank(cands: seq<Candidate>, rows: seq<UniverseRow>, metrics: map<string, map<string, real>>,
                      config: StrategyConfig, n: int, k: int) returns (r: Result<PipelineResult, string>)
    requires NewlyBuilt(cands, rows)
    modifies cands`quantitativeMetrics, cands`quantitativeScore, cands`quantitativeScorePriceNow
    modifies cands`quantitativeScoreFundamentalsBase, cands`qualitativeScores, cands`qualitativeScoreTotal
    modifies cands`excluded, cands`exclusionReasons, cands`compositeScore
    ensures Screened(r, cands, rows, metrics, config, n, k)
  {
    var scored := ScoreAll(cands, metrics, config);
    r := RankOrFail(scored, cands, rows, metrics, config, n, k);
  }

  /** The end of `run` once the scoring stages have run: their failure propagates, otherwise
      the scored candidates are ranked, cut and recommended. */
  method RankOrFail(scored: Result<(), string>, cands: seq<Candidate>, rows: seq<UniverseRow>,
                  metrics: map<string, map<string, real>>, config: StrategyConfig, n: int, k: int)
    returns (r: Result<PipelineResult, string>)
    requires BuiltFrom(cands, rows) && ScoreOutcome(scored, cands, metrics, config)
    requires config.metrics == [] ==> Unscored(cands)
    ensures Screened(r, cands, rows, metrics, config, n, k)
  {
    if scored.Failure? {
      return Failure(scored.error);
    }
    assert ReadyToRank(cands, rows);
    var res := RankScored(cands, rows, n, k);
    return Success(res);
  }

  /** What `run` promises once `built` is made from the universe `rows` and `metrics` fetched:
      it fails exactly when there is a row and an axis has no id; on success every candidate
      is scored by the stages, the shortlist is the first `n` of `built` ranked by composite
      score, hence a good shortlist of the universe, and the recommendations are those of the
      deep dive's selection from it. */
  ghost predicate Screened(r: Result<PipelineResult, string>, built: seq<Candidate>, rows: seq<UniverseRow>,
                           metrics: map<string, map<string, real>>, config: StrategyConfig, n: int, k: int)
    reads built, if r.Success? then r.value.candidates else []
  {
    && BuiltFrom(built, rows)
    && (r.Failure? <==> rows != [] && Qualitative.ZeroScores(config.axes).None?)
    && (config.metrics == [] ==> Unscored(built))
    && (r.Success? ==>
          && ScoredBy(built, metrics, config)
          && r.value.candidates == Shortlist(built, n)
          && GoodShortlist(r.value.candidates, rows, n)
          && Recommended(r.value.candidates, r.value.topRecommendations, k))
  }

  /** With no metric configured (the default), every composite is 0.0, so the stable ranking
      keeps the universe order and the shortlist is the first `n` candidates as built. */
  lemma {:induction false} ScreenedWithoutMetrics(r: Result<PipelineResult, string>, built: seq<Candidate>, rows: seq<UniverseRow>,
                                                  metrics: map<string, map<string, real>>, config: StrategyConfig, n: int, k: int)
    requires BuiltFrom(built, rows) && Screened(r, built, rows, metrics, config, n, k)
    requires config.metrics == [] && r.Success?
    ensures r.value.candidates == PySliceTo(built, n)
  {
    forall i | 0 <= i < |built| ensures built[i].compositeScore == 0.0 {
      assert built[i] in built;
    }
    RankedAllTied(built, 0.0);
  }

  /** The start of `run`: fetch the universe, make one candidate per row and fetch the
      quantitative metrics of their tickers. */
  method BuildCandidates(marketData: Collector)
    returns (rows: seq<UniverseRow>, cands: seq<Candidate>, metrics: map<string, map<string, real>>)
    requires marketData.Valid()
    modifies marketData`recordsCache
    ensures marketData.Valid()
    ensures rows == Universe(ParseRows(marketData.csvRows), marketData.universe)
    ensures NewlyBuilt(cands, rows) && fresh(set c | c in cands)
    ensures FetchedFor(metrics, marketData.csvRows, cands)
  {
    rows, cands := UniverseCandidates(marketData);
    ghost var built := NewlyBuilt(cands, rows);
    metrics := FetchMetricsOf(marketData, cands);
    assert built == NewlyBuilt(cands, rows);
  }

  /** `fetch_universe`, then one new candidate per universe row. */
  method UniverseCandidates(marketData: Collector) returns (rows: seq<UniverseRow>, cands: seq<Candidate>)
    requires marketData.Valid()
    modifies marketData`recordsCache
    ensures marketData.Valid()
    ensures rows == Universe(ParseRows(marketData.csvRows), marketData.universe)
    ensures NewlyBuilt(cands, rows) && fresh(set c | c in cands)
  {
    rows := marketData.FetchUniverse();
    cands := NewCandidates(rows);
    assert fresh(set c | c in cands);
  }

  /** The metrics the collector reports for the tickers of `cands`. */
  ghost predicate FetchedFor(metrics: map<string, map<string, real>>, csvRows: seq<CsvRow>, cands: seq<Candidate>)
    reads cands`ticker
  {
    metrics == QuantMetrics(ParseRows(csvRows), set t | t in TickersOf(cands))
  }

  /** `fetch_quant_metrics` for the tickers of `cands`. */
  method FetchMetricsOf(marketData: Collector, cands: seq<Candidate>) returns (metrics: map<string, map<string, real>>)
    requires marketData.Valid()
    modifies marketData`recordsCache
    ensures marketData.Valid()
    ensures FetchedFor(metrics, marketData.csvRows, cands)
  {
    var tickers := TickersOf(cands);
    metrics := marketData.FetchQuantMetrics(tickers);
  }

  /** `run` past the dry-run check, on the universe the collector reports. `built` is the
      candidate list the run makes, one new candidate per universe row. */
  method Screen(marketData: Collector, config: StrategyConfig, n: int, k: int)
    returns (r: Result<PipelineResult, string>, ghost built: seq<Candidate>)
    requires marketData.Valid()
    modifies marketData`recordsCache
    ensures marketData.Valid()
    ensures fresh(set c | c in built)
    ensures Screened(r, built, Universe(ParseRows(marketData.csvRows), marketData.universe),
                     QuantMetrics(ParseRows(marketData.csvRows), set t | t in TickersOf(built)), config, n, k)
  {
    var rows, cands, metrics := BuildCandidates(marketData);
    ghost var tickers := TickersOf(cands);
    r := ScoreAndRank(cands, rows, metrics, config, n, k);
    assert TickersOf(cands) == tickers;
    built := cands;
  }

  /** `InvestorPipeline` with the SBI CSV collector as its market-data source. */
  class InvestorPipeline {
    const config: StrategyConfig
    const marketData: Collector

    constructor (config: StrategyConfig, marketData: Collector)
      ensures this.config == config && this.marketData == marketData
    {
      this.config := config;
      this.marketData := marketData;
    }

    /** The universe the collector reports. */
    ghost function UniverseRows(): seq<UniverseRow> {
      Universe(ParseRows(marketData.csvRows), marketData.universe)
    }

    /** `run`: a dry run returns an empty result and reads nothing. Otherwise `built` is the
        candidate list made from the universe, and the run fails exactly when there is a
        candidate and an axis has no id; on success the shortlist is the first `n` of
        `built` ranked by composite score, so it has `min(n, len(universe))` distinct
        candidates from the universe, in non-increasing composite order, each with its
        composite equal to its quantitative score, not excluded, and one recommendation is
        built per selected shortlisted candidate. */
    method Run(dryRun: bool, topN: Option<int>, topK: Option<int>)
      returns (r: Result<PipelineResult, string>, ghost built: seq<Candidate>)
      requires marketData.Valid()
      modifies marketData`recordsCache
      ensures marketData.Valid()
      ensures dryRun ==> r == Success(PipelineResult()) && unchanged(marketData)
      ensures !dryRun ==> fresh(set c | c in built)
      ensures !dryRun ==> Screened(r, built, UniverseRows(), QuantMetrics(ParseRows(marketData.csvRows), set t | t in TickersOf(built)),
                                   config, OrElse(topN, config.topNCandidates), OrElse(topK, config.topK))
    {
      if dryRun {
        return Success(PipelineResult()), [];
      }
      r, built := Screen(marketData, config, OrElse(topN, config.topNCandidates), OrElse(topK, config.topK));
    }
  }
}
