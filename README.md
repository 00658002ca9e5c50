# ai_investor screening core, modelled in Dafny

ai_investor screens Japanese equities. It builds a universe of stocks from an SBI screening
CSV, filtering by market and liquidity. It turns each stock into a `Candidate` and gives it
the metrics from the CSV. It then runs three scoring stages in place:

- quantitative percentile scoring, on two tracks: "price now" and "fundamentals";
- a placeholder qualitative stage, which writes zero axis scores;
- a placeholder exclusion gate, which clears every flag.

It ranks the candidates by composite score, cuts a shortlist, and builds "Watch"
recommendations for the best non-excluded few. A reporting helper renders the candidates
as a Markdown table. A separate skill script finds the as-of date of a data directory: the
date in the newest CSV file's name, or the newest file's modification time.

The model follows the program file by file.

- **Pure code becomes datatypes, functions and lemmas.** This covers:
  - the percentile scorer;
  - `_to_float`;
  - the record parsing and filters;
  - the table layout;
  - the date extraction.
- **Code that updates objects in place becomes imperative Dafny.** This covers:
  - the candidate objects that the scoring stages write;
  - the collector's record cache;
  - the pipeline run;
  - the loops of `build_recommendations`, `_axis_columns`, `to_markdown_table`, `_load_records` and `resolve_as_of`.
- **Methods are proved against specification functions.** Each such method is a class
  method or a `modifies`-framed method with loop invariants. The lemmas then prove the
  program's promises about those functions: ranges, orderings, permutations, round trips
  and filters.

Modules:

| file | module | models |
|---|---|---|
| wrappers.dfy | Wrappers | `Option` and `Result` |
| strings.dfy | Strings | `str.strip`, `in`, `str.replace` with "", `join`/`split`, code-point string order, decimal digits |
| sorting.dfy | Sorting | Python's stable `sorted(..., key=..., reverse=...)` and `xs[:n]` |
| models.dfy | Models | `Evidence`, `Candidate`, `Recommendation`, `PipelineResult` |
| market_data.dfy | MarketData | the universe row a collector returns |
| quantitative.dfy | Quantitative, QuantitativeExamples | `scoring/quantitative.py` |
| qualitative.dfy | Qualitative | `scoring/qualitative.py` |
| exclusion.dfy | Exclusion | `scoring/exclusion.py` |
| ranking.dfy | Ranking | the composite ranking shared by the pipeline and the deep dive |
| top3_deep_dive.dfy | TopDeepDive | `research/top3_deep_dive.py` |
| sbi_csv.dfy | SbiCsv | `_to_float`, `_put_metric` and the row and record types of `collectors/sbi_csv.py` |
| sbi_csv_collector.dfy | SbiCsvCollector | `_load_records`, the filters, `fetch_universe`, `fetch_quant_metrics` |
| tables.dfy | Tables | `reporting/tables.py` |
| pipeline.dfy | Pipeline | `InvestorPipeline.run` with the SBI collector |
| latest_csv_asof.dfy | LatestCsvAsOf | `skills/tse-prime-laggard-flow/scripts/latest_csv_asof.py` |

## Model

| member | source | states |
|---|---|---|
| Quantitative.PriceNowDefs | src/ai_investor/scoring/quantitative.py:18 | a definition is in the price-now track exactly when its id is one of the three price-now metrics |
| Quantitative.FundamentalsDefs | src/ai_investor/scoring/quantitative.py:19 | every other definition, an id-less one included, is in the fundamentals track |
| Quantitative.TracksPartition | src/ai_investor/scoring/quantitative.py:6-10 | the two tracks together hold every definition exactly as often as the configuration does |
| Quantitative.MetricValues | src/ai_investor/scoring/quantitative.py:44-48 | a ticker has a (ticker, value) pair exactly when a candidate with that ticker has the metric; there is at most one pair per candidate |
| Quantitative.PercentileRange | src/ai_investor/scoring/quantitative.py:61-65 | the percentile `(1 - idx/(n-1)) * 100` of a sorted position lies in [0, 100]; the first position scores 100 and the last 0 |
| Quantitative.PercentileStrictlyDecreasing | src/ai_investor/scoring/quantitative.py:61-65 | a later sorted position scores strictly less |
| Quantitative.RankScore | src/ai_investor/scoring/quantitative.py:55-65 | the score map has exactly the tickers of the pairs, every score in [0, 100], and a single pair scores 100 |
| Quantitative.RankScoreAtPosition | src/ai_investor/scoring/quantitative.py:56-65 | with distinct tickers, the ticker at sorted position i scores (1 - i/(n-1)) * 100 |
| Quantitative.RankScoreShape | src/ai_investor/scoring/quantitative.py:56-65 | the best value scores 100, the worst 0, and scores fall strictly along the sorted order |
| Quantitative.RankScoreFollowsValues | src/ai_investor/scoring/quantitative.py:43-56 | a strictly better value (higher when `better` is "higher", lower otherwise) earns a strictly higher score |
| Quantitative.RankScoreTiesInInputOrder | src/ai_investor/scoring/quantitative.py:56 | equal values keep input order (stable sort), so the earlier candidate scores strictly higher |
| Quantitative.SortedDistinctTickers | src/ai_investor/scoring/quantitative.py:56 | sorting the pairs keeps the tickers distinct |
| Quantitative.ScoreByMetrics | src/ai_investor/scoring/quantitative.py:37-52 | at most one score map per definition, and every score in every map lies in [0, 100] |
| Quantitative.ScoreByMetricsMaps | src/ai_investor/scoring/quantitative.py:37-52 | every map is the rank score of the values of a definition with a non-empty id and at least one value, in its direction, and every such definition contributes its map |
| Quantitative.ScoreByMetricsSkips | src/ai_investor/scoring/quantitative.py:40-50 | a definition without an id, or whose id no candidate has a value for, contributes nothing: removing it leaves the maps unchanged |
| Quantitative.Avg | src/ai_investor/scoring/quantitative.py:68-71 | `_avg`: the sum over the length, and 0.0 for an empty list (AvgBounds bounds it) |
| Quantitative.HigherIsBetter | src/ai_investor/scoring/quantitative.py:43-51 | a metric ranks higher values first when its `better` key is absent (the "higher" default) or is "higher"; any other text ranks lower values first |
| Quantitative.AssignPercentiles | src/ai_investor/scoring/quantitative.py:61-65 | the percentile loop over the first k sorted pairs: exactly their tickers get a score, each in [0, 100] |
| Quantitative.TrackScores | src/ai_investor/scoring/quantitative.py:25-28 | a ticker's scores in one track: its entry in each score map that has it, in map order |
| Quantitative.PriceNowScore | src/ai_investor/scoring/quantitative.py:25-30 | the price-now score: the mean of the ticker's price-now scores (TrackScoreBounds keeps it in [0, 100]) |
| Quantitative.FundamentalsScore | src/ai_investor/scoring/quantitative.py:26-31 | the fundamentals score: the mean of the ticker's other scores (TrackScoreBounds keeps it in [0, 100]) |
| Quantitative.QuantitativeScore | src/ai_investor/scoring/quantitative.py:33-34 | the overall score: the mean of the positive track scores (QuantitativeScoreBounds keeps it in [0, 100]) |
| Quantitative.AvgBounds | src/ai_investor/scoring/quantitative.py:68-71 | the mean of a non-empty list of values in [lo, hi] lies in [lo, hi] |
| Quantitative.TrackAverage | src/ai_investor/scoring/quantitative.py:33-34 | the overall score is the mean of the strictly positive track scores: both, one, or 0.0 when neither is positive |
| Quantitative.TrackScoreBounds | src/ai_investor/scoring/quantitative.py:24-32 | each track score lies in [0, 100] |
| Quantitative.QuantitativeScoreBounds | src/ai_investor/scoring/quantitative.py:24-34 | the price-now, fundamentals and overall scores all lie in [0, 100] |
| Quantitative.NoValuesNoScores | src/ai_investor/scoring/quantitative.py:25-32 | a ticker with no value for any metric of a track gets no score in that track and a track score of 0.0 |
| Quantitative.Rows | src/ai_investor/scoring/quantitative.py:44-48 | what the scorer reads of each candidate: its ticker and metric map, one row per candidate in order |
| Quantitative.ScoreCandidates | src/ai_investor/scoring/quantitative.py:13-34 | with no definitions, nothing changes; otherwise every candidate's price-now, fundamentals and overall scores are the track means and their positive mean, and no other field changes |
| Quantitative.WriteScores | src/ai_investor/scoring/quantitative.py:24-34 | the loop writes each candidate's three scores from the two tracks' score maps and touches nothing else |
| QuantitativeExamples.Rank3 | src/ai_investor/scoring/quantitative.py:55-65 | three tickers on a lower-is-better metric with values x < y < z score 100, 50 and 0 |
| QuantitativeExamples.PerRankingExample | src/ai_investor/scoring/quantitative.py:13-65 | three candidates ranked on PER alone get quantitative scores of 100, 50 and 0 |
| QuantitativeExamples.PerLowerTracks | src/ai_investor/scoring/quantitative.py:6-10 | the PER definition falls in the price-now track and ranks lower values first |
| QuantitativeExamples.PriceNowOnly | src/ai_investor/scoring/quantitative.py:24-34 | with one price-now score map and no fundamentals map, the overall score is the ticker's price-now score |
| Qualitative.ZeroScores | src/ai_investor/scoring/qualitative.py:6-10 | fails exactly when some axis has no id; otherwise the keys are exactly the axis ids and every value is 0.0 |
| Qualitative.ScoreCandidates | src/ai_investor/scoring/qualitative.py:6-10 | raises (KeyError) exactly when there is a candidate and an axis lacks an id, changing nothing; otherwise every candidate gets the zero map and a total of 0.0 |
| Exclusion.ApplyExclusionRules | src/ai_investor/scoring/exclusion.py:6-11 | every candidate ends up not excluded, with no reasons, whatever the rules |
| Models.Candidate.constructor | src/ai_investor/models.py:14-30 | a new candidate has the given identity (sector "UNKNOWN" by default), every score 0.0 except the 25.0 qualitative maximum, and empty maps and lists |
| Models.NewRecommendationDefaults | src/ai_investor/models.py:33-47 | a recommendation built from a ticker and a decision has every list field empty |
| Models.NewPipelineResultDefaults | src/ai_investor/models.py:50-53 | a default pipeline result has no candidates and no recommendations |
| Sorting.SortByKey | src/ai_investor/pipeline.py:67 | Python's stable `sorted` with `reverse`: sorted by key, a permutation of the input, and equal keys in input order |
| Sorting.StableTieOrder | src/ai_investor/pipeline.py:67 | two items with equal keys keep their relative order in the sorted output |
| Sorting.SortAllTied | src/ai_investor/pipeline.py:67 | when all keys are equal, the stable sort returns its input unchanged, in either direction |
| Sorting.PySliceTo | src/ai_investor/pipeline.py:68 | `xs[:n]` in Python's terms, negative n included: a prefix of the length Python gives |
| Ranking.RankByComposite | src/ai_investor/pipeline.py:67 | the ranking has as many entries as there are candidates |
| Ranking.RankedIsPermutation | src/ai_investor/pipeline.py:67 | the ranking is a rearrangement of the candidates |
| Ranking.RankedNonIncreasing | src/ai_investor/pipeline.py:67 | composite scores never increase along the ranking |
| Ranking.RankedTiesInInputOrder | src/ai_investor/pipeline.py:67 | candidates with equal composite scores keep their input order |
| Ranking.RankedDistinct | src/ai_investor/pipeline.py:67 | no candidate appears twice in the ranking of distinct candidates |
| Ranking.RankedPrefixBest | src/ai_investor/pipeline.py:67 | every candidate outside the first m of the ranking scores at most every candidate inside them |
| Ranking.RankedAllTied | src/ai_investor/pipeline.py:67 | when all composite scores are equal, the ranking is the input order |
| TopDeepDive.Selected | src/ai_investor/research/top3_deep_dive.py:7-12 | the best `top_k` non-excluded candidates by composite score (SelectedMembers and SelectedNonIncreasing state which and in what order) |
| TopDeepDive.WatchRecommendation | src/ai_investor/research/top3_deep_dive.py:15-23 | the Watch record built for one ticker (WatchRecommendationShape states its fields) |
| TopDeepDive.NotExcluded | src/ai_investor/research/top3_deep_dive.py:7-11 | keeps exactly the non-excluded candidates |
| TopDeepDive.BuildRecommendations | src/ai_investor/research/top3_deep_dive.py:6-24 | one Watch recommendation per selected candidate (the best `top_k` non-excluded by composite), in selection order |
| TopDeepDive.WatchAll | src/ai_investor/research/top3_deep_dive.py:14-23 | the loop builds a Watch record for each candidate, in order |
| TopDeepDive.WatchRecommendationShape | src/ai_investor/research/top3_deep_dive.py:15-23 | every record carries the ticker, the decision "Watch", one fixed reason, risk and assumption, and empty evidence lists |
| TopDeepDive.SelectedMembers | src/ai_investor/research/top3_deep_dive.py:7-12 | only non-excluded input candidates are selected, min(top_k, number of non-excluded) of them |
| TopDeepDive.SelectedNonIncreasing | src/ai_investor/research/top3_deep_dive.py:7-12 | the selection runs from the highest composite score down |
| TopDeepDive.SelectedAreBest | src/ai_investor/research/top3_deep_dive.py:7-12 | no non-excluded candidate left unselected has a higher composite score than a selected one |
| TopDeepDive.NotExcludedDistinct | src/ai_investor/research/top3_deep_dive.py:7 | filtering distinct candidates gives distinct candidates |
| TopDeepDive.SelectedTiesInInputOrder | src/ai_investor/research/top3_deep_dive.py:7-12 | of two tied non-excluded candidates that are both selected, the earlier comes first; when the later one is selected, so is the earlier |
| Pipeline.OrElse | src/ai_investor/pipeline.py:68-70 | `top_n or config` gives the given count unless it is None or 0, else the configured one |
| Pipeline.MetricsFor | src/ai_investor/pipeline.py:52-54 | a ticker's metrics are the collector's map for it, or empty when it has none |
| Pipeline.Shortlist | src/ai_investor/pipeline.py:67-69 | `ranked[:top_n]` over the composite ranking (ShortlistShape states its size, order and members) |
| Pipeline.ShortlistShape | src/ai_investor/pipeline.py:67-69 | the shortlist has min(n, len) distinct candidates in non-increasing composite order |
| Pipeline.ShortlistAreBest | src/ai_investor/pipeline.py:67-69 | no candidate left off the shortlist has a higher composite score than a shortlisted one |
| Pipeline.ShortlistKeepsExcluded | src/ai_investor/pipeline.py:67-69 | a shortlist at least as long as the candidate list holds every candidate, excluded or not |
| Pipeline.ShortlistFromUniverse | src/ai_investor/pipeline.py:47-69 | every shortlisted candidate carries the identity of a universe row |
| Pipeline.ShortlistGood | src/ai_investor/pipeline.py:56-69 | scored candidates built from the universe give a shortlist of the right size, ordered, distinct, non-excluded, with composite equal to quantitative score |
| Pipeline.TickersOf | src/ai_investor/pipeline.py:52 | the ticker list matches the candidates position by position |
| Pipeline.NewCandidates | src/ai_investor/pipeline.py:47-50 | one new, distinct candidate per universe row, in row order, with that row's identity and all three quantitative scores at their 0.0 default |
| Pipeline.AssignMetrics | src/ai_investor/pipeline.py:53-54 | every candidate's metric map becomes the collector's map for its ticker, or empty |
| Pipeline.SetComposite | src/ai_investor/pipeline.py:64-65 | every composite becomes the quantitative score plus the normalized qualitative score |
| Pipeline.ScoreQuantitative | src/ai_investor/pipeline.py:53-55 | every candidate's metrics become the collector's map for its ticker; with metrics configured the three quantitative scores are those of the configured metrics over all candidates, and with none they stay as they were |
| Pipeline.ScoreRest | src/ai_investor/pipeline.py:56-65 | fails, writing nothing, exactly when there is a candidate and an axis lacks an id; otherwise every candidate gets the zero axis scores, is not excluded, has no reasons and has its composite set |
| Pipeline.ScoreAll | src/ai_investor/pipeline.py:53-65 | the scoring stages fail exactly when there is a candidate and an axis lacks an id; every candidate's metrics are the collector's map for its ticker and, with metrics configured, its quantitative scores are those over all candidates, while with none configured scores that were all 0.0 stay 0.0; on success it also has the zero axis scores, a qualitative total of 0.0, no exclusion, no reasons, and composite = quantitative + normalized |
| Pipeline.Conclude | src/ai_investor/pipeline.py:67-80 | the result is the shortlist cut at n, with one recommendation per selected shortlisted candidate |
| Pipeline.RankScored | src/ai_investor/pipeline.py:67-80 | the candidates keep their identity; the result is the first n of them ranked by composite score, a good shortlist, with its recommendations |
| Pipeline.ScoreAndRank | src/ai_investor/pipeline.py:53-80 | given newly built, unscored candidates: they keep their identity; fails exactly when the universe is non-empty and an axis lacks an id; with no metric configured every quantitative score stays 0.0; otherwise every candidate is scored as ScoreAll states and the result is the first n of them ranked by composite score, a good shortlist, with its recommendations |
| Pipeline.RankOrFail | src/ai_investor/pipeline.py:56-80 | a scoring failure is passed on unchanged; otherwise the result is the first n scored candidates by composite score with their recommendations, as Screened states |
| Pipeline.ScreenedWithoutMetrics | src/ai_investor/pipeline.py:53-69 | with no metric configured every composite is 0.0, so a successful shortlist is the first n candidates in universe order |
| Pipeline.UniverseCandidates | src/ai_investor/pipeline.py:46-50 | the rows are the collector's universe and the candidates new ones built from them, one per row, with quantitative scores 0.0 |
| Pipeline.FetchMetricsOf | src/ai_investor/pipeline.py:51-52 | the metric maps the collector holds for the candidates' tickers |
| Pipeline.BuildCandidates | src/ai_investor/pipeline.py:46-54 | the rows are the collector's universe, the candidates new, unscored ones built from them, and the metrics the collector's maps for their tickers |
| Pipeline.Screen | src/ai_investor/pipeline.py:46-80 | the non-dry-run part of `run`: the candidates built from the collector's universe, scored with the collector's metrics (all quantitative scores 0.0 when no metric is configured), and the result their first n by composite score, as for ScoreAndRank |
| Pipeline.InvestorPipeline.constructor | src/ai_investor/pipeline.py:16-23 | the pipeline keeps its configuration and its SBI collector |
| Pipeline.InvestorPipeline.Run | src/ai_investor/pipeline.py:33-80 | a dry run returns an empty result and reads nothing; otherwise the run fails exactly when the universe is non-empty and an axis lacks an id; on success every built candidate is scored (quantitative scores 0.0 when no metric is configured), the shortlist is the first `top_n or config` of them by composite score, a good shortlist, and the `top_k or config` recommendations match it |
| SbiCsv.ToFloat | src/ai_investor/collectors/sbi_csv.py:131-141 | None, blank text and the dash and N/A sentinels give no value |
| SbiCsv.PutMetric | src/ai_investor/collectors/sbi_csv.py:124-128 | the key gets the parsed value when the cell parses; otherwise the map is unchanged |
| SbiCsv.ParseDecimal | src/ai_investor/collectors/sbi_csv.py:139 | `float(text)` on an optional sign, digits and an optional decimal point (ParseDecimalSign and ParseUnsignedNat state how it reads) |
| SbiCsv.ParseUnsignedNat | src/ai_investor/collectors/sbi_csv.py:138-139 | a whole number's decimal digits parse back to the number |
| SbiCsv.ParseDecimalSign | src/ai_investor/collectors/sbi_csv.py:138-139 | a leading '-' negates the number after it |
| SbiCsv.ToFloatInteger | src/ai_investor/collectors/sbi_csv.py:131-141 | a whole number written with surrounding whitespace, an optional minus and an optional '%' reads back as itself (negated for the minus) |
| SbiCsv.ToFloatGrouped | src/ai_investor/collectors/sbi_csv.py:137-139 | a number written with a thousands separator ("1,234") reads as the number without it |
| SbiCsv.ToFloatFraction | src/ai_investor/collectors/sbi_csv.py:137-139 | a number with a fractional part, with or without '%', reads as the whole part plus the fraction digits over their power of ten ("12.5%" gives 12.5) |
| SbiCsv.NoValueTexts | src/ai_investor/collectors/sbi_csv.py:135-136 | no sentinel and no blank text gives a value |
| SbiCsv.ToFloatCleaningStable | src/ai_investor/collectors/sbi_csv.py:134-139 | the cleaned text, fed back in, gives the same result |
| SbiCsv.ToFloatRejectsStray | src/ai_investor/collectors/sbi_csv.py:137-141 | a cleaned text holding a character that is not a digit, a dot or a leading sign reads as no value |
| SbiCsv.StripIdempotent | src/ai_investor/collectors/sbi_csv.py:134 | stripping twice is stripping once |
| Strings.Strip | src/ai_investor/collectors/sbi_csv.py:134 | `str.strip`: leading and trailing whitespace removed (StripShape states the result) |
| Strings.StripShape | src/ai_investor/collectors/sbi_csv.py:134 | `str.strip` gives the empty text exactly for all-whitespace text, and otherwise text that starts and ends with non-whitespace |
| Strings.StripPadded | src/ai_investor/collectors/sbi_csv.py:134 | whitespace added around a text with non-space ends is stripped back off |
| SbiCsvCollector.ParseRow | src/ai_investor/collectors/sbi_csv.py:53-82 | no record exactly when the stripped ticker cell is blank; otherwise the stripped ticker, the stripped name cell (the ticker when blank), the stripped market cell ("UNKNOWN" when blank) and the row's metric map |
| SbiCsvCollector.NoneCodeCellReadsAsText | src/ai_investor/collectors/sbi_csv.py:56-58 | a `None` ticker cell reads as the text "None" and the row is loaded with that ticker |
| SbiCsvCollector.ParseRows | src/ai_investor/collectors/sbi_csv.py:53-82 | the records of the rows in CSV order, at most one per row |
| SbiCsvCollector.AcceptedMembers | src/ai_investor/collectors/sbi_csv.py:53-82 | a filtered parse holds exactly the values the parser gives for some row |
| SbiCsvCollector.ParseRowsMembers | src/ai_investor/collectors/sbi_csv.py:53-82 | a record is loaded exactly when it is the parse of some row with a ticker |
| SbiCsvCollector.RowMetrics | src/ai_investor/collectors/sbi_csv.py:64-80 | the metric map of one row: the nine plain columns, then market cap and turnover scaled to yen (RowMetricsSpec states it) |
| SbiCsvCollector.RowMetricsSpec | src/ai_investor/collectors/sbi_csv.py:64-80 | each of the nine plain columns is present exactly when its cell parses; market cap is the parsed millions * 1e6, turnover the parsed thousands * 1e3 |
| SbiCsvCollector.WithScaledSpec | src/ai_investor/collectors/sbi_csv.py:74-80 | the two scaled keys are added exactly when their cells parse, with values scaled to yen, and no other key changes |
| SbiCsvCollector.PassesMarket | src/ai_investor/collectors/sbi_csv.py:102-110 | `_passes_market` (PassesMarketLabels states when it holds) |
| SbiCsvCollector.PassesMarketLabels | src/ai_investor/collectors/sbi_csv.py:102-110 | every market passes unless TSE_PRIME is configured; then a market passes exactly when its text contains one of the four Prime labels |
| SbiCsvCollector.PrimeLabelPasses | src/ai_investor/collectors/sbi_csv.py:105-110 | a Prime label anywhere in the market text admits the record |
| SbiCsvCollector.PassesLiquidity | src/ai_investor/collectors/sbi_csv.py:112-122 | passes exactly when the turnover is known and reaches the minimum, and the market cap is unknown or reaches its minimum |
| SbiCsvCollector.PassesLiquidityMonotone | src/ai_investor/collectors/sbi_csv.py:112-122 | lowering either threshold never rejects a record that passed |
| SbiCsvCollector.Universe | src/ai_investor/collectors/sbi_csv.py:28-35 | a row is in the universe exactly when it comes from a record passing both filters |
| SbiCsvCollector.UniverseOfOne | src/ai_investor/collectors/sbi_csv.py:30-35 | a record becomes a universe row exactly when it passes the market and liquidity filters; the row keeps the ticker and name and takes the market as its sector |
| SbiCsvCollector.UniverseAppend | src/ai_investor/collectors/sbi_csv.py:28-35 | the universe keeps CSV order: filtering a concatenation filters each part |
| SbiCsvCollector.QuantMetrics | src/ai_investor/collectors/sbi_csv.py:37-43 | the keys are exactly the selected tickers that have a record |
| SbiCsvCollector.QuantMetricsLastWins | src/ai_investor/collectors/sbi_csv.py:37-43 | for a repeated ticker, the last record's metrics win |
| SbiCsvCollector.ParseAll | src/ai_investor/collectors/sbi_csv.py:53-82 | the parsing loop yields the records of the rows |
| SbiCsvCollector.Collector.constructor | src/ai_investor/collectors/sbi_csv.py:23-26 | a new collector keeps its universe settings and rows, with an empty cache |
| SbiCsvCollector.Collector.LoadRecords | src/ai_investor/collectors/sbi_csv.py:45-85 | returns the records of the CSV rows and leaves them cached; a filled cache is returned as it is |
| SbiCsvCollector.Collector.FetchUniverse | src/ai_investor/collectors/sbi_csv.py:28-35 | the universe rows of the records passing both filters, in CSV order |
| SbiCsvCollector.Collector.FetchQuantMetrics | src/ai_investor/collectors/sbi_csv.py:37-43 | the metric maps of the requested tickers that have a record |
| Tables.AxisIds | src/ai_investor/reporting/tables.py:45-47 | an id is present exactly when some candidate has a score for it |
| Tables.PresentPreferred | src/ai_investor/reporting/tables.py:48 | the present preferred ids, in preferred order |
| Tables.AxisColumnsOf | src/ai_investor/reporting/tables.py:37-50 | the column order: the present preferred ids in preferred order, then the remaining present ids in ascending order, each exactly once |
| Tables.AxisColumnsUnique | src/ai_investor/reporting/tables.py:48-50 | only one column order meets that description |
| Tables.AxisColumnsDistinct | src/ai_investor/reporting/tables.py:48-50 | each present id appears exactly once among the columns |
| Tables.AxisColumns | src/ai_investor/reporting/tables.py:37-50 | returns the column order for the ids present in the candidates |
| Tables.GatherAxisIds | src/ai_investor/reporting/tables.py:45-47 | the loop gathers exactly the ids some candidate has scores for |
| Tables.OrderAxisColumns | src/ai_investor/reporting/tables.py:48-50 | orders the present ids as the column order requires |
| Tables.SortStrings | src/ai_investor/reporting/tables.py:49 | `sorted` over a set: every element once, in strictly ascending order |
| Tables.AxisLabel | src/ai_investor/reporting/tables.py:53-61 | a preferred axis gets its short label; any other id is its own label |
| Tables.AxisLabelsDistinct | src/ai_investor/reporting/tables.py:53-61 | the preferred axes carry their short labels, and different ids that are not short labels get different labels |
| Tables.HeaderCells | src/ai_investor/reporting/tables.py:8-10 | the ten fixed headings, then one label per axis column |
| Tables.SeparatorCells | src/ai_investor/reporting/tables.py:11 | the alignment row: the fixed alignments, then one right-aligned marker per axis column |
| Tables.AxisCells | src/ai_investor/reporting/tables.py:15-18 | one cell per axis column: the candidate's score, or 0.0 when it has none, formatted |
| Tables.RowCells | src/ai_investor/reporting/tables.py:19-32 | the cells of one candidate's row: one per fixed heading and one per axis column (RowCellsShow states their contents) |
| Tables.TableLines | src/ai_investor/reporting/tables.py:6-34 | the heading line, the alignment line, then one line per candidate (TableLayout reads them back) |
| Tables.ToMarkdownTable | src/ai_investor/reporting/tables.py:6-34 | the heading and alignment lines, then one line per candidate in input order, joined by newlines |
| Tables.RenderRows | src/ai_investor/reporting/tables.py:13-33 | one line per candidate, in input order |
| Tables.TableLayout | src/ai_investor/reporting/tables.py:6-34 | read back line by line and cell by cell, the table gives the heading cells, the alignment cells, and each candidate's row cells |
| Tables.RowCellsShow | src/ai_investor/reporting/tables.py:19-32 | a row shows the ticker, the formatted qualitative total, the exclusion flag as "yes" or "no", the reasons joined by ", ", and each axis column's score, 0.0 when the candidate has none |
| LatestCsvAsOf.Search | skills/tse-prime-laggard-flow/scripts/latest_csv_asof.py:19 | `pattern.search`: the leftmost position where the pattern matches, or none |
| LatestCsvAsOf.Groups | skills/tse-prime-laggard-flow/scripts/latest_csv_asof.py:22 | the year, month and day groups of a match are digit strings |
| LatestCsvAsOf.BaseName | skills/tse-prime-laggard-flow/scripts/latest_csv_asof.py:17 | the name is the text after the path's last '/' |
| LatestCsvAsOf.ScanPatterns | skills/tse-prime-laggard-flow/scripts/latest_csv_asof.py:18-27 | the pattern loop: the first pattern that matches decides the date, or none (DateFromNameCases states the cases) |
| LatestCsvAsOf.ExtractDateFromName | skills/tse-prime-laggard-flow/scripts/latest_csv_asof.py:16-27 | `_extract_date_from_name`: the pattern scan on the file name alone |
| LatestCsvAsOf.DateFromNameCases | skills/tse-prime-laggard-flow/scripts/latest_csv_asof.py:16-27 | the first pattern that matches anywhere decides: its leftmost match's date if valid, else none; no match for either pattern gives none |
| LatestCsvAsOf.DirectoryIgnored | skills/tse-prime-laggard-flow/scripts/latest_csv_asof.py:17 | the directories above a file never affect its date |
| LatestCsvAsOf.CompactRoundTrip | skills/tse-prime-laggard-flow/scripts/latest_csv_asof.py:10-27 | a valid date of this century written as 20YYMMDD after a digit-free prefix is read back |
| LatestCsvAsOf.DashedRoundTrip | skills/tse-prime-laggard-flow/scripts/latest_csv_asof.py:10-27 | a valid date of this century written as 20YY-MM-DD between digit-free text is read back |
| LatestCsvAsOf.InvalidFirstMatchWins | skills/tse-prime-laggard-flow/scripts/latest_csv_asof.py:18-26 | an invalid compact match ends the search: "20241399-2024-01-15" has no date, though its dashed part is a valid date |
| LatestCsvAsOf.MakeDateCalendar | skills/tse-prime-laggard-flow/scripts/latest_csv_asof.py:23-26 | `date(y, m, d)` gives that date for every year 1-9999, month 1-12 and day 1-28; it fails for a year, month or day out of range and for the 31st of a 30-day month; February 29 is a date exactly in leap years (2000 and 2024, not 1900) |
| LatestCsvAsOf.DatedLtOrder | skills/tse-prime-laggard-flow/scripts/latest_csv_asof.py:47-48 | the (date, mtime, path) key order is irreflexive, transitive and total |
| LatestCsvAsOf.UndatedLtOrder | skills/tse-prime-laggard-flow/scripts/latest_csv_asof.py:51-52 | the (mtime, path) key order is irreflexive, transitive and total |
| LatestCsvAsOf.DatedOf | skills/tse-prime-laggard-flow/scripts/latest_csv_asof.py:38-42 | the dated list: (date, mtime, path) for each file whose name carries a date, in file order |
| LatestCsvAsOf.UndatedOf | skills/tse-prime-laggard-flow/scripts/latest_csv_asof.py:38-44 | the undated list: (mtime, path) for each file whose name carries no date, in file order |
| LatestCsvAsOf.DatedOfMembers | skills/tse-prime-laggard-flow/scripts/latest_csv_asof.py:38-42 | each dated entry is a file whose name carries that date |
| LatestCsvAsOf.UndatedOfMembers | skills/tse-prime-laggard-flow/scripts/latest_csv_asof.py:38-44 | each undated entry is a file whose name carries no date |
| LatestCsvAsOf.Partition | skills/tse-prime-laggard-flow/scripts/latest_csv_asof.py:35-44 | every file lands in exactly one of the two lists |
| LatestCsvAsOf.SplitByNameDate | skills/tse-prime-laggard-flow/scripts/latest_csv_asof.py:35-44 | the loop builds exactly the dated and undated lists |
| LatestCsvAsOf.LatestDated | skills/tse-prime-laggard-flow/scripts/latest_csv_asof.py:47-48 | an entry of the list that no entry exceeds in (date, mtime, path) order |
| LatestCsvAsOf.LatestUndated | skills/tse-prime-laggard-flow/scripts/latest_csv_asof.py:51-52 | an entry of the list that no entry exceeds in (mtime, path) order |
| LatestCsvAsOf.SortedLastIsLatestDated | skills/tse-prime-laggard-flow/scripts/latest_csv_asof.py:47-48 | sorting by the key and taking the last entry gives the same entry as the scan |
| LatestCsvAsOf.SortedLastIsLatestUndated | skills/tse-prime-laggard-flow/scripts/latest_csv_asof.py:51-52 | the same for the undated list |
| LatestCsvAsOf.LatestDatedBeatsAll | skills/tse-prime-laggard-flow/scripts/latest_csv_asof.py:38-49 | the chosen dated file is one of the files, its name carries the reported date, and no dated file has a greater key |
| LatestCsvAsOf.LatestUndatedBeatsAll | skills/tse-prime-laggard-flow/scripts/latest_csv_asof.py:38-54 | with no dated file, the chosen file is one of the files and no file has a greater (mtime, path) key |
| LatestCsvAsOf.PickLatestDated | skills/tse-prime-laggard-flow/scripts/latest_csv_asof.py:47-48 | the loop finds the greatest dated entry |
| LatestCsvAsOf.PickLatestUndated | skills/tse-prime-laggard-flow/scripts/latest_csv_asof.py:51-52 | the loop finds the greatest undated entry |
| LatestCsvAsOf.ResolveAsOf | skills/tse-prime-laggard-flow/scripts/latest_csv_asof.py:30-54 | fails, with the source's message, exactly when there are no CSV files; any dated file beats every undated one; the greatest dated entry's date and path, or else the newest undated file's mtime and path |

## Left out

- **The file system.** `_resolve_csv_path`, `Path.rglob`, `is_file`, `stat` and reading the
  CSV through `csv.DictReader` are not modelled. The collector is given the parsed rows as
  header-to-cell maps, and `resolve_as_of` is given each CSV file's path and `st_mtime`.
  The initial `sorted` of the paths does not affect the result, because the choice is a
  maximum over all files.
- **`datetime.fromtimestamp`.** It reads the local time zone. The undated result keeps the
  raw modification time (`FromMtime`) instead of a local date.
- **Floating point.** Floats are exact reals: no rounding and no NaN. The
  `isinstance(..., (int, float))` checks always hold, because every metric is a number.
- **`float(text)`.** It is modelled only for an optional sign, digits and an optional
  decimal point. Exponents, `inf`/`nan`, underscores and non-ASCII digits parse as no value
  in the model.
- **Digits.** `\d` is taken as the ASCII digits only.
- **`:.2f` formatting.** It is the parameter `fmt` of the table functions. The table lemmas
  require cells without '|' or newline, which the source does not escape.
- **Out of scope.** These parts are not part of this model:
  - `config.py`, `main.py` and `markdown_report.py`;
  - the `main` of `latest_csv_asof.py`;
  - the news, EDINET and J-Quants collector stubs, and the J-Quants branch of `InvestorPipeline.__init__`.
- **Mismatched names and call arguments in `pipeline.py`.**
  - The first failure comes at import. `pipeline.py:7` imports `WebSearchNewsCollector` from
    `ai_investor.collectors.news`, and that module defines only `NewsItem`,
    `TdnetPublicCollector` and `GNewsCollector`. As written, importing the pipeline raises
    `ImportError`, so neither `InvestorPipeline.__init__` nor `run` is ever reached.
  - Pipeline.InvestorPipeline.constructor and Pipeline.InvestorPipeline.Run model the pipeline
    with that name defined, and with the callees composed as they are declared.
  - The literal text calls the qualitative scorer with a `scale_max` keyword it does not
    declare.
  - It calls `build_recommendations` with `web_news`, `tdnet`, `news_lookback_days` and
    `as_of` keywords it does not declare.
  - Even with the missing name defined, those calls would raise `TypeError`. The model
    composes the callees as they are declared.
- **The `as_of` hook.** The hook in `run` is left out, because the SBI collector has no
  `as_of` attribute.
- Pipeline.ScoreAll: two promises are stated on Pipeline.ScoreRest and
  Pipeline.ScoreQuantitative rather than repeated on ScoreAll: that a failure writes nothing
  past the quantitative stage, and that with no metric configured any quantitative scores stay
  as they were. ScoreAll states the second only for scores that were all 0.0, which is the
  case `run` meets.
- **Aliasing.** The scoring stages need no distinctness: a candidate object listed twice gets
  the same writes twice, and their contracts hold for it. Only some lemmas assume
  distinctness: the ranking, shortlist and deep-dive lemmas about distinct members take
  distinct candidate objects, which the pipeline builds, and the per-position percentile
  lemmas take distinct tickers.
- Quantitative.ScoreByMetrics: in `MetricDef.better`, `None` stands for an absent key, which
  defaults to "higher" as in the source. A `better` key present with the value `None`, which
  the source would treat as "not higher", is not modelled. A present `id` that is not a
  string is not modelled either.
- Qualitative.ZeroScores: an axis whose `id` key is missing fails as the source's `KeyError`
  does. An `id` present with the value `None` or another non-string, which the source would
  use as a key without failing, is not modelled, because axes are declared with string ids.
- SbiCsvCollector.ParseRow: a missing cell (`None` from a short row) reads as the text
  "None" where the source calls `str()`, as the source does. The `if not row` skip of an
  entirely empty dict is not modelled, because such a row has no ticker and is skipped
  anyway.
- LatestCsvAsOf.CompactRoundTrip and LatestCsvAsOf.DashedRoundTrip: the round trips require
  digit-free text before (and for the dashed form also after) the date. Other digits could
  form an earlier match.
