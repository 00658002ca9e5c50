/** Percentile scoring of the candidates on the configured metrics
    (src/ai_investor/scoring/quantitative.py).

    Each metric ranks the candidates that have a value for it; position `i` of `n` scores
    `100 * (1 - i / (n - 1))` (100 when only one candidate qualifies). The metric scores are
    averaged per track, price-now (pbr, per, dividend_yield) or fundamentals, and the
    quantitative score is the mean of the strictly positive track scores. Scores are
    modelled as exact reals. */
module Quantitative {
  import opened Wrappers
  import opened Sorting
  import opened Models

  /** The metric ids of the price-now track. */
  const PriceNowMetrics: set<string> := {"pbr", "per", "dividend_yield"}

  /** One configured metric, `{"id": ..., "better": ...}`; either key may be absent. */
  datatype MetricDef = MetricDef(id: Option<string>, better: Option<string>)

  /** What the scorer reads of one candidate: its ticker and its metric map. */
  datatype MetricRow = MetricRow(ticker: string, metrics: map<string, real>)

  predicate InPriceNowTrack(d: MetricDef) {
    d.id.Some? && d.id.value in PriceNowMetrics
  }

  /** The definitions of the price-now track, in configuration order. */
  function PriceNowDefs(defs: seq<MetricDef>): (r: seq<MetricDef>)
    ensures forall d :: d in r <==> d in defs && InPriceNowTrack(d)
  {
    if defs == [] then []
    else (if InPriceNowTrack(defs[0]) then [defs[0]] else []) + PriceNowDefs(defs[1..])
  }

  /** The definitions of the fundamentals track (everything else, an id-less one included), in order. */
  function FundamentalsDefs(defs: seq<MetricDef>): (r: seq<MetricDef>)
    ensures forall d :: d in r <==> d in defs && !InPriceNowTrack(d)
  {
    if defs == [] then []
    else (if InPriceNowTrack(defs[0]) then [] else [defs[0]]) + FundamentalsDefs(defs[1..])
  }

  /** The two tracks split the definitions: together they hold each definition exactly as
      often as the configuration does, and no definition is in both. */
  lemma {:induction false} TracksPartition(defs: seq<MetricDef>)
    ensures multiset(PriceNowDefs(defs)) + multiset(FundamentalsDefs(defs)) == multiset(defs)
    ensures forall d :: d in defs ==> (d in PriceNowDefs(defs) <==> d !in FundamentalsDefs(defs))
  {
    if defs != [] {
      TracksPartition(defs[1..]);
      assert defs == [defs[0]] + defs[1..];
    }
  }

  /** `metric_def.get("better", "higher") == "higher"`. */
  predicate HigherIsBetter(d: MetricDef) {
    d.better.None? || d.better.value == "higher"
  }

  function Tickers(vals: seq<(string, real)>): set<string> {
    set p | p in vals :: p.0
  }

  /** The (ticker, value) pairs of the candidates that have metric `id`, in candidate order. */
  function MetricValues(rows: seq<MetricRow>, id: string): (vals: seq<(string, real)>)
    ensures |vals| <= |rows|
    ensures forall t :: t in Tickers(vals) <==> exists row :: row in rows && row.ticker == t && id in row.metrics
  {
    if rows == [] then []
    else
      var rest := MetricValues(rows[1..], id);
      var head := if id in rows[0].metrics then [(rows[0].ticker, rows[0].metrics[id])] else [];
      assert rows == [rows[0]] + rows[1..];
      assert Tickers(head + rest) == Tickers(head) + Tickers(rest);
      head + rest
  }

  /** The score of sorted position `i` out of `n >= 2`. */
  function Percentile(i: nat, n: nat): real
    requires n >= 2
  {
    (1.0 - (i as real) / ((n - 1) as real)) * 100.0
  }

  lemma {:induction false} DivWithinUnit(a: real, d: real)
    requires 0.0 <= a <= d && d > 0.0
    ensures 0.0 <= a / d <= 1.0
  {
  }

  lemma {:induction false} DivStrictlyIncreasing(a: real, b: real, d: real)
    requires a < b && d > 0.0
    ensures a / d < b / d
  {
  }

  lemma {:induction false} PercentileRange(i: nat, n: nat)
    requires 2 <= n && i < n
    ensures 0.0 <= Percentile(i, n) <= 100.0
    ensures i == 0 ==> Percentile(i, n) == 100.0
    ensures i == n - 1 ==> Percentile(i, n) == 0.0
  {
    DivWithinUnit(i as real, (n - 1) as real);
  }

  lemma {:induction false} PercentileStrictlyDecreasing(i: nat, j: nat, n: nat)
    requires 2 <= n && i < j < n
    ensures Percentile(i, n) > Percentile(j, n)
  {
    DivStrictlyIncreasing(i as real, j as real, (n - 1) as real);
  }

  /** The loop of `_rank_score` over the first `k` sorted pairs: each ticker gets the score of its
      position, and a later position of the same ticker overwrites an earlier one. */
  function AssignPercentiles(sorted: seq<(string, real)>, k: nat): (m: map<string, real>)
    requires 2 <= |sorted| && k <= |sorted|
    ensures m.Keys == Tickers(sorted[..k])
    ensures forall t :: t in m ==> 0.0 <= m[t] <= 100.0
  {
    if k == 0 then map[]
    else
      PercentileRange(k - 1, |sorted|);
      assert sorted[..k] == sorted[..k - 1] + [sorted[k - 1]];
      assert Tickers(sorted[..k]) == Tickers(sorted[..k - 1]) + {sorted[k - 1].0};
      AssignPercentiles(sorted, k - 1)[sorted[k - 1].0 := Percentile(k - 1, |sorted|)]
  }

  lemma {:induction false} PermutedTickers(a: seq<(string, real)>, b: seq<(string, real)>)
    requires multiset(a) == multiset(b)
    ensures Tickers(a) == Tickers(b)
  {
    forall t | t in Tickers(a) ensures t in Tickers(b) {
      var p :| p in a && p.0 == t;
      assert p in multiset(b);
    }
    forall t | t in Tickers(b) ensures t in Tickers(a) {
      var p :| p in b && p.0 == t;
      assert p in multiset(a);
    }
  }

  /** `_rank_score`: sort the pairs (descending when higher is better, stably) and score each
      ticker by its position; a lone pair scores 100. */
  function RankScore(vals: seq<(string, real)>, higherIsBetter: bool): (r: map<string, real>)
    ensures r.Keys == Tickers(vals)
    ensures forall t :: t in r ==> 0.0 <= r[t] <= 100.0
    ensures |vals| == 1 ==> r == map[vals[0].0 := 100.0]
  {
    var sorted := SortByKey(vals, higherIsBetter);
    PermutedTickers(sorted, vals);
    if |sorted| == 1 then
      assert sorted[0] in multiset(vals);
      map[sorted[0].0 := 100.0]
    else if |sorted| == 0 then map[]
    else
      assert sorted[..|sorted|] == sorted;
      AssignPercentiles(sorted, |sorted|)
  }

  /** No ticker occurs in two pairs. */
  ghost predicate DistinctTickers(vals: seq<(string, real)>) {
    forall i, j :: 0 <= i < j < |vals| ==> vals[i].0 != vals[j].0
  }

  /** Sorting keeps tickers distinct. */
  lemma {:induction false} SortedDistinctTickers(vals: seq<(string, real)>, descending: bool)
    requires DistinctTickers(vals)
    ensures DistinctTickers(SortByKey(vals, descending))
  {
    var s := SortByKey(vals, descending);
    assert Distinct(vals);
    DistinctCount(vals);
    forall a, b | 0 <= a < b < |s| ensures s[a].0 != s[b].0 {
      if s[a] == s[b] {
        TwiceCounted(s, a, b);
      } else {
        assert s[a] in multiset(vals) && s[b] in multiset(vals);
        var i :| 0 <= i < |vals| && vals[i] == s[a];
        var j :| 0 <= j < |vals| && vals[j] == s[b];
        assert i != j;
      }
    }
  }

  lemma {:induction false} AssignPercentilesAt(sorted: seq<(string, real)>, k: nat, i: nat)
    requires 2 <= |sorted| && i < k <= |sorted|
    requires DistinctTickers(sorted)
    ensures AssignPercentiles(sorted, k)[sorted[i].0] == Percentile(i, |sorted|)
  {
    if i < k - 1 {
      AssignPercentilesAt(sorted, k - 1, i);
    }
  }

  /** With distinct tickers and at least two of them, sorted position `i` scores exactly
      `100 * (1 - i / (n - 1))`. */
  lemma {:induction false} RankScoreAtPosition(vals: seq<(string, real)>, higherIsBetter: bool, i: nat)
    requires DistinctTickers(vals) && 2 <= |vals| && i < |vals|
    ensures var sorted := SortByKey(vals, higherIsBetter);
      RankScore(vals, higherIsBetter)[sorted[i].0] == Percentile(i, |vals|)
  {
    var sorted := SortByKey(vals, higherIsBetter);
    SortedDistinctTickers(vals, higherIsBetter);
    AssignPercentilesAt(sorted, |sorted|, i);
  }

  /** The first in sorted order scores 100, the last 0, and the score falls strictly with position. */
  lemma {:induction false} RankScoreShape(vals: seq<(string, real)>, higherIsBetter: bool, i: nat, j: nat)
    requires DistinctTickers(vals) && 2 <= |vals| && i < j < |vals|
    ensures var sorted := SortByKey(vals, higherIsBetter);
      var r := RankScore(vals, higherIsBetter);
      && r[sorted[0].0] == 100.0
      && r[sorted[|vals| - 1].0] == 0.0
      && r[sorted[i].0] > r[sorted[j].0]
  {
    var n := |vals|;
    PercentileRange(0, n);
    PercentileRange(n - 1, n);
    PercentileStrictlyDecreasing(i, j, n);
    RankScoreAtPosition(vals, higherIsBetter, 0);
    RankScoreAtPosition(vals, higherIsBetter, n - 1);
    RankScoreAtPosition(vals, higherIsBetter, i);
    RankScoreAtPosition(vals, higherIsBetter, j);
  }

  /** A strictly better value earns a strictly higher score (higher values are better when
      `higherIsBetter`, lower ones otherwise). */
  lemma {:induction false} RankScoreFollowsValues(vals: seq<(string, real)>, higherIsBetter: bool, a: nat, b: nat)
    requires DistinctTickers(vals) && a < |vals| && b < |vals|
    requires Precedes(vals[a].1, vals[b].1, higherIsBetter)
    ensures RankScore(vals, higherIsBetter)[vals[a].0] > RankScore(vals, higherIsBetter)[vals[b].0]
  {
    var sorted := SortByKey(vals, higherIsBetter);
    assert vals[a] in multiset(sorted) && vals[b] in multiset(sorted);
    var p :| 0 <= p < |sorted| && sorted[p] == vals[a];
    var q :| 0 <= q < |sorted| && sorted[q] == vals[b];
    assert p < q;
    RankScoreShape(vals, higherIsBetter, p, q);
  }

  /** Equal values are ranked in input order: the earlier candidate scores strictly higher. */
  lemma {:induction false} RankScoreTiesInInputOrder(vals: seq<(string, real)>, higherIsBetter: bool, a: nat, b: nat)
    requires DistinctTickers(vals) && a < b < |vals| && vals[a].1 == vals[b].1
    ensures RankScore(vals, higherIsBetter)[vals[a].0] > RankScore(vals, higherIsBetter)[vals[b].0]
  {
    assert Distinct(vals);
    StableTieOrder(vals, higherIsBetter, a, b);
    var sorted := SortByKey(vals, higherIsBetter);
    var p, q :| 0 <= p < q < |vals| && sorted[p] == vals[a] && sorted[q] == vals[b];
    RankScoreShape(vals, higherIsBetter, p, q);
  }

  /** `_score_by_metrics`: one score map per definition that has an id and at least one
      candidate with a value for it, in configuration order. */
  function ScoreByMetrics(rows: seq<MetricRow>, defs: seq<MetricDef>): (maps: seq<map<string, real>>)
    ensures |maps| <= |defs|
    ensures forall m, t :: m in maps && t in m ==> 0.0 <= m[t] <= 100.0
  {
    if defs == [] then []
    else
      var rest := ScoreByMetrics(rows, defs[1..]);
      var d := defs[0];
      if d.id.None? || d.id.value == "" then rest
      else
        var vals := MetricValues(rows, d.id.value);
        if vals == [] then rest else [RankScore(vals, HigherIsBetter(d))] + rest
  }

  /** A definition `_score_by_metrics` scores: it has a non-empty id and some candidate has a
      value for it. */
  predicate Scorable(rows: seq<MetricRow>, d: MetricDef) {
    d.id.Some? && d.id.value != "" && MetricValues(rows, d.id.value) != []
  }

  /** The score map a definition adds: its values' ranking when it is scorable, none otherwise. */
  function MapsOf(rows: seq<MetricRow>, d: MetricDef): seq<map<string, real>> {
    if Scorable(rows, d) then [RankScore(MetricValues(rows, d.id.value), HigherIsBetter(d))] else []
  }

  lemma {:induction false} ScoreByMetricsCons(rows: seq<MetricRow>, defs: seq<MetricDef>)
    requires defs != []
    ensures ScoreByMetrics(rows, defs) == MapsOf(rows, defs[0]) + ScoreByMetrics(rows, defs[1..])
  {
  }

  /** Every score map is the percentile ranking of some scorable definition's values, in that
      definition's direction; and every scorable definition contributes its ranking. */
  lemma {:induction false} ScoreByMetricsMaps(rows: seq<MetricRow>, defs: seq<MetricDef>)
    ensures forall m :: m in ScoreByMetrics(rows, defs) ==>
      exists d :: d in defs && Scorable(rows, d) && m == RankScore(MetricValues(rows, d.id.value), HigherIsBetter(d))
    ensures forall d :: d in defs && Scorable(rows, d) ==>
      RankScore(MetricValues(rows, d.id.value), HigherIsBetter(d)) in ScoreByMetrics(rows, defs)
  {
    if defs != [] {
      ScoreByMetricsMaps(rows, defs[1..]);
      ScoreByMetricsCons(rows, defs);
      assert forall d :: d in defs <==> d == defs[0] || d in defs[1..];
    }
  }

  /** A definition without an id, with an empty id, or with no candidate holding a value adds
      no score map: dropping it changes nothing. */
  lemma {:induction false} ScoreByMetricsSkips(rows: seq<MetricRow>, pre: seq<MetricDef>, d: MetricDef, post: seq<MetricDef>)
    requires !Scorable(rows, d)
    ensures ScoreByMetrics(rows, pre + [d] + post) == ScoreByMetrics(rows, pre + post)
  {
    var all, kept := pre + [d] + post, pre + post;
    if pre == [] {
      assert all == [d] + post && kept == post;
      ScoreByMetricsSkipsHead(rows, d, post);
    } else {
      calc {
        ScoreByMetrics(rows, all);
        == { assert all[0] == pre[0] && all[1..] == pre[1..] + [d] + post; ScoreByMetricsCons(rows, all); }
        MapsOf(rows, pre[0]) + ScoreByMetrics(rows, pre[1..] + [d] + post);
        == { ScoreByMetricsSkips(rows, pre[1..], d, post); }
        MapsOf(rows, pre[0]) + ScoreByMetrics(rows, pre[1..] + post);
        == { assert kept[0] == pre[0] && kept[1..] == pre[1..] + post; ScoreByMetricsCons(rows, kept); }
        ScoreByMetrics(rows, kept);
      }
    }
  }

  lemma {:induction false} ScoreByMetricsSkipsHead(rows: seq<MetricRow>, d: MetricDef, post: seq<MetricDef>)
    requires !Scorable(rows, d)
    ensures ScoreByMetrics(rows, [d] + post) == ScoreByMetrics(rows, post)
  {
    var all := [d] + post;
    assert all[0] == d && all[1..] == post;
    ScoreByMetricsCons(rows, all);
  }

  /** The scores one ticker received, one per score map that has it. */
  function TrackScores(maps: seq<map<string, real>>, ticker: string): seq<real> {
    if maps == [] then []
    else (if ticker in maps[0] then [maps[0][ticker]] else []) + TrackScores(maps[1..], ticker)
  }

  function Sum(vs: seq<real>): real {
    if vs == [] then 0.0 else vs[0] + Sum(vs[1..])
  }

  /** `_avg`: the arithmetic mean, 0.0 for no values. */
  function Avg(vs: seq<real>): real {
    if vs == [] then 0.0 else Sum(vs) / (|vs| as real)
  }

  lemma {:induction false} SumBounds(vs: seq<real>, lo: real, hi: real)
    requires forall i :: 0 <= i < |vs| ==> lo <= vs[i] <= hi
    ensures (|vs| as real) * lo <= Sum(vs) <= (|vs| as real) * hi
  {
    if vs != [] {
      SumBounds(vs[1..], lo, hi);
    }
  }

  /** The mean of values in `[lo, hi]` lies in `[lo, hi]`. */
  lemma {:induction false} AvgBounds(vs: seq<real>, lo: real, hi: real)
    requires vs != []
    requires forall i :: 0 <= i < |vs| ==> lo <= vs[i] <= hi
    ensures lo <= Avg(vs) <= hi
  {
    SumBounds(vs, lo, hi);
    var n := |vs| as real;
    assert Avg(vs) * n == Sum(vs);
  }

  lemma {:induction false} TrackScoresBounds(maps: seq<map<string, real>>, ticker: string)
    requires forall m, t :: m in maps && t in m ==> 0.0 <= m[t] <= 100.0
    ensures forall i :: 0 <= i < |TrackScores(maps, ticker)| ==> 0.0 <= TrackScores(maps, ticker)[i] <= 100.0
  {
    if maps != [] {
      assert maps[0] in maps;
      TrackScoresBounds(maps[1..], ticker);
    }
  }

  /** The strictly positive values, in order. */
  function Positives(vs: seq<real>): seq<real> {
    if vs == [] then [] else (if vs[0] > 0.0 then [vs[0]] else []) + Positives(vs[1..])
  }

  lemma {:induction false} PositivesPair(a: real, b: real)
    ensures Positives([a, b]) == if a > 0.0 && b > 0.0 then [a, b]
      else if a > 0.0 then [a]
      else if b > 0.0 then [b]
      else []
    ensures Sum([a, b]) == a + b && Sum([a]) == a && Sum([b]) == b
  {
    assert [a, b][1..] == [b] && [b][1..] == [] && [a][1..] == [];
    assert Positives([b]) == (if b > 0.0 then [b] else []) + Positives([]);
    assert Positives([a, b]) == (if a > 0.0 then [a] else []) + Positives([b]);
    assert Sum([b]) == b + Sum([]);
    assert Sum([a, b]) == a + Sum([b]);
  }

  /** The overall score: the mean of the strictly positive track scores, 0.0 when neither is. */
  function TrackAverage(priceNow: real, fundamentals: real): (r: real)
    ensures priceNow > 0.0 && fundamentals > 0.0 ==> r == (priceNow + fundamentals) / 2.0
    ensures priceNow > 0.0 && fundamentals <= 0.0 ==> r == priceNow
    ensures priceNow <= 0.0 && fundamentals > 0.0 ==> r == fundamentals
    ensures priceNow <= 0.0 && fundamentals <= 0.0 ==> r == 0.0
  {
    PositivesPair(priceNow, fundamentals);
    Avg(Positives([priceNow, fundamentals]))
  }

  /** A candidate's price-now score: the mean of its scores on the price-now metrics. */
  function PriceNowScore(rows: seq<MetricRow>, defs: seq<MetricDef>, ticker: string): real {
    Avg(TrackScores(ScoreByMetrics(rows, PriceNowDefs(defs)), ticker))
  }

  /** A candidate's fundamentals score: the mean of its scores on the other metrics. */
  function FundamentalsScore(rows: seq<MetricRow>, defs: seq<MetricDef>, ticker: string): real {
    Avg(TrackScores(ScoreByMetrics(rows, FundamentalsDefs(defs)), ticker))
  }

  /** A candidate's quantitative score. */
  function QuantitativeScore(rows: seq<MetricRow>, defs: seq<MetricDef>, ticker: string): real {
    TrackAverage(PriceNowScore(rows, defs, ticker), FundamentalsScore(rows, defs, ticker))
  }

  lemma {:induction false} TrackScoreBounds(rows: seq<MetricRow>, defs: seq<MetricDef>, ticker: string)
    ensures 0.0 <= Avg(TrackScores(ScoreByMetrics(rows, defs), ticker)) <= 100.0
  {
    var vs := TrackScores(ScoreByMetrics(rows, defs), ticker);
    TrackScoresBounds(ScoreByMetrics(rows, defs), ticker);
    if vs != [] {
      AvgBounds(vs, 0.0, 100.0);
    }
  }

  /** Every score the scorer writes lies in [0, 100]. */
  lemma {:induction false} QuantitativeScoreBounds(rows: seq<MetricRow>, defs: seq<MetricDef>, ticker: string)
    ensures 0.0 <= PriceNowScore(rows, defs, ticker) <= 100.0
    ensures 0.0 <= FundamentalsScore(rows, defs, ticker) <= 100.0
    ensures 0.0 <= QuantitativeScore(rows, defs, ticker) <= 100.0
  {
    TrackScoreBounds(rows, PriceNowDefs(defs), ticker);
    TrackScoreBounds(rows, FundamentalsDefs(defs), ticker);
  }

  /** A ticker with no value for any metric of a track gets no score in that track, so the
      track scores 0.0 for it. */
  lemma {:induction false} NoValuesNoScores(rows: seq<MetricRow>, defs: seq<MetricDef>, ticker: string)
    requires forall d, row :: d in defs && d.id.Some? && row in rows && row.ticker == ticker ==> d.id.value !in row.metrics
    ensures TrackScores(ScoreByMetrics(rows, defs), ticker) == []
    ensures Avg(TrackScores(ScoreByMetrics(rows, defs), ticker)) == 0.0
  {
    if defs != [] {
      NoValuesNoScores(rows, defs[1..], ticker);
      var d := defs[0];
      if d.id.Some? && d.id.value != "" {
        var vals := MetricValues(rows, d.id.value);
        assert ticker !in Tickers(vals);
        if vals != [] {
          var m := RankScore(vals, HigherIsBetter(d));
          assert ticker !in m;
          var maps := [m] + ScoreByMetrics(rows, defs[1..]);
          assert maps[1..] == ScoreByMetrics(rows, defs[1..]);
        }
      }
    }
  }

  /** What `score_candidates` reads of each candidate. */
  function Rows(cands: seq<Candidate>): (rows: seq<MetricRow>)
    reads cands`ticker, cands`quantitativeMetrics
    ensures |rows| == |cands|
    ensures forall i :: 0 <= i < |cands| ==> rows[i] == MetricRow(cands[i].ticker, cands[i].quantitativeMetrics)
  {
    if cands == [] then [] else [MetricRow(cands[0].ticker, cands[0].quantitativeMetrics)] + Rows(cands[1..])
  }

  /** The three fields `score_candidates` writes hold the scores from the two tracks' score maps. */
  ghost predicate Scored(c: Candidate, priceMaps: seq<map<string, real>>, fundamentalsMaps: seq<map<string, real>>)
    reads c
  {
    && c.quantitativeScorePriceNow == Avg(TrackScores(priceMaps, c.ticker))
    && c.quantitativeScoreFundamentalsBase == Avg(TrackScores(fundamentalsMaps, c.ticker))
    && c.quantitativeScore == TrackAverage(c.quantitativeScorePriceNow, c.quantitativeScoreFundamentalsBase)
  }

  /** `score_candidates`: writes the two track scores and the quantitative score of every
      candidate from the metric maps of all of them; with no candidates or no metric
      definitions nothing changes. Tickers and metric maps are outside the frame, so
      `Rows(cands)` is the same before and after. */
  method ScoreCandidates(cands: seq<Candidate>, defs: seq<MetricDef>)
    modifies cands`quantitativeScore, cands`quantitativeScorePriceNow, cands`quantitativeScoreFundamentalsBase
    ensures defs == [] ==> forall c :: c in cands ==> unchanged(c)
    ensures defs != [] ==> forall c :: c in cands ==>
      && c.quantitativeScorePriceNow == PriceNowScore(Rows(cands), defs, c.ticker)
      && c.quantitativeScoreFundamentalsBase == FundamentalsScore(Rows(cands), defs, c.ticker)
      && c.quantitativeScore == TrackAverage(c.quantitativeScorePriceNow, c.quantitativeScoreFundamentalsBase)
  {
    if cands == [] || defs == [] {
      return;
    }
    var rows := Rows(cands);
    var priceMaps := ScoreByMetrics(rows, PriceNowDefs(defs));
    var fundamentalsMaps := ScoreByMetrics(rows, FundamentalsDefs(defs));
    WriteScores(cands, priceMaps, fundamentalsMaps);
    assert Rows(cands) == rows;
  }

  /** The loop of `score_candidates`: each candidate gets the mean of its scores in each
      track and the mean of its positive track scores. */
  method WriteScores(cands: seq<Candidate>, priceMaps: seq<map<string, real>>, fundamentalsMaps: seq<map<string, real>>)
    modifies cands`quantitativeScore, cands`quantitativeScorePriceNow, cands`quantitativeScoreFundamentalsBase
    ensures forall c :: c in cands ==> Scored(c, priceMaps, fundamentalsMaps)
  {
    var i := 0;
    while i < |cands|
      invariant 0 <= i <= |cands|
      invariant forall j :: 0 <= j < i ==> Scored(cands[j], priceMaps, fundamentalsMaps)
    {
      var c := cands[i];
      c.quantitativeScorePriceNow := Avg(TrackScores(priceMaps, c.ticker));
      c.quantitativeScoreFundamentalsBase := Avg(TrackScores(fundamentalsMaps, c.ticker));
      c.quantitativeScore := TrackAverage(c.quantitativeScorePriceNow, c.quantitativeScoreFundamentalsBase);
      i := i + 1;
    }
    forall c | c in cands
      ensures Scored(c, priceMaps, fundamentalsMaps)
    {
      var j :| 0 <= j < |cands| && cands[j] == c;
    }
  }
}

/** Three candidates ranked on one PER metric, lower is better. */
module QuantitativeExamples {
  import opened Wrappers
  import opened Sorting
  import opened Quantitative

  const PerLower: seq<MetricDef> := [MetricDef(Some("per"), Some("lower"))]

  /** Candidates `a`, `b`, `c` whose PER values are `x`, `y`, `z`. */
  function Rows3(a: string, b: string, c: string, x: real, y: real, z: real): seq<MetricRow> {
    [MetricRow(a, map["per" := x]), MetricRow(b, map["per" := y]), MetricRow(c, map["per" := z])]
  }

  lemma {:induction false} Values3(a: string, b: string, c: string, x: real, y: real, z: real)
    ensures MetricValues(Rows3(a, b, c, x, y, z), "per") == [(a, x), (b, y), (c, z)]
  {
    var r := Rows3(a, b, c, x, y, z);
    assert r[1..] == [r[1], r[2]] && r[1..][1..] == [r[2]] && [r[2]][1..] == [];
    assert MetricValues([r[2]], "per") == [(c, z)];
    assert MetricValues(r[1..], "per") == [(b, y), (c, z)];
  }

  lemma {:induction false} Sorted3(a: string, b: string, c: string, x: real, y: real, z: real)
    requires x < y < z
    ensures SortByKey([(a, x), (b, y), (c, z)], false) == [(a, x), (b, y), (c, z)]
  {
    var v := [(a, x), (b, y), (c, z)];
    assert v[1..] == [v[1], v[2]] && v[1..][1..] == [v[2]] && [v[2]][1..] == [];
    assert SortByKey([v[2]], false) == Insert(v[2], [], false) == [v[2]];
    assert Insert(v[1], [v[2]], false) == [v[1], v[2]];
    assert SortByKey(v[1..], false) == v[1..];
    assert Insert(v[0], v[1..], false) == v;
  }

  lemma {:induction false} Percentiles3()
    ensures Percentile(0, 3) == 100.0 && Percentile(1, 3) == 50.0 && Percentile(2, 3) == 0.0
  {
    PercentileRange(0, 3);
    PercentileRange(2, 3);
    assert (1 as real) / ((3 - 1) as real) == 0.5;
  }

  lemma {:induction false} Rank3(a: string, b: string, c: string, x: real, y: real, z: real)
    requires a != b && a != c && b != c && x < y < z
    ensures RankScore([(a, x), (b, y), (c, z)], false) == map[a := 100.0, b := 50.0, c := 0.0]
  {
    var v := [(a, x), (b, y), (c, z)];
    var r := RankScore(v, false);
    Sorted3(a, b, c, x, y, z);
    Percentiles3();
    assert DistinctTickers(v);
    RankScoreAtPosition(v, false, 0);
    RankScoreAtPosition(v, false, 1);
    RankScoreAtPosition(v, false, 2);
    TickersOfThree(v);
    MapOfThree(r, a, b, c, 100.0, 50.0, 0.0);
  }

  lemma {:induction false} TickersOfThree(v: seq<(string, real)>)
    requires |v| == 3
    ensures Tickers(v) == {v[0].0, v[1].0, v[2].0}
  {
    forall t | t in Tickers(v) ensures t == v[0].0 || t == v[1].0 || t == v[2].0 {
      var p :| p in v && p.0 == t;
    }
    assert v[0] in v && v[1] in v && v[2] in v;
  }

  lemma {:induction false} MapOfThree(r: map<string, real>, a: string, b: string, c: string, p: real, q: real, s: real)
    requires r.Keys == {a, b, c} && a != b && a != c && b != c
    requires r[a] == p && r[b] == q && r[c] == s
    ensures r == map[a := p, b := q, c := s]
  {
  }

  lemma {:induction false} Maps3(a: string, b: string, c: string, x: real, y: real, z: real)
    requires a != b && a != c && b != c && x < y < z
    ensures ScoreByMetrics(Rows3(a, b, c, x, y, z), PriceNowDefs(PerLower)) == [map[a := 100.0, b := 50.0, c := 0.0]]
    ensures ScoreByMetrics(Rows3(a, b, c, x, y, z), FundamentalsDefs(PerLower)) == []
  {
    var rows := Rows3(a, b, c, x, y, z);
    PerLowerTracks();
    Values3(a, b, c, x, y, z);
    Rank3(a, b, c, x, y, z);
    assert ScoreByMetrics(rows, PerLower) == [RankScore([(a, x), (b, y), (c, z)], false)] + ScoreByMetrics(rows, []);
  }

  /** The PER definition belongs to the price-now track and ranks lower values first. */
  lemma {:induction false} PerLowerTracks()
    ensures PriceNowDefs(PerLower) == PerLower && FundamentalsDefs(PerLower) == []
    ensures PerLower[0].id == Some("per") && !HigherIsBetter(PerLower[0])
  {
    assert PerLower[1..] == [];
    assert InPriceNowTrack(PerLower[0]);
    assert "lower"[0] != "higher"[0];
  }

  /** Three candidates ranked on PER, lower is better: 100, 50 and 0; with no fundamentals
      metric the quantitative score is the price-now score. */
  lemma {:induction false} PerRankingExample(a: string, b: string, c: string, x: real, y: real, z: real)
    requires a != b && a != c && b != c && x < y < z
    ensures QuantitativeScore(Rows3(a, b, c, x, y, z), PerLower, a) == 100.0
    ensures QuantitativeScore(Rows3(a, b, c, x, y, z), PerLower, b) == 50.0
    ensures QuantitativeScore(Rows3(a, b, c, x, y, z), PerLower, c) == 0.0
  {
    Maps3(a, b, c, x, y, z);
    var rows := Rows3(a, b, c, x, y, z);
    var m := map[a := 100.0, b := 50.0, c := 0.0];
    PriceNowOnly(rows, m, a);
    PriceNowOnly(rows, m, b);
    PriceNowOnly(rows, m, c);
  }

  /** With one price-now score map and no fundamentals map, a ticker's quantitative score is
      its price-now score. */
  lemma {:induction false} PriceNowOnly(rows: seq<MetricRow>, m: map<string, real>, t: string)
    requires ScoreByMetrics(rows, PriceNowDefs(PerLower)) == [m]
    requires ScoreByMetrics(rows, FundamentalsDefs(PerLower)) == []
    requires t in m && m[t] >= 0.0
    ensures QuantitativeScore(rows, PerLower, t) == m[t]
  {
    OneMap(m, t);
    assert PriceNowScore(rows, PerLower, t) == m[t];
    assert FundamentalsScore(rows, PerLower, t) == 0.0;
  }

  lemma {:induction false} OneMap(m: map<string, real>, t: string)
    requires t in m
    ensures Avg(TrackScores([m], t)) == m[t]
  {
    var ms: seq<map<string, real>> := [m];
    assert ms[1..] == [];
    assert TrackScores(ms[1..], t) == [];
    assert TrackScores(ms, t) == [m[t]];
    assert [m[t]][1..] == [];
    assert Sum([m[t]]) == m[t];
  }
}
