/** The row, filter and collector half of src/ai_investor/collectors/sbi_csv.py: parsing a CSV
    row into a record, the market and liquidity filters, and the collector with its cache. */
module SbiCsvCollector {
  import opened Wrappers
  import opened Strings
  import opened MarketData
  import opened SbiCsv

  /** The metric columns copied as they are, with the key each is stored under. */
  const MetricColumns: seq<(string, string)> := [
    ("現在値", "latest_close"),
    ("PER(株価収益率)(倍)", "per"),
    ("PBR(株価純資産倍率)(倍)", "pbr"),
    ("配当利回り(%)", "dividend_yield"),
    ("ROE(自己資本利益率)(%)", "roe"),
    ("自己資本比率(%)", "equity_ratio"),
    ("有利子負債自己資本比率(%)", "net_de_ratio"),
    ("売上高変化率(%)", "revenue_cagr_3y"),
    ("経常利益変化率(%)", "op_income_cagr_3y")
  ]

  /** Market capitalisation, in millions of yen. */
  const MarketCapColumn: string := "時価総額(百万円)"
  /** Average trading value, in thousands of yen. */
  const TurnoverColumn: string := "平均売買代金(千円)"
  const MarketCapKey: string := "market_cap_jpy"
  const TurnoverKey: string := "avg_turnover_20d"

  /** The `_put_metric` calls for `cols`, in order. */
  function PutMetrics(metrics: map<string, real>, row: CsvRow, cols: seq<(string, string)>): map<string, real>
    decreases |cols|
  {
    if cols == [] then metrics
    else PutMetrics(PutMetric(metrics, cols[0].1, Cell(row, cols[0].0)), row, cols[1..])
  }

  /** The metric map of one row: the plain columns, then the two scaled ones. */
  function RowMetrics(row: CsvRow): map<string, real> {
    WithScaled(PutMetrics(map[], row, MetricColumns), ToFloat(Cell(row, MarketCapColumn)), ToFloat(Cell(row, TurnoverColumn)))
  }

  /** Adds the market cap given in millions of yen and the turnover given in thousands, each
      in yen and only when known. */
  function WithScaled(plain: map<string, real>, capMillions: Option<real>, turnoverThousands: Option<real>): map<string, real> {
    var withCap := if capMillions.Some? then plain[MarketCapKey := capMillions.value * 1000000.0] else plain;
    if turnoverThousands.Some? then withCap[TurnoverKey := turnoverThousands.value * 1000.0] else withCap
  }

  lemma {:induction false} WithScaledSpec(plain: map<string, real>, capMillions: Option<real>, turnoverThousands: Option<real>)
    ensures var m := WithScaled(plain, capMillions, turnoverThousands);
      && (forall k :: k != MarketCapKey && k != TurnoverKey ==> (k in m <==> k in plain))
      && (forall k :: k != MarketCapKey && k != TurnoverKey && k in m ==> m[k] == plain[k])
      && (MarketCapKey in m <==> capMillions.Some? || MarketCapKey in plain)
      && (capMillions.Some? ==> m[MarketCapKey] == capMillions.value * 1000000.0)
      && (TurnoverKey in m <==> turnoverThousands.Some? || TurnoverKey in plain)
      && (turnoverThousands.Some? ==> m[TurnoverKey] == turnoverThousands.value * 1000.0)
  {
    MetricKeysDistinct();
  }

  /** The body of the `_load_records` loop for one row: no record when the ticker is blank;
      otherwise the company name falls back to the ticker and the market to "UNKNOWN". */
  function ParseRow(row: CsvRow): (r: Option<SbiRecord>)
    ensures r.None? <==> Strip(CellText(row, "コード")) == ""
    ensures r.Some? ==> r.value.ticker == Strip(CellText(row, "コード")) && r.value.ticker != ""
    ensures r.Some? ==> r.value.companyName != "" && r.value.market != ""
    ensures r.Some? ==> r.value.companyName == (if Strip(CellText(row, "銘柄名")) == "" then r.value.ticker else Strip(CellText(row, "銘柄名")))
    ensures r.Some? ==> r.value.market == (if Strip(CellText(row, "市場")) == "" then "UNKNOWN" else Strip(CellText(row, "市場")))
    ensures r.Some? ==> r.value.metrics == RowMetrics(row)
  {
    var ticker := Strip(CellText(row, "コード"));
    if ticker == "" then None
    else
      var name := Strip(CellText(row, "銘柄名"));
      var market := Strip(CellText(row, "市場"));
      Some(SbiRecord(
        ticker,
        if name == "" then ticker else name,
        if market == "" then "UNKNOWN" else market,
        RowMetrics(row)))
  }

  /** `str(None)` is "None": in a row cut short, whose missing cells the CSV reader fills with
      `None`, a `None` code cell still yields a record, under the ticker "None". */
  lemma {:induction false} NoneCodeCellReadsAsText(row: CsvRow)
    requires "コード" in row && row["コード"].None?
    ensures ParseRow(row).Some? && ParseRow(row).value.ticker == "None"
  {
    assert CellText(row, "コード") == "None";
    StripUntouched("None");
  }

  /** The values `f` gives for the elements it accepts, in order. */
  function Accepted<T, U>(f: T -> Option<U>, xs: seq<T>): (ys: seq<U>)
    ensures |ys| <= |xs|
  {
    if xs == [] then []
    else
      var last := f(xs[|xs| - 1]);
      Accepted(f, xs[..|xs| - 1]) + (if last.Some? then [last.value] else [])
  }

  /** A value is accepted exactly when `f` gives it for some element. */
  lemma {:induction false} AcceptedMembers<T, U>(f: T -> Option<U>, xs: seq<T>)
    ensures forall y :: y in Accepted(f, xs) <==> exists k :: 0 <= k < |xs| && f(xs[k]) == Some(y)
    decreases |xs|
  {
    if xs != [] {
      var n := |xs| - 1;
      var init := xs[..n];
      AcceptedMembers(f, init);
      forall y ensures y in Accepted(f, xs) <==> exists k :: 0 <= k < |xs| && f(xs[k]) == Some(y) {
        if y in Accepted(f, init) {
          var k :| 0 <= k < n && f(init[k]) == Some(y);
          assert f(xs[k]) == Some(y);
        }
        if exists k :: 0 <= k < |xs| && f(xs[k]) == Some(y) {
          var k :| 0 <= k < |xs| && f(xs[k]) == Some(y);
          if k < n {
            assert f(init[k]) == Some(y);
          }
        }
      }
    }
  }

  /** The records of the rows, in CSV order, skipping rows without a ticker. */
  function ParseRows(rows: seq<CsvRow>): (records: seq<SbiRecord>)
    ensures |records| <= |rows|
  {
    if rows == [] then []
    else
      var last := ParseRow(rows[|rows| - 1]);
      ParseRows(rows[..|rows| - 1]) + (if last.Some? then [last.value] else [])
  }

  lemma {:induction false} ParseRowsAccepted(rows: seq<CsvRow>)
    ensures ParseRows(rows) == Accepted(ParseRow, rows)
    decreases |rows|
  {
    if rows != [] {
      ParseRowsAccepted(rows[..|rows| - 1]);
    }
  }

  /** A record is loaded exactly when it is the parse of a row with a ticker. */
  lemma {:induction false} ParseRowsMembers(rows: seq<CsvRow>)
    ensures forall x :: x in ParseRows(rows) <==> exists k :: 0 <= k < |rows| && ParseRow(rows[k]) == Some(x)
  {
    ParseRowsAccepted(rows);
    AcceptedMembers(ParseRow, rows);
  }

  /** `_passes_market`: every market passes unless the configured market is TSE_PRIME, which
      admits a market text naming the Prime section. */
  predicate PassesMarket(config: UniverseConfig, market: string) {
    config.market != "TSE_PRIME"
    || Contains(market, "東証P") || Contains(market, "東P") || Contains(market, "プライム") || Contains(market, "Prime")
  }

  /** `_passes_liquidity`: the turnover must be known and reach the minimum; the market cap, when
      known, must reach its minimum. */
  function PassesLiquidity(config: UniverseConfig, metrics: map<string, real>): (b: bool)
    ensures b <==> && TurnoverKey in metrics && metrics[TurnoverKey] >= config.minAvgTradingValue20dJpy as real
                   && (MarketCapKey !in metrics || metrics[MarketCapKey] >= config.minMarketCapJpy as real)
  {
    if TurnoverKey !in metrics then false
    else if metrics[TurnoverKey] < config.minAvgTradingValue20dJpy as real then false
    else if MarketCapKey in metrics && metrics[MarketCapKey] < config.minMarketCapJpy as real then false
    else true
  }

  predicate Passes(config: UniverseConfig, r: SbiRecord) {
    PassesMarket(config, r.market) && PassesLiquidity(config, r.metrics)
  }

  /** The universe row a record becomes: its market doubles as the sector. */
  function ToUniverseRow(r: SbiRecord): UniverseRow {
    UniverseRow(r.ticker, r.companyName, r.market)
  }

  /** `fetch_universe` on the loaded records: the records passing both filters, in CSV order. */
  function Universe(records: seq<SbiRecord>, config: UniverseConfig): (rows: seq<UniverseRow>)
    ensures |rows| <= |records|
    ensures forall u :: u in rows <==> exists r :: r in records && Passes(config, r) && u == ToUniverseRow(r)
  {
    if records == [] then []
    else
      var head := if Passes(config, records[0]) then [ToUniverseRow(records[0])] else [];
      assert records == [records[0]] + records[1..];
      head + Universe(records[1..], config)
  }

  /** One record becomes a universe row exactly when it passes the market and the liquidity
      filter; the row keeps its ticker and name and takes its market as the sector. */
  lemma {:induction false} UniverseOfOne(config: UniverseConfig, r: SbiRecord)
    ensures Universe([r], config) ==
      if PassesMarket(config, r.market) && PassesLiquidity(config, r.metrics) then [UniverseRow(r.ticker, r.companyName, r.market)] else []
  {
    assert [r][1..] == [];
  }

  /** `fetch_quant_metrics` on the loaded records: each selected ticker maps to the metrics of
      its last record. */
  function QuantMetrics(records: seq<SbiRecord>, selected: set<string>): (m: map<string, map<string, real>>)
    ensures forall t :: t in m <==> t in selected && exists r :: r in records && r.ticker == t
  {
    if records == [] then map[]
    else
      var r := records[|records| - 1];
      var rest := QuantMetrics(records[..|records| - 1], selected);
      assert records == records[..|records| - 1] + [r];
      if r.ticker in selected then rest[r.ticker := r.metrics] else rest
  }

  /** No two metric columns share a key, and neither scaled key is among them. */
  lemma {:induction false} MetricKeysDistinct()
    ensures forall a, b :: 0 <= a < b < |MetricColumns| ==> MetricColumns[a].1 != MetricColumns[b].1
    ensures forall a :: 0 <= a < |MetricColumns| ==> MetricColumns[a].1 != MarketCapKey && MetricColumns[a].1 != TurnoverKey
    ensures MarketCapKey != TurnoverKey
  {
  }

  /** A key no column writes keeps its entry. */
  lemma {:induction false} PutMetricsOther(m: map<string, real>, row: CsvRow, cols: seq<(string, string)>, k: string)
    requires forall a :: 0 <= a < |cols| ==> cols[a].1 != k
    ensures k in PutMetrics(m, row, cols) <==> k in m
    ensures k in m ==> PutMetrics(m, row, cols)[k] == m[k]
    decreases |cols|
  {
    if cols != [] {
      PutMetricsOther(PutMetric(m, cols[0].1, Cell(row, cols[0].0)), row, cols[1..], k);
    }
  }

  /** With distinct keys, column `i`'s key is present exactly when its cell parses, with the parsed value. */
  lemma {:induction false} PutMetricsAt(m: map<string, real>, row: CsvRow, cols: seq<(string, string)>, i: nat)
    requires forall a, b :: 0 <= a < b < |cols| ==> cols[a].1 != cols[b].1
    requires i < |cols| && cols[i].1 !in m
    ensures cols[i].1 in PutMetrics(m, row, cols) <==> ToFloat(Cell(row, cols[i].0)).Some?
    ensures cols[i].1 in PutMetrics(m, row, cols) ==> PutMetrics(m, row, cols)[cols[i].1] == ToFloat(Cell(row, cols[i].0)).value
    decreases |cols|
  {
    var m' := PutMetric(m, cols[0].1, Cell(row, cols[0].0));
    if i == 0 {
      PutMetricsOther(m', row, cols[1..], cols[0].1);
    } else {
      assert cols[1..][i - 1] == cols[i];
      PutMetricsAt(m', row, cols[1..], i - 1);
    }
  }

  /** What a row's metric map holds: each plain column's value exactly when it parses, the
      market cap scaled from millions of yen and the turnover from thousands of yen exactly
      when those parse, and no other key. */
  lemma {:induction false} RowMetricsSpec(row: CsvRow)
    ensures forall i :: 0 <= i < |MetricColumns| ==>
      (MetricColumns[i].1 in RowMetrics(row) <==> ToFloat(Cell(row, MetricColumns[i].0)).Some?)
    ensures forall i :: 0 <= i < |MetricColumns| && MetricColumns[i].1 in RowMetrics(row) ==>
      RowMetrics(row)[MetricColumns[i].1] == ToFloat(Cell(row, MetricColumns[i].0)).value
    ensures MarketCapKey in RowMetrics(row) <==> ToFloat(Cell(row, MarketCapColumn)).Some?
    ensures MarketCapKey in RowMetrics(row) ==> RowMetrics(row)[MarketCapKey] == ToFloat(Cell(row, MarketCapColumn)).value * 1000000.0
    ensures TurnoverKey in RowMetrics(row) <==> ToFloat(Cell(row, TurnoverColumn)).Some?
    ensures TurnoverKey in RowMetrics(row) ==> RowMetrics(row)[TurnoverKey] == ToFloat(Cell(row, TurnoverColumn)).value * 1000.0
    ensures forall k :: k in RowMetrics(row) ==>
      k == MarketCapKey || k == TurnoverKey || exists i :: 0 <= i < |MetricColumns| && MetricColumns[i].1 == k
  {
    PlainMetricsSpec(row);
    MetricKeysDistinct();
    WithScaledSpec(PutMetrics(map[], row, MetricColumns), ToFloat(Cell(row, MarketCapColumn)), ToFloat(Cell(row, TurnoverColumn)));
  }

  /** The plain columns' part of a row's metric map. */
  lemma {:induction false} PlainMetricsSpec(row: CsvRow)
    ensures var plain := PutMetrics(map[], row, MetricColumns);
      && (forall i :: 0 <= i < |MetricColumns| ==>
           && (MetricColumns[i].1 in plain <==> ToFloat(Cell(row, MetricColumns[i].0)).Some?)
           && (MetricColumns[i].1 in plain ==> plain[MetricColumns[i].1] == ToFloat(Cell(row, MetricColumns[i].0)).value))
      && MarketCapKey !in plain && TurnoverKey !in plain
      && (forall k :: k in plain ==> exists i :: 0 <= i < |MetricColumns| && MetricColumns[i].1 == k)
  {
    MetricKeysDistinct();
    var plain := PutMetrics(map[], row, MetricColumns);
    forall i | 0 <= i < |MetricColumns|
      ensures MetricColumns[i].1 in plain <==> ToFloat(Cell(row, MetricColumns[i].0)).Some?
      ensures MetricColumns[i].1 in plain ==> plain[MetricColumns[i].1] == ToFloat(Cell(row, MetricColumns[i].0)).value
    {
      PutMetricsAt(map[], row, MetricColumns, i);
    }
    PutMetricsOther(map[], row, MetricColumns, MarketCapKey);
    PutMetricsOther(map[], row, MetricColumns, TurnoverKey);
    forall k | k in plain ensures exists i :: 0 <= i < |MetricColumns| && MetricColumns[i].1 == k {
      if forall a :: 0 <= a < |MetricColumns| ==> MetricColumns[a].1 != k {
        PutMetricsOther(map[], row, MetricColumns, k);
      }
    }
  }

  /** The market labels that admit a record under the TSE_PRIME setting. */
  const PrimeLabels: seq<string> := ["東証P", "東P", "プライム", "Prime"]

  /** Under TSE_PRIME a market text passes exactly when it contains one of the Prime labels;
      under any other setting every market passes. */
  lemma {:induction false} PassesMarketLabels(config: UniverseConfig, market: string)
    ensures config.market != "TSE_PRIME" ==> PassesMarket(config, market)
    ensures config.market == "TSE_PRIME" ==>
      (PassesMarket(config, market) <==> exists i, j :: 0 <= i < |PrimeLabels| && OccursAt(market, PrimeLabels[i], j))
  {
    if config.market == "TSE_PRIME" && PassesMarket(config, market) {
      if Contains(market, "東証P") {
        var j :| OccursAt(market, "東証P", j);
        assert OccursAt(market, PrimeLabels[0], j);
      } else if Contains(market, "東P") {
        var j :| OccursAt(market, "東P", j);
        assert OccursAt(market, PrimeLabels[1], j);
      } else if Contains(market, "プライム") {
        var j :| OccursAt(market, "プライム", j);
        assert OccursAt(market, PrimeLabels[2], j);
      } else {
        var j :| OccursAt(market, "Prime", j);
        assert OccursAt(market, PrimeLabels[3], j);
      }
    }
  }

  /** A label anywhere in the market text admits the record. */
  lemma {:induction false} PrimeLabelPasses(config: UniverseConfig, pre: string, i: nat, post: string)
    requires i < |PrimeLabels|
    ensures PassesMarket(config, pre + PrimeLabels[i] + post)
  {
    var market := pre + PrimeLabels[i] + post;
    var tag := PrimeLabels[i];
    assert market[|pre|..|pre| + |tag|] == tag;
    assert OccursAt(market, tag, |pre|);
    PassesMarketLabels(config, market);
  }

  /** Lowering either threshold never rejects a record that passed. */
  lemma {:induction false} PassesLiquidityMonotone(strict: UniverseConfig, loose: UniverseConfig, metrics: map<string, real>)
    requires loose.minAvgTradingValue20dJpy <= strict.minAvgTradingValue20dJpy
    requires loose.minMarketCapJpy <= strict.minMarketCapJpy
    ensures PassesLiquidity(strict, metrics) ==> PassesLiquidity(loose, metrics)
  {
  }

  /** The universe keeps CSV order: filtering a concatenation filters each part. */
  lemma {:induction false} UniverseAppend(a: seq<SbiRecord>, b: seq<SbiRecord>, config: UniverseConfig)
    ensures Universe(a + b, config) == Universe(a, config) + Universe(b, config)
  {
    if a == [] {
      assert a + b == b;
    } else {
      assert (a + b)[1..] == a[1..] + b;
      UniverseAppend(a[1..], b, config);
    }
  }

  lemma {:induction false} UniverseStep(records: seq<SbiRecord>, i: nat, config: UniverseConfig)
    requires i < |records|
    ensures Universe(records[..i + 1], config)
      == Universe(records[..i], config) + (if Passes(config, records[i]) then [ToUniverseRow(records[i])] else [])
  {
    UniverseAppend(records[..i], [records[i]], config);
    assert records[..i + 1] == records[..i] + [records[i]];
    assert [records[i]][1..] == [];
  }

  lemma {:induction false} QuantMetricsStep(records: seq<SbiRecord>, i: nat, selected: set<string>)
    requires i < |records|
    ensures QuantMetrics(records[..i + 1], selected)
      == if records[i].ticker in selected then QuantMetrics(records[..i], selected)[records[i].ticker := records[i].metrics]
         else QuantMetrics(records[..i], selected)
  {
    assert records[..i + 1][..i] == records[..i];
  }

  /** With a ticker repeated, its last record's metrics win. */
  lemma {:induction false} QuantMetricsLastWins(records: seq<SbiRecord>, selected: set<string>, i: nat)
    requires i < |records| && records[i].ticker in selected
    requires forall j :: i < j < |records| ==> records[j].ticker != records[i].ticker
    ensures QuantMetrics(records, selected)[records[i].ticker] == records[i].metrics
    decreases |records|
  {
    if i < |records| - 1 {
      var front := records[..|records| - 1];
      assert front[i] == records[i];
      QuantMetricsLastWins(front, selected, i);
    }
  }

  lemma {:induction false} ParseRowsStep(rows: seq<CsvRow>, i: nat)
    requires i < |rows|
    ensures ParseRows(rows[..i + 1])
      == ParseRows(rows[..i]) + (if ParseRow(rows[i]).Some? then [ParseRow(rows[i]).value] else [])
  {
    assert rows[..i + 1][..i] == rows[..i];
  }

  /** The parsing loop of `_load_records`: every row in order, rows without a ticker skipped. */
  method ParseAll(rows: seq<CsvRow>) returns (records: seq<SbiRecord>)
    ensures records == ParseRows(rows)
  {
    records := [];
    for i := 0 to |rows|
      invariant records == ParseRows(rows[..i])
    {
      ParseRowsStep(rows, i);
      var r := ParseRow(rows[i]);
      if r.Some? {
        records := records + [r.value];
      }
    }
    assert rows[..|rows|] == rows;
  }

  /** `SbiCsvMarketDataCollector`: the universe settings, the rows of the CSV file it reads,
      and the records cache, filled on first use and reused afterwards. */
  class Collector {
    const universe: UniverseConfig
    const csvRows: seq<CsvRow>
    var recordsCache: Option<seq<SbiRecord>>

    /** A filled cache holds the records of the CSV rows. */
    ghost predicate Valid()
      reads this`recordsCache
    {
      recordsCache.Some? ==> recordsCache.value == ParseRows(csvRows)
    }

    constructor (universe: UniverseConfig, csvRows: seq<CsvRow>)
      ensures this.universe == universe && this.csvRows == csvRows
      ensures recordsCache.None? && Valid()
    {
      this.universe := universe;
      this.csvRows := csvRows;
      recordsCache := None;
    }

    /** `_load_records`: the cached records when there are any; otherwise parses every row,
        skipping rows without a ticker, and caches the result. */
    method LoadRecords() returns (records: seq<SbiRecord>)
      requires Valid()
      modifies this`recordsCache
      ensures Valid()
      ensures records == ParseRows(csvRows)
      ensures recordsCache == Some(records)
      ensures old(recordsCache).Some? ==> recordsCache == old(recordsCache)
    {
      if recordsCache.Some? {
        return recordsCache.value;
      }
      records := ParseAll(csvRows);
      recordsCache := Some(records);
    }

    /** `fetch_universe`: the universe rows of the records passing both filters, in CSV order. */
    method FetchUniverse() returns (rows: seq<UniverseRow>)
      requires Valid()
      modifies this`recordsCache
      ensures Valid() && recordsCache.Some?
      ensures rows == Universe(ParseRows(csvRows), universe)
    {
      var records := LoadRecords();
      rows := [];
      for i := 0 to |records|
        invariant rows == Universe(records[..i], universe)
        invariant recordsCache == Some(records)
      {
        UniverseStep(records, i, universe);
        if Passes(universe, records[i]) {
          rows := rows + [ToUniverseRow(records[i])];
        }
      }
      assert records[..|records|] == records;
    }

    /** `fetch_quant_metrics`: for each requested ticker with a record, the metrics of its
        last record. */
    method FetchQuantMetrics(tickers: seq<string>) returns (metrics: map<string, map<string, real>>)
      requires Valid()
      modifies this`recordsCache
      ensures Valid() && recordsCache.Some?
      ensures metrics == QuantMetrics(ParseRows(csvRows), set t | t in tickers)
    {
      var selected := set t | t in tickers;
      var records := LoadRecords();
      metrics := map[];
      for i := 0 to |records|
        invariant metrics == QuantMetrics(records[..i], selected)
        invariant recordsCache == Some(records)
      {
        QuantMetricsStep(records, i, selected);
        if records[i].ticker in selected {
          metrics := metrics[records[i].ticker := records[i].metrics];
        }
      }
      assert records[..|records|] == records;
    }
  }
}
