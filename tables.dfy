/** The Markdown candidate table (src/ai_investor/reporting/tables.py): which qualitative
    axis columns appear and in what order, their labels, and the shape of each line. Number
    formatting (`:.2f`) is a parameter `fmt`. */
module Tables {
  import opened Sorting
  import opened Strings
  import opened Models

  /** The axes that, when present, lead in this fixed order. */
  const Preferred: seq<string> := [
    "temporary_lag_factor",
    "growth_driver_confidence",
    "management_and_capital_policy",
    "competitive_advantage",
    "risk_resilience"
  ]

  /** Every axis id any candidate has a score for. */
  function AxisIds(cands: seq<Candidate>): (ids: set<string>)
    reads cands`qualitativeScores
    ensures forall i, k :: 0 <= i < |cands| && k in cands[i].qualitativeScores ==> k in ids
    ensures forall k :: k in ids ==> exists i :: 0 <= i < |cands| && k in cands[i].qualitativeScores
  {
    if cands == [] then {}
    else
      var rest := AxisIds(cands[1..]);
      assert forall i :: 1 <= i < |cands| ==> cands[i] == cands[1..][i - 1];
      cands[0].qualitativeScores.Keys + rest
  }

  /** The preferred ids that are present, in preferred order. */
  function PresentPreferred(present: set<string>, pref: seq<string>): (r: seq<string>)
    ensures forall x :: x in r <==> x in pref && x in present
  {
    if pref == [] then []
    else (if pref[0] in present then [pref[0]] else []) + PresentPreferred(present, pref[1..])
  }

  /** Strictly increasing in code-point order: sorted and without repeats. */
  ghost predicate StrictlyAscending(s: seq<string>) {
    forall i, j :: 0 <= i < j < |s| ==> StrLt(s[i], s[j])
  }

  /** `x` put into its place in an ascending sequence. */
  function InsertString(x: string, s: seq<string>): (r: seq<string>)
    ensures |r| == |s| + 1
    ensures forall y :: y in r <==> y == x || y in s
  {
    if s == [] || StrLt(x, s[0]) then [x] + s
    else [s[0]] + InsertString(x, s[1..])
  }

  lemma {:induction false} InsertStringAscending(x: string, s: seq<string>)
    requires StrictlyAscending(s) && x !in s
    ensures StrictlyAscending(InsertString(x, s))
  {
    if s == [] {
    } else if StrLt(x, s[0]) {
      var r := [x] + s;
      forall i, j | 0 <= i < j < |r| ensures StrLt(r[i], r[j]) {
        if i == 0 && j > 1 { StrLtTransitive(x, s[0], s[j - 1]); }
        if i > 0 { assert r[i] == s[i - 1] && r[j] == s[j - 1]; }
      }
    } else {
      StrLtTotal(x, s[0]);
      assert x != s[0];
      InsertStringAscending(x, s[1..]);
      var rest := InsertString(x, s[1..]);
      var r := [s[0]] + rest;
      forall i, j | 0 <= i < j < |r| ensures StrLt(r[i], r[j]) {
        if i == 0 {
          var y := rest[j - 1];
          assert y in rest;
          if y != x {
            var m :| 0 <= m < |s[1..]| && s[1..][m] == y;
            assert s[m + 1] == y;
          }
        } else {
          assert r[i] == rest[i - 1] && r[j] == rest[j - 1];
        }
      }
    }
  }

  /** Two strictly ascending sequences with the same elements are equal: the order fixes the
      sequence. */
  lemma {:induction false} AscendingUnique(a: seq<string>, b: seq<string>)
    requires StrictlyAscending(a) && StrictlyAscending(b)
    requires forall x :: x in a <==> x in b
    ensures a == b
    decreases |a|
  {
    if a != [] { assert a[0] in a; }
    if b != [] { assert b[0] in b; }
    if a != [] && b != [] {
      if a[0] != b[0] {
        assert a[0] in b;
        var k :| 0 <= k < |b| && b[k] == a[0];
        assert b[0] in a;
        var k' :| 0 <= k' < |a| && a[k'] == b[0];
        assert StrLt(b[0], a[0]) && StrLt(a[0], b[0]);
        StrLtAsymmetric(a[0], b[0]);
      }
      forall x ensures x in a[1..] <==> x in b[1..] {
        if x in a[1..] {
          var m :| 1 <= m < |a| && a[m] == x;
          StrLtIrreflexive(a[0]);
          assert x != a[0] && x in b;
          assert x in b[1..] by { var n :| 0 <= n < |b| && b[n] == x; assert n != 0; assert b[1..][n - 1] == x; }
        }
        if x in b[1..] {
          var m :| 1 <= m < |b| && b[m] == x;
          StrLtIrreflexive(b[0]);
          assert x != b[0] && x in a;
          assert x in a[1..] by { var n :| 0 <= n < |a| && a[n] == x; assert n != 0; assert a[1..][n - 1] == x; }
        }
      }
      AscendingUnique(a[1..], b[1..]);
      assert a == [a[0]] + a[1..] && b == [b[0]] + b[1..];
    }
  }

  /** The elements of `s` in ascending order. */
  ghost function SortedStrings(s: set<string>): (r: seq<string>)
    ensures StrictlyAscending(r)
    ensures forall x :: x in r <==> x in s
    decreases s
  {
    if s == {} then []
    else
      var x :| x in s;
      var rest := SortedStrings(s - {x});
      InsertStringAscending(x, rest);
      InsertString(x, rest)
  }

  /** The column order `_axis_columns` produces for a set of present ids: the present
      preferred ids in preferred order, then the others in ascending order. */
  ghost predicate IsAxisColumns(present: set<string>, cols: seq<string>) {
    var lead := PresentPreferred(present, Preferred);
    && |lead| <= |cols| && cols[..|lead|] == lead
    && StrictlyAscending(cols[|lead|..])
    && (forall x :: x in cols[|lead|..] <==> x in present && x !in Preferred)
  }

  /** The one column order for a set of present ids. */
  ghost function AxisColumnsOf(present: set<string>): (cols: seq<string>)
    ensures IsAxisColumns(present, cols)
  {
    var lead := PresentPreferred(present, Preferred);
    var cols := lead + SortedStrings(set x | x in present && x !in Preferred);
    assert cols[..|lead|] == lead;
    cols
  }

  /** `_axis_columns`: gathers the ids the candidates have scores for, then lists the present
      preferred ids in their fixed order followed by the rest in ascending order. */
  method AxisColumns(cands: seq<Candidate>) returns (cols: seq<string>)
    ensures cols == AxisColumnsOf(AxisIds(cands))
    ensures forall x :: x in cols <==> x in AxisIds(cands)
  {
    var present := GatherAxisIds(cands);
    cols := OrderAxisColumns(present);
  }

  /** The gathering loop of `_axis_columns`: the union of the candidates' score ids. */
  method GatherAxisIds(cands: seq<Candidate>) returns (present: set<string>)
    ensures present == AxisIds(cands)
  {
    present := {};
    for i := 0 to |cands|
      invariant present == AxisIds(cands[..i])
    {
      AxisIdsSnoc(cands, i);
      present := present + cands[i].qualitativeScores.Keys;
    }
    assert cands[..|cands|] == cands;
  }

  /** The ordering step of `_axis_columns`: present preferred ids first, then the rest sorted. */
  method OrderAxisColumns(present: set<string>) returns (cols: seq<string>)
    ensures cols == AxisColumnsOf(present)
    ensures forall x :: x in cols <==> x in present
  {
    var lead := PresentPreferred(present, Preferred);
    var extras := SortStrings(set x | x in present && x !in Preferred);
    cols := lead + extras;
    assert cols[..|lead|] == lead && cols[|lead|..] == extras;
    AxisColumnsUnique(present, cols, AxisColumnsOf(present));
  }

  /** `sorted` over a set of ids: each one is put into its place among those placed so far. */
  method SortStrings(s: set<string>) returns (sorted: seq<string>)
    ensures StrictlyAscending(sorted)
    ensures forall x :: x in sorted <==> x in s
  {
    var rest := s;
    sorted := [];
    while rest != {}
      invariant StrictlyAscending(sorted)
      invariant forall x :: x in sorted ==> x !in rest
      invariant forall x :: x in sorted || x in rest <==> x in s
      decreases |rest|
    {
      var x :| x in rest;
      InsertStringAscending(x, sorted);
      sorted := InsertString(x, sorted);
      rest := rest - {x};
    }
  }

  lemma {:induction false} AxisIdsSnoc(cands: seq<Candidate>, i: nat)
    requires i < |cands|
    ensures AxisIds(cands[..i + 1]) == AxisIds(cands[..i]) + cands[i].qualitativeScores.Keys
  {
    var a := cands[..i + 1];
    assert a[..i] == cands[..i] && a[i] == cands[i];
    var before := AxisIds(cands[..i]);
    forall k | k in AxisIds(a) ensures k in before || k in cands[i].qualitativeScores {
      var j :| 0 <= j < |a| && k in a[j].qualitativeScores;
      if j < i { assert cands[..i][j] == a[j]; }
    }
    forall k | k in before ensures k in AxisIds(a) {
      var j :| 0 <= j < i && k in cands[..i][j].qualitativeScores;
      assert a[j] == cands[..i][j];
    }
  }

  /** Each id appears exactly once among the axis columns. */
  lemma {:induction false} AxisColumnsDistinct(present: set<string>, cols: seq<string>)
    requires IsAxisColumns(present, cols)
    ensures Distinct(cols)
  {
    var lead := PresentPreferred(present, Preferred);
    PresentPreferredDistinct(present, Preferred);
    var extras := cols[|lead|..];
    assert cols == lead + extras;
    forall i, j | 0 <= i < j < |cols| ensures cols[i] != cols[j] {
      if j < |lead| {
        assert cols[i] == lead[i] && cols[j] == lead[j];
      } else if i < |lead| {
        assert cols[i] in lead && cols[j] == extras[j - |lead|];
        assert cols[j] in extras;
      } else {
        assert cols[i] == extras[i - |lead|] && cols[j] == extras[j - |lead|];
        StrLtIrreflexive(cols[i]);
      }
    }
  }

  lemma {:induction false} PresentPreferredDistinct(present: set<string>, pref: seq<string>)
    requires Distinct(pref)
    ensures Distinct(PresentPreferred(present, pref))
  {
    if pref != [] {
      assert Distinct(pref[1..]) by {
        forall i, j | 0 <= i < j < |pref[1..]| ensures pref[1..][i] != pref[1..][j] {
          assert pref[1..][i] == pref[i + 1] && pref[1..][j] == pref[j + 1];
        }
      }
      PresentPreferredDistinct(present, pref[1..]);
      var rest := PresentPreferred(present, pref[1..]);
      assert pref[0] !in pref[1..];
      assert pref[0] !in rest;
    }
  }

  /** Any two column orders for the same present ids agree. */
  lemma {:induction false} AxisColumnsUnique(present: set<string>, a: seq<string>, b: seq<string>)
    requires IsAxisColumns(present, a) && IsAxisColumns(present, b)
    ensures a == b
  {
    var lead := PresentPreferred(present, Preferred);
    AscendingUnique(a[|lead|..], b[|lead|..]);
    assert a == lead + a[|lead|..] && b == lead + b[|lead|..];
  }

  /** The column heading of an axis: the short label of a preferred axis, otherwise the id. */
  function AxisLabel(id: string): (r: string)
    ensures id !in Preferred ==> r == id
  {
    if id == "temporary_lag_factor" then "Q-Temp"
    else if id == "growth_driver_confidence" then "Q-Growth"
    else if id == "management_and_capital_policy" then "Q-Mgmt"
    else if id == "competitive_advantage" then "Q-Edge"
    else if id == "risk_resilience" then "Q-Risk"
    else id
  }

  const ShortLabels: seq<string> := ["Q-Temp", "Q-Growth", "Q-Mgmt", "Q-Edge", "Q-Risk"]

  /** The preferred axes carry their short labels in order, and two different ids get two
      different headings unless an id is itself one of the short labels. */
  lemma {:induction false} AxisLabelsDistinct(a: string, b: string)
    requires a != b && a !in ShortLabels && b !in ShortLabels
    ensures AxisLabel(a) != AxisLabel(b)
    ensures forall k :: 0 <= k < |Preferred| ==> AxisLabel(Preferred[k]) == ShortLabels[k]
  {
  }

  /** The ten columns every table has, then one heading per axis. */
  const FixedHeadings: seq<string> :=
    ["Ticker", "Company", "Sector", "Quant", "Q(Price)", "Q(Fund)", "Qual", "Composite", "Excluded", "Reasons"]
  const FixedAlignments: seq<string> := ["---", "---", "---", "---:", "---:", "---:", "---:", "---:", "---", "---"]

  function HeaderCells(cols: seq<string>): (r: seq<string>)
    ensures |r| == |FixedHeadings| + |cols|
    ensures forall k :: 0 <= k < |cols| ==> r[|FixedHeadings| + k] == AxisLabel(cols[k])
  {
    FixedHeadings + seq(|cols|, k requires 0 <= k < |cols| => AxisLabel(cols[k]))
  }

  /** The alignment row: axis columns are right-aligned numbers. */
  function SeparatorCells(cols: seq<string>): (r: seq<string>)
    ensures |r| == |FixedAlignments| + |cols|
    ensures forall k :: |FixedAlignments| <= k < |r| ==> r[k] == "---:"
  {
    FixedAlignments + seq(|cols|, _ => "---:")
  }

  /** The axis cells of one row: the score for each column, 0.0 when the candidate has none. */
  function AxisCells(scores: map<string, real>, cols: seq<string>, fmt: real -> string): (r: seq<string>)
    ensures |r| == |cols|
    ensures forall k :: 0 <= k < |cols| && cols[k] !in scores ==> r[k] == fmt(0.0)
    ensures forall k :: 0 <= k < |cols| && cols[k] in scores ==> r[k] == fmt(scores[cols[k]])
  {
    if cols == [] then []
    else [fmt(if cols[0] in scores then scores[cols[0]] else 0.0)] + AxisCells(scores, cols[1..], fmt)
  }

  function RowCells(c: Candidate, cols: seq<string>, fmt: real -> string): (r: seq<string>)
    reads c
    ensures |r| == |FixedHeadings| + |cols|
  {
    [c.ticker, c.companyName, c.sector,
     fmt(c.quantitativeScore), fmt(c.quantitativeScorePriceNow),
     fmt(c.quantitativeScoreFundamentalsBase), fmt(c.qualitativeScoreTotal), fmt(c.compositeScore),
     if c.excluded then "yes" else "no",
     Join(c.exclusionReasons, ", ")]
    + AxisCells(c.qualitativeScores, cols, fmt)
  }

  /** One Markdown table line: the cells between bars. */
  function Line(cells: seq<string>): string {
    "|" + Join(cells, "|") + "|"
  }

  function RowLines(cands: seq<Candidate>, cols: seq<string>, fmt: real -> string): (r: seq<string>)
    reads cands
    ensures |r| == |cands|
    ensures forall i :: 0 <= i < |cands| ==> r[i] == Line(RowCells(cands[i], cols, fmt))
  {
    seq(|cands|, i reads cands requires 0 <= i < |cands| => Line(RowCells(cands[i], cols, fmt)))
  }

  /** The lines of the table: heading, alignment, then one row per candidate in input order. */
  function TableLines(cands: seq<Candidate>, cols: seq<string>, fmt: real -> string): seq<string>
    reads cands
  {
    [Line(HeaderCells(cols)), Line(SeparatorCells(cols))] + RowLines(cands, cols, fmt)
  }

  /** `to_markdown_table`: the heading and alignment lines, then one line per candidate, joined
      by newlines, over the axis columns of `_axis_columns`. */
  method ToMarkdownTable(cands: seq<Candidate>, fmt: real -> string) returns (table: string)
    ensures table == Join(TableLines(cands, AxisColumnsOf(AxisIds(cands)), fmt), "\n")
  {
    var cols := AxisColumns(cands);
    var header := Line(HeaderCells(cols)) + "\n" + Line(SeparatorCells(cols));
    var rows := RenderRows(cands, cols, fmt);
    table := header + (if rows != [] then "\n" + Join(rows, "\n") else "");
    JoinHeader(Line(HeaderCells(cols)), Line(SeparatorCells(cols)), rows, "\n");
  }

  /** The row loop of `to_markdown_table`: one line per candidate, in input order. */
  method RenderRows(cands: seq<Candidate>, cols: seq<string>, fmt: real -> string) returns (rows: seq<string>)
    ensures rows == RowLines(cands, cols, fmt)
  {
    rows := [];
    for i := 0 to |cands|
      invariant rows == RowLines(cands[..i], cols, fmt)
    {
      RowLinesSnoc(cands, i, cols, fmt);
      rows := rows + [Line(RowCells(cands[i], cols, fmt))];
    }
    assert cands[..|cands|] == cands;
  }

  lemma {:induction false} RowLinesSnoc(cands: seq<Candidate>, i: nat, cols: seq<string>, fmt: real -> string)
    requires i < |cands|
    ensures RowLines(cands[..i + 1], cols, fmt) == RowLines(cands[..i], cols, fmt) + [Line(RowCells(cands[i], cols, fmt))]
  {
    var a := RowLines(cands[..i + 1], cols, fmt);
    var b := RowLines(cands[..i], cols, fmt) + [Line(RowCells(cands[i], cols, fmt))];
    forall k | 0 <= k < |a| ensures a[k] == b[k] {
      if k < i { assert cands[..i + 1][k] == cands[..i][k]; }
    }
  }

  lemma {:induction false} JoinHeader(a: string, b: string, rows: seq<string>, sep: string)
    ensures Join([a, b] + rows, sep) == a + sep + b + (if rows != [] then sep + Join(rows, sep) else "")
  {
    if rows == [] {
      assert [a, b] + rows == [a] + [b];
      JoinEnds(a, [b], b, sep);
    } else {
      assert [a, b] + rows == [a] + ([b] + rows);
      JoinEnds(a, [b] + rows, b, sep);
      JoinEnds(b, rows, b, sep);
    }
  }

  /** A cell that neither ends a line nor a cell. */
  predicate Plain(s: string) {
    '\n' !in s && '|' !in s
  }

  /** Cutting a line at its bars gives the cells back, between an empty piece at each end. */
  lemma {:induction false} LineCells(cells: seq<string>)
    requires cells != []
    requires forall i :: 0 <= i < |cells| ==> Plain(cells[i])
    ensures Split(Line(cells), '|') == [""] + cells + [""]
    ensures '\n' !in Line(cells)
  {
    JoinEnds("", cells, "", "|");
    JoinEnds("", cells + [""], "", "|");
    assert [""] + cells + [""] == [""] + (cells + [""]);
    var parts := [""] + cells + [""];
    assert Line(cells) == Join(parts, "|");
    forall i | 0 <= i < |parts| ensures '|' !in parts[i] && '\n' !in parts[i] {
      if 0 < i < |parts| - 1 { assert parts[i] == cells[i - 1]; }
    }
    SplitJoin(parts, '|');
    JoinAvoids(parts, "|", '\n');
  }

  /** No cell the table will hold contains a newline or a bar. */
  ghost predicate PlainCells(cands: seq<Candidate>, cols: seq<string>, fmt: real -> string)
    reads cands
  {
    && (forall x :: Plain(fmt(x)))
    && (forall k :: 0 <= k < |cols| ==> Plain(AxisLabel(cols[k])))
    && (forall i :: 0 <= i < |cands| ==>
          && Plain(cands[i].ticker) && Plain(cands[i].companyName) && Plain(cands[i].sector)
          && forall j :: 0 <= j < |cands[i].exclusionReasons| ==> Plain(cands[i].exclusionReasons[j]))
  }

  lemma {:induction false} RowCellsPlain(cands: seq<Candidate>, i: nat, cols: seq<string>, fmt: real -> string)
    requires i < |cands| && PlainCells(cands, cols, fmt)
    ensures forall k :: 0 <= k < |RowCells(cands[i], cols, fmt)| ==> Plain(RowCells(cands[i], cols, fmt)[k])
  {
    var c := cands[i];
    JoinAvoids(c.exclusionReasons, ", ", '\n');
    JoinAvoids(c.exclusionReasons, ", ", '|');
    var fixed := [c.ticker, c.companyName, c.sector,
      fmt(c.quantitativeScore), fmt(c.quantitativeScorePriceNow),
      fmt(c.quantitativeScoreFundamentalsBase), fmt(c.qualitativeScoreTotal), fmt(c.compositeScore),
      if c.excluded then "yes" else "no",
      Join(c.exclusionReasons, ", ")];
    var axes := AxisCells(c.qualitativeScores, cols, fmt);
    var cells := RowCells(c, cols, fmt);
    assert cells == fixed + axes;
    assert Plain(c.ticker) && Plain(c.companyName) && Plain(c.sector);
    assert forall x :: Plain(fmt(x));
    assert Plain(fmt(c.quantitativeScore)) && Plain(fmt(c.quantitativeScorePriceNow));
    assert Plain(fmt(c.quantitativeScoreFundamentalsBase)) && Plain(fmt(c.qualitativeScoreTotal));
    assert Plain(fmt(c.compositeScore));
    assert forall j :: 0 <= j < |fixed| ==> Plain(fixed[j]);
    forall k | 0 <= k < |axes| ensures Plain(axes[k]) {
      var x := if cols[k] in c.qualitativeScores then c.qualitativeScores[cols[k]] else 0.0;
      assert axes[k] == fmt(x);
    }
    forall k | 0 <= k < |cells| ensures Plain(cells[k]) {
      if k < |fixed| { assert cells[k] == fixed[k]; } else { assert cells[k] == axes[k - |fixed|]; }
    }
  }

  /** The heading and alignment lines hold their cells and no newline. */
  lemma {:induction false} HeaderLayout(cols: seq<string>)
    requires forall k :: 0 <= k < |cols| ==> Plain(AxisLabel(cols[k]))
    ensures Split(Line(HeaderCells(cols)), '|') == [""] + HeaderCells(cols) + [""]
    ensures Split(Line(SeparatorCells(cols)), '|') == [""] + SeparatorCells(cols) + [""]
    ensures '\n' !in Line(HeaderCells(cols)) && '\n' !in Line(SeparatorCells(cols))
  {
    var header := HeaderCells(cols);
    forall k | 0 <= k < |header| ensures Plain(header[k]) {
      if k >= |FixedHeadings| { assert header[k] == AxisLabel(cols[k - |FixedHeadings|]); }
    }
    LineCells(header);
    var sep := SeparatorCells(cols);
    forall k | 0 <= k < |sep| ensures Plain(sep[k]) {
      if k >= |FixedAlignments| { assert sep[k] == "---:"; }
    }
    LineCells(sep);
  }

  /** Each row line holds the row's cells and no newline. */
  lemma {:induction false} RowLayout(cands: seq<Candidate>, cols: seq<string>, fmt: real -> string)
    requires PlainCells(cands, cols, fmt)
    ensures forall i :: 0 <= i < |cands| ==>
              && Split(RowLines(cands, cols, fmt)[i], '|') == [""] + RowCells(cands[i], cols, fmt) + [""]
              && '\n' !in RowLines(cands, cols, fmt)[i]
  {
    forall i | 0 <= i < |cands|
      ensures Split(Line(RowCells(cands[i], cols, fmt)), '|') == [""] + RowCells(cands[i], cols, fmt) + [""]
      ensures '\n' !in Line(RowCells(cands[i], cols, fmt))
    {
      RowCellsPlain(cands, i, cols, fmt);
      LineCells(RowCells(cands[i], cols, fmt));
    }
  }

  /** Read back line by line and cell by cell, the table is its heading, its alignment row and
      one row per candidate, and every line has one cell per column. */
  lemma {:induction false} TableLayout(cands: seq<Candidate>, cols: seq<string>, fmt: real -> string)
    requires PlainCells(cands, cols, fmt)
    ensures var lines := TableLines(cands, cols, fmt);
      && Split(Join(lines, "\n"), '\n') == lines
      && |lines| == 2 + |cands|
      && Split(lines[0], '|') == [""] + HeaderCells(cols) + [""]
      && Split(lines[1], '|') == [""] + SeparatorCells(cols) + [""]
      && forall i :: 0 <= i < |cands| ==>
           Split(lines[2 + i], '|') == [""] + RowCells(cands[i], cols, fmt) + [""]
  {
    var lines := TableLines(cands, cols, fmt);
    var rows := RowLines(cands, cols, fmt);
    HeaderLayout(cols);
    RowLayout(cands, cols, fmt);
    forall l | 0 <= l < |lines| ensures '\n' !in lines[l] {
      if l >= 2 { assert lines[l] == rows[l - 2]; }
    }
    SplitJoin(lines, '\n');
    assert forall i :: 0 <= i < |cands| ==> lines[2 + i] == rows[i];
  }

  /** What a row shows: the exclusion flag as yes or no, the reasons joined by commas, the
      qualitative total, and each axis score with 0.0 for an axis the candidate lacks. */
  lemma {:induction false} RowCellsShow(c: Candidate, cols: seq<string>, fmt: real -> string)
    ensures var cells := RowCells(c, cols, fmt);
      && (c.excluded <==> cells[8] == "yes")
      && (!c.excluded <==> cells[8] == "no")
      && cells[0] == c.ticker
      && cells[6] == fmt(c.qualitativeScoreTotal)
      && cells[9] == Join(c.exclusionReasons, ", ")
      && forall k :: 0 <= k < |cols| ==>
           cells[10 + k] == fmt(if cols[k] in c.qualitativeScores then c.qualitativeScores[cols[k]] else 0.0)
  {
  }
}
