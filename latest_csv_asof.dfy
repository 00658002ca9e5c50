/** The as-of date of a data directory: the date in the newest CSV file's name, or
    the modification time of the newest file when no name carries a date. */
module LatestCsvAsOf {
  import opened Wrappers
  import opened Strings

  /** Python's `datetime.date`. */
  datatype Date = Date(year: int, month: int, day: int)

  predicate IsLeapYear(y: int) {
    y % 4 == 0 && (y % 100 != 0 || y % 400 == 0)
  }

  function DaysInMonth(y: int, m: int): int
    requires 1 <= m <= 12
  {
    if m == 2 then (if IsLeapYear(y) then 29 else 28)
    else if m == 4 || m == 6 || m == 9 || m == 11 then 30
    else 31
  }

  /** The arguments `date(y, m, d)` accepts without raising `ValueError`. */
  predicate ValidDate(y: int, m: int, d: int) {
    1 <= y <= 9999 && 1 <= m <= 12 && 1 <= d <= DaysInMonth(y, m)
  }

  /** `date(y, m, d)`, with `None` for the `ValueError` case. */
  function MakeDate(y: int, m: int, d: int): Option<Date> {
    if ValidDate(y, m, d) then Some(Date(y, m, d)) else None
  }

  /** `date` accepts exactly the calendar dates of years 1 to 9999: the 29th of February only
      in leap years (2000, not 1900), no 31st in a 30-day month, no day 0 and no month 13. */
  lemma {:induction false} MakeDateCalendar(y: int, m: int, d: int)
    ensures MakeDate(y, m, d).Some? ==> MakeDate(y, m, d).value == Date(y, m, d)
    ensures 1 <= y <= 9999 && 1 <= m <= 12 && 1 <= d <= 28 ==> MakeDate(y, m, d) == Some(Date(y, m, d))
    ensures m < 1 || 12 < m || d < 1 || 31 < d || y < 1 || 9999 < y ==> MakeDate(y, m, d).None?
    ensures m == 2 && d == 29 ==> (MakeDate(y, m, d).Some? <==> 1 <= y <= 9999 && IsLeapYear(y))
    ensures (m == 4 || m == 6 || m == 9 || m == 11) && d == 31 ==> MakeDate(y, m, d).None?
    ensures MakeDate(2000, 2, 29).Some? && MakeDate(1900, 2, 29).None? && MakeDate(2024, 2, 29).Some?
  {
  }

  /** The two file-name patterns: `20\d{2}\d{2}\d{2}` and `20\d{2}-\d{2}-\d{2}`. */
  datatype Pattern = Compact | Dashed

  /** `DATE_PATTERNS`, in the order they are tried. */
  const DatePatterns: seq<Pattern> := [Compact, Dashed]

  function Width(pat: Pattern): nat {
    if pat == Compact then 8 else 10
  }

  /** The pattern matches the text that starts at position `i` of `s`. */
  predicate MatchesAt(pat: Pattern, s: string, i: nat) {
    && i + Width(pat) <= |s|
    && s[i] == '2' && s[i + 1] == '0' && IsDigit(s[i + 2]) && IsDigit(s[i + 3])
    && match pat
       case Compact => IsDigit(s[i + 4]) && IsDigit(s[i + 5]) && IsDigit(s[i + 6]) && IsDigit(s[i + 7])
       case Dashed =>
         && s[i + 4] == '-' && IsDigit(s[i + 5]) && IsDigit(s[i + 6])
         && s[i + 7] == '-' && IsDigit(s[i + 8]) && IsDigit(s[i + 9])
  }

  /** `pattern.search(s)` from position `i` on: the leftmost position where the pattern matches. */
  function SearchFrom(pat: Pattern, s: string, i: nat): (r: Option<nat>)
    decreases |s| - i
    ensures r.Some? ==> i <= r.value && MatchesAt(pat, s, r.value)
    ensures forall j: nat :: i <= j && (r.None? || j < r.value) ==> !MatchesAt(pat, s, j)
  {
    if i + Width(pat) > |s| then None
    else if MatchesAt(pat, s, i) then Some(i)
    else SearchFrom(pat, s, i + 1)
  }

  /** `pattern.search(s)`: the leftmost match, or `None` when the pattern occurs nowhere. */
  function Search(pat: Pattern, s: string): (r: Option<nat>)
    ensures r.Some? ==> MatchesAt(pat, s, r.value) && forall j: nat :: j < r.value ==> !MatchesAt(pat, s, j)
    ensures r.None? ==> forall j: nat :: !MatchesAt(pat, s, j)
  {
    SearchFrom(pat, s, 0)
  }

  /** `match.groups()`: the year, month and day digits of the match at `i`. */
  function Groups(pat: Pattern, s: string, i: nat): (g: (string, string, string))
    requires MatchesAt(pat, s, i)
    ensures AllDigits(g.0) && AllDigits(g.1) && AllDigits(g.2)
  {
    var g := if pat == Compact then (s[i..i + 4], s[i + 4..i + 6], s[i + 6..i + 8])
             else (s[i..i + 4], s[i + 5..i + 7], s[i + 8..i + 10]);
    assert AllDigits(g.0) by {
      forall k | 0 <= k < 4 ensures IsDigit(g.0[k]) { assert k == 0 || k == 1 || k == 2 || k == 3; }
    }
    assert AllDigits(g.1) && AllDigits(g.2) by {
      forall k | 0 <= k < 2 ensures IsDigit(g.1[k]) && IsDigit(g.2[k]) { assert k == 0 || k == 1; }
    }
    g
  }

  /** `date(int(y), int(m), int(d))` on the groups of the match at `i`. */
  function DateAt(pat: Pattern, s: string, i: nat): Option<Date>
    requires MatchesAt(pat, s, i)
  {
    var g := Groups(pat, s, i);
    MakeDate(DigitsValue(g.0), DigitsValue(g.1), DigitsValue(g.2))
  }

  /** The loop over `pats`: the first pattern that matches decides, whether its date is valid or not. */
  function ScanPatterns(pats: seq<Pattern>, name: string): Option<Date> {
    if pats == [] then None
    else match Search(pats[0], name)
      case Some(i) => DateAt(pats[0], name, i)
      case None => ScanPatterns(pats[1..], name)
  }

  /** `Path.name` of a POSIX path: the text after its last `/`. */
  function BaseName(path: string): (r: string)
    ensures |r| <= |path| && r == path[|path| - |r|..] && '/' !in r
    ensures |r| < |path| ==> path[|path| - |r| - 1] == '/'
  {
    if path == [] || path[|path| - 1] == '/' then []
    else BaseName(path[..|path| - 1]) + [path[|path| - 1]]
  }

  /** `_extract_date_from_name`. */
  function ExtractDateFromName(path: string): Option<Date> {
    ScanPatterns(DatePatterns, BaseName(path))
  }

  /** The date the pattern scan finds in a bare file name. */
  lemma {:induction false} DateFromNameCases(name: string)
    ensures var r := ScanPatterns(DatePatterns, name);
      && (Search(Compact, name).Some? ==> r == DateAt(Compact, name, Search(Compact, name).value))
      && (Search(Compact, name).None? && Search(Dashed, name).Some? ==>
            r == DateAt(Dashed, name, Search(Dashed, name).value))
      && (Search(Compact, name).None? && Search(Dashed, name).None? ==> r.None?)
  {
    assert DatePatterns[0] == Compact && DatePatterns[1..] == [Dashed];
    assert ScanPatterns([Dashed][1..], name).None? by { assert [Dashed][1..] == []; }
  }

  /** Only the last path component is scanned: the directories above it never matter. */
  lemma {:induction false} DirectoryIgnored(dir: string, name: string)
    requires '/' !in name
    ensures ExtractDateFromName(dir + "/" + name) == ExtractDateFromName(name)
  {
    var path := dir + "/" + name;
    BaseNameOfPlain(name);
    assert path[|path| - |name|..] == name;
    assert path[|path| - |name| - 1] == '/';
  }

  /** A name without `/` is its own base name. */
  lemma {:induction false} BaseNameOfPlain(name: string)
    requires '/' !in name
    ensures BaseName(name) == name
  {
  }

  /** The value of a decimal digit. */
  function DigitOf(c: char): int {
    c as int - '0' as int
  }

  lemma {:induction false} TwoDigitValue(t: string)
    requires |t| == 2 && AllDigits(t)
    ensures DigitsValue(t) == DigitOf(t[0]) * 10 + DigitOf(t[1])
  {
    var a := t[..1];
    assert a[..0] == [] && t[..|t| - 1] == a;
    assert DigitsValue(a) == DigitOf(t[0]);
  }

  lemma {:induction false} FourDigitValue(t: string)
    requires |t| == 4 && AllDigits(t)
    ensures DigitsValue(t) == DigitOf(t[0]) * 1000 + DigitOf(t[1]) * 100 + DigitOf(t[2]) * 10 + DigitOf(t[3])
  {
    var a, b, c := t[..1], t[..2], t[..3];
    assert a[..0] == [] && b[..1] == a && c[..2] == b && t[..3] == c;
    assert DigitsValue(a) == DigitOf(t[0]);
    assert DigitsValue(b) == DigitOf(t[0]) * 10 + DigitOf(t[1]);
  }

  /** Two ASCII digits for `n` < 100. */
  function TwoDigits(n: nat): (s: string)
    requires n < 100
    ensures |s| == 2 && IsDigit(s[0]) && IsDigit(s[1]) && DigitOf(s[0]) * 10 + DigitOf(s[1]) == n
  {
    [('0' as int + n / 10) as char, ('0' as int + n % 10) as char]
  }

  /** A date of this century as `20YYMMDD`. */
  function CompactText(d: Date): string
    requires 2000 <= d.year <= 2099 && 1 <= d.month <= 12 && 1 <= d.day <= 31
  {
    "20" + TwoDigits(d.year - 2000) + TwoDigits(d.month) + TwoDigits(d.day)
  }

  /** A date of this century as `20YY-MM-DD`. */
  function DashedText(d: Date): string
    requires 2000 <= d.year <= 2099 && 1 <= d.month <= 12 && 1 <= d.day <= 31
  {
    "20" + TwoDigits(d.year - 2000) + "-" + TwoDigits(d.month) + "-" + TwoDigits(d.day)
  }

  /** The groups of a match whose year, month and day digits spell out `d` give `d` back. */
  lemma {:induction false} GroupsSpell(pat: Pattern, s: string, i: nat, d: Date)
    requires MatchesAt(pat, s, i) && 2000 <= d.year <= 2099 && ValidDate(d.year, d.month, d.day)
    requires var g := Groups(pat, s, i);
      && g.0[2..] == TwoDigits(d.year - 2000) && g.1 == TwoDigits(d.month) && g.2 == TwoDigits(d.day)
    ensures DateAt(pat, s, i) == Some(d)
  {
    var g := Groups(pat, s, i);
    FourDigitValue(g.0);
    TwoDigitValue(g.1);
    TwoDigitValue(g.2);
    assert g.0[2] == g.0[2..][0] && g.0[3] == g.0[2..][1];
  }

  /** Every one of the eight characters a compact match covers is a digit. */
  lemma {:induction false} CompactDigits(s: string, j: nat)
    requires MatchesAt(Compact, s, j)
    ensures forall k :: j <= k < j + 8 ==> IsDigit(s[k])
  {
    forall k | j <= k < j + 8 ensures IsDigit(s[k]) {
      assert k - j in {0, 1, 2, 3, 4, 5, 6, 7};
    }
  }

  /** No match can begin inside a digit-free prefix: every match starts with a digit. */
  lemma {:induction false} NoMatchInPrefix(pat: Pattern, s: string, n: nat)
    requires n <= |s| && forall k :: 0 <= k < n ==> !IsDigit(s[k])
    ensures forall j: nat :: j < n ==> !MatchesAt(pat, s, j)
  {
  }

  /** No compact match in digit-free text around a ten-character text with dashes at 4 and 7:
      eight digits in a row fit nowhere. */
  lemma {:induction false} NoCompactAroundDashes(s: string, i: nat)
    requires i + 10 <= |s| && s[i + 4] == '-' && s[i + 7] == '-'
    requires forall k :: 0 <= k < i ==> !IsDigit(s[k])
    requires forall k :: i + 10 <= k < |s| ==> !IsDigit(s[k])
    ensures forall j: nat :: !MatchesAt(Compact, s, j)
  {
    forall j: nat | MatchesAt(Compact, s, j) ensures false {
      CompactDigits(s, j);
    }
  }

  /** A valid date of this century written as `20YYMMDD`, after a digit-free prefix, is read back. */
  lemma {:induction false} CompactRoundTrip(prefix: string, d: Date, suffix: string)
    requires forall k :: 0 <= k < |prefix| ==> !IsDigit(prefix[k])
    requires 2000 <= d.year <= 2099 && ValidDate(d.year, d.month, d.day)
    ensures ScanPatterns(DatePatterns, prefix + CompactText(d) + suffix) == Some(d)
  {
    var t := CompactText(d);
    var s := prefix + t + suffix;
    var i := |prefix|;
    assert s[i..i + 8] == t;
    assert MatchesAt(Compact, s, i) by {
      assert t[2] == TwoDigits(d.year - 2000)[0] && t[3] == TwoDigits(d.year - 2000)[1];
      assert t[4] == TwoDigits(d.month)[0] && t[5] == TwoDigits(d.month)[1];
      assert t[6] == TwoDigits(d.day)[0] && t[7] == TwoDigits(d.day)[1];
    }
    NoMatchInPrefix(Compact, s, i);
    assert Search(Compact, s) == Some(i);
    GroupsSpell(Compact, s, i, d);
    DateFromNameCases(s);
  }

  /** A valid date of this century written as `20YY-MM-DD` between digit-free text is read back. */
  lemma {:induction false} DashedRoundTrip(prefix: string, d: Date, suffix: string)
    requires forall k :: 0 <= k < |prefix| ==> !IsDigit(prefix[k])
    requires forall k :: 0 <= k < |suffix| ==> !IsDigit(suffix[k])
    requires 2000 <= d.year <= 2099 && ValidDate(d.year, d.month, d.day)
    ensures ScanPatterns(DatePatterns, prefix + DashedText(d) + suffix) == Some(d)
  {
    var t := DashedText(d);
    var s := prefix + t + suffix;
    var i := |prefix|;
    assert s[i..i + 10] == t;
    assert MatchesAt(Dashed, s, i) by {
      assert t[2] == TwoDigits(d.year - 2000)[0] && t[3] == TwoDigits(d.year - 2000)[1];
      assert t[5] == TwoDigits(d.month)[0] && t[6] == TwoDigits(d.month)[1];
      assert t[8] == TwoDigits(d.day)[0] && t[9] == TwoDigits(d.day)[1];
    }
    assert forall k :: i + 10 <= k < |s| ==> s[k] == suffix[k - i - 10];
    NoCompactAroundDashes(s, i);
    NoMatchInPrefix(Dashed, s, i);
    assert Search(Compact, s).None?;
    assert Search(Dashed, s) == Some(i);
    GroupsSpell(Dashed, s, i, d);
    DateFromNameCases(s);
  }

  /** The first pattern decides: in a name such as `20241399-2024-01-15.csv`, `20241399`
      matches it with month 13, so the name has no date although its `2024-01-15` is a
      valid dashed date. */
  lemma {:induction false} InvalidFirstMatchWins(name: string)
    requires '/' !in name && |name| >= 19 && name[..9] == "20241399-" && name[9..19] == "2024-01-15"
    ensures ExtractDateFromName(name).None?
    ensures MatchesAt(Dashed, name, 9) && DateAt(Dashed, name, 9) == Some(Date(2024, 1, 15))
  {
    BaseNameOfPlain(name);
    var p := name[..9];
    assert p[0] == '2' && p[1] == '0' && p[2] == '2' && p[3] == '4';
    assert p[4] == '1' && p[5] == '3' && p[6] == '9' && p[7] == '9';
    assert MatchesAt(Compact, name, 0);
    assert Search(Compact, name) == Some(0);
    CompactMonth13(name);
    DateFromNameCases(name);
    DashedIn(name);
  }

  lemma {:induction false} CompactMonth13(s: string)
    requires MatchesAt(Compact, s, 0) && s[4] == '1' && s[5] == '3'
    ensures DateAt(Compact, s, 0).None?
  {
    var g := Groups(Compact, s, 0);
    TwoDigitValue(g.1);
  }

  lemma {:induction false} DashedIn(s: string)
    requires |s| >= 19 && s[9..19] == "2024-01-15"
    ensures MatchesAt(Dashed, s, 9) && DateAt(Dashed, s, 9) == Some(Date(2024, 1, 15))
  {
    var t := s[9..19];
    assert t[0] == '2' && t[1] == '0' && t[2] == '2' && t[3] == '4' && t[4] == '-';
    assert t[5] == '0' && t[6] == '1' && t[7] == '-' && t[8] == '1' && t[9] == '5';
    assert MatchesAt(Dashed, s, 9);
    var g := Groups(Dashed, s, 9);
    FourDigitValue(g.0);
    TwoDigitValue(g.1);
    TwoDigitValue(g.2);
  }

  // ---------------------------------------------------------------------------------------
  // resolve_as_of

  /** A CSV file found under the data directory: its POSIX path and modification time. */
  datatype FileRecord = FileRecord(path: string, mtime: real)

  /** An entry of `dated_files`: `(name_date, st_mtime, path)`. */
  datatype DatedFile = DatedFile(date: Date, mtime: real, path: string)

  /** An entry of `undated_files`: `(st_mtime, path)`. */
  datatype UndatedFile = UndatedFile(mtime: real, path: string)

  /** The result: the name's date and the file, or, with no dated file, the newest file's
      modification time (which `datetime.fromtimestamp` turns into a local date) and the file. */
  datatype AsOf = FromName(date: Date, path: string) | FromMtime(mtime: real, path: string)

  predicate DateLt(a: Date, b: Date) {
    a.year < b.year || (a.year == b.year && (a.month < b.month || (a.month == b.month && a.day < b.day)))
  }

  /** The sort key `(x[0], x[1], x[2].as_posix())` compared as a Python tuple. */
  predicate DatedLt(a: DatedFile, b: DatedFile) {
    DateLt(a.date, b.date) || (a.date == b.date && (a.mtime < b.mtime || (a.mtime == b.mtime && StrLt(a.path, b.path))))
  }

  /** The sort key `(x[0], x[1].as_posix())` compared as a Python tuple. */
  predicate UndatedLt(a: UndatedFile, b: UndatedFile) {
    a.mtime < b.mtime || (a.mtime == b.mtime && StrLt(a.path, b.path))
  }

  lemma {:induction false} DatedLtOrder(a: DatedFile, b: DatedFile, c: DatedFile)
    ensures !DatedLt(a, a)
    ensures DatedLt(a, b) && DatedLt(b, c) ==> DatedLt(a, c)
    ensures a == b || DatedLt(a, b) || DatedLt(b, a)
  {
    StrLtIrreflexive(a.path);
    if DatedLt(a, b) && DatedLt(b, c) && a.date == b.date == c.date && a.mtime == b.mtime == c.mtime {
      StrLtTransitive(a.path, b.path, c.path);
    }
    StrLtTotal(a.path, b.path);
  }

  lemma {:induction false} UndatedLtOrder(a: UndatedFile, b: UndatedFile, c: UndatedFile)
    ensures !UndatedLt(a, a)
    ensures UndatedLt(a, b) && UndatedLt(b, c) ==> UndatedLt(a, c)
    ensures a == b || UndatedLt(a, b) || UndatedLt(b, a)
  {
    StrLtIrreflexive(a.path);
    if UndatedLt(a, b) && UndatedLt(b, c) && a.mtime == b.mtime == c.mtime {
      StrLtTransitive(a.path, b.path, c.path);
    }
    StrLtTotal(a.path, b.path);
  }

  /** `dated_files` after the loop: the files whose name carries a date, in file order, where
      `dateOf` reads the date from a path (`ExtractDateFromName` in `ResolveAsOf`). */
  function DatedOf(files: seq<FileRecord>, dateOf: string -> Option<Date>): seq<DatedFile> {
    if files == [] then []
    else
      var rest := DatedOf(files[..|files| - 1], dateOf);
      var f := files[|files| - 1];
      match dateOf(f.path)
      case Some(d) => rest + [DatedFile(d, f.mtime, f.path)]
      case None => rest
  }

  /** The entries of `dated_files` are exactly the files whose name carries a date. */
  lemma {:induction false} DatedOfMembers(files: seq<FileRecord>, dateOf: string -> Option<Date>)
    ensures forall x :: x in DatedOf(files, dateOf) ==> FileRecord(x.path, x.mtime) in files && dateOf(x.path) == Some(x.date)
    ensures forall i :: 0 <= i < |files| && dateOf(files[i].path).Some? ==>
              DatedFile(dateOf(files[i].path).value, files[i].mtime, files[i].path) in DatedOf(files, dateOf)
  {
    if files != [] {
      var init := files[..|files| - 1];
      DatedOfMembers(init, dateOf);
      assert forall f :: f in init ==> f in files;
      assert forall i :: 0 <= i < |init| ==> init[i] == files[i];
    }
  }

  /** `undated_files` after the loop: the files whose name carries no date, in file order. */
  function UndatedOf(files: seq<FileRecord>, dateOf: string -> Option<Date>): seq<UndatedFile> {
    if files == [] then []
    else
      var rest := UndatedOf(files[..|files| - 1], dateOf);
      var f := files[|files| - 1];
      match dateOf(f.path)
      case Some(_) => rest
      case None => rest + [UndatedFile(f.mtime, f.path)]
  }

  /** The entries of `undated_files` are exactly the files whose name carries no date. */
  lemma {:induction false} UndatedOfMembers(files: seq<FileRecord>, dateOf: string -> Option<Date>)
    ensures forall x :: x in UndatedOf(files, dateOf) ==> FileRecord(x.path, x.mtime) in files && dateOf(x.path).None?
    ensures forall i :: 0 <= i < |files| && dateOf(files[i].path).None? ==>
              UndatedFile(files[i].mtime, files[i].path) in UndatedOf(files, dateOf)
  {
    if files != [] {
      var init := files[..|files| - 1];
      UndatedOfMembers(init, dateOf);
      assert forall f :: f in init ==> f in files;
      assert forall i :: 0 <= i < |init| ==> init[i] == files[i];
    }
  }

  /** Every file lands in exactly one of the two lists. */
  lemma {:induction false} Partition(files: seq<FileRecord>, dateOf: string -> Option<Date>)
    ensures |DatedOf(files, dateOf)| + |UndatedOf(files, dateOf)| == |files|
  {
    if files != [] {
      Partition(files[..|files| - 1], dateOf);
    }
  }

  /** The greatest dated entry, scanning left to right. */
  function LatestDated(s: seq<DatedFile>): (m: DatedFile)
    requires s != []
    ensures m in s && forall x :: x in s ==> !DatedLt(m, x)
  {
    if |s| == 1 then
      DatedLtOrder(s[0], s[0], s[0]);
      s[0]
    else
      var prev := LatestDated(s[..|s| - 1]);
      var last := s[|s| - 1];
      assert forall x :: x in s ==> x in s[..|s| - 1] || x == last;
      if DatedLt(prev, last) then
        assert forall x :: x in s[..|s| - 1] ==> !DatedLt(last, x) by {
          forall x | x in s[..|s| - 1] ensures !DatedLt(last, x) { DatedLtOrder(prev, last, x); }
        }
        DatedLtOrder(last, last, last);
        last
      else prev
  }

  /** The greatest undated entry, scanning left to right. */
  function LatestUndated(s: seq<UndatedFile>): (m: UndatedFile)
    requires s != []
    ensures m in s && forall x :: x in s ==> !UndatedLt(m, x)
  {
    if |s| == 1 then
      UndatedLtOrder(s[0], s[0], s[0]);
      s[0]
    else
      var prev := LatestUndated(s[..|s| - 1]);
      var last := s[|s| - 1];
      assert forall x :: x in s ==> x in s[..|s| - 1] || x == last;
      if UndatedLt(prev, last) then
        assert forall x :: x in s[..|s| - 1] ==> !UndatedLt(last, x) by {
          forall x | x in s[..|s| - 1] ensures !UndatedLt(last, x) { UndatedLtOrder(prev, last, x); }
        }
        UndatedLtOrder(last, last, last);
        last
      else prev
  }

  /** `dated_files.sort(...)` then `dated_files[-1]`: the last entry of any ordering of the
      entries by the sort key is the greatest one, so the sort and the scan agree. */
  lemma {:induction false} SortedLastIsLatestDated(s: seq<DatedFile>, t: seq<DatedFile>)
    requires s != [] && multiset(t) == multiset(s)
    requires forall i, j :: 0 <= i < j < |t| ==> !DatedLt(t[j], t[i])
    ensures t[|t| - 1] == LatestDated(s)
  {
    var m := LatestDated(s);
    assert m in multiset(t);
    var i :| 0 <= i < |t| && t[i] == m;
    assert t[|t| - 1] in multiset(s);
    DatedLtOrder(m, t[|t| - 1], m);
    if i < |t| - 1 {
      assert !DatedLt(t[|t| - 1], t[i]);
    }
  }

  /** `undated_files.sort(...)` then `undated_files[-1]`, likewise. */
  lemma {:induction false} SortedLastIsLatestUndated(s: seq<UndatedFile>, t: seq<UndatedFile>)
    requires s != [] && multiset(t) == multiset(s)
    requires forall i, j :: 0 <= i < j < |t| ==> !UndatedLt(t[j], t[i])
    ensures t[|t| - 1] == LatestUndated(s)
  {
    var m := LatestUndated(s);
    assert m in multiset(t);
    var i :| 0 <= i < |t| && t[i] == m;
    assert t[|t| - 1] in multiset(s);
    UndatedLtOrder(m, t[|t| - 1], m);
    if i < |t| - 1 {
      assert !UndatedLt(t[|t| - 1], t[i]);
    }
  }

  /** The chosen dated file is one of the files, its name carries the reported date, and
      no dated file has a greater (date, mtime, path) key. */
  lemma {:induction false} LatestDatedBeatsAll(files: seq<FileRecord>, dateOf: string -> Option<Date>)
    requires DatedOf(files, dateOf) != []
    ensures var m := LatestDated(DatedOf(files, dateOf));
      && FileRecord(m.path, m.mtime) in files && dateOf(m.path) == Some(m.date)
      && forall i :: 0 <= i < |files| && dateOf(files[i].path).Some? ==>
           !DatedLt(m, DatedFile(dateOf(files[i].path).value, files[i].mtime, files[i].path))
  {
    DatedOfMembers(files, dateOf);
  }

  /** With no dated file, the chosen file is one of the files and no file has a greater
      (mtime, path) key. */
  lemma {:induction false} LatestUndatedBeatsAll(files: seq<FileRecord>, dateOf: string -> Option<Date>)
    requires files != [] && DatedOf(files, dateOf) == []
    ensures UndatedOf(files, dateOf) != []
    ensures var m := LatestUndated(UndatedOf(files, dateOf));
      && FileRecord(m.path, m.mtime) in files
      && forall i :: 0 <= i < |files| ==> !UndatedLt(m, UndatedFile(files[i].mtime, files[i].path))
  {
    Partition(files, dateOf);
    DatedOfMembers(files, dateOf);
    UndatedOfMembers(files, dateOf);
  }

  /** The greatest entry of `s` by a left-to-right scan. */
  method PickLatestDated(s: seq<DatedFile>) returns (m: DatedFile)
    requires s != []
    ensures m == LatestDated(s)
  {
    m := s[0];
    assert s[..1] == [s[0]];
    for i := 1 to |s|
      invariant m == LatestDated(s[..i])
    {
      assert s[..i + 1][..i] == s[..i];
      if DatedLt(m, s[i]) {
        m := s[i];
      }
    }
    assert s[..|s|] == s;
  }

  method PickLatestUndated(s: seq<UndatedFile>) returns (m: UndatedFile)
    requires s != []
    ensures m == LatestUndated(s)
  {
    m := s[0];
    assert s[..1] == [s[0]];
    for i := 1 to |s|
      invariant m == LatestUndated(s[..i])
    {
      assert s[..i + 1][..i] == s[..i];
      if UndatedLt(m, s[i]) {
        m := s[i];
      }
    }
    assert s[..|s|] == s;
  }

  /** The loop of `resolve_as_of` that files each CSV path under `dated_files` or `undated_files`
      by the date `dateOf` reads from it. */
  method SplitByNameDate(files: seq<FileRecord>, dateOf: string -> Option<Date>)
    returns (dated: seq<DatedFile>, undated: seq<UndatedFile>)
    ensures dated == DatedOf(files, dateOf) && undated == UndatedOf(files, dateOf)
  {
    dated, undated := [], [];
    for i := 0 to |files|
      invariant dated == DatedOf(files[..i], dateOf) && undated == UndatedOf(files[..i], dateOf)
    {
      assert files[..i + 1][..i] == files[..i];
      var nameDate := dateOf(files[i].path);
      if nameDate.Some? {
        dated := dated + [DatedFile(nameDate.value, files[i].mtime, files[i].path)];
      } else {
        undated := undated + [UndatedFile(files[i].mtime, files[i].path)];
      }
    }
    assert files[..|files|] == files;
  }

  /** `resolve_as_of` over the CSV files found under `dataDir`: no file is an error; any dated
      file beats every undated one; the greatest dated entry, or else the greatest undated
      entry, is chosen. */
  method ResolveAsOf(dataDir: string, files: seq<FileRecord>) returns (r: Result<AsOf, string>)
    ensures r.Failure? <==> files == []
    ensures files == [] ==> r.error == "No CSV files found under: " + dataDir
    ensures r.Success? && DatedOf(files, ExtractDateFromName) != [] ==>
              var best := LatestDated(DatedOf(files, ExtractDateFromName));
              r.value == FromName(best.date, best.path)
    ensures r.Success? && DatedOf(files, ExtractDateFromName) == [] ==>
              && UndatedOf(files, ExtractDateFromName) != []
              && var latest := LatestUndated(UndatedOf(files, ExtractDateFromName));
                 r.value == FromMtime(latest.mtime, latest.path)
  {
    if |files| == 0 {
      return Failure("No CSV files found under: " + dataDir);
    }
    var dated, undated := SplitByNameDate(files, ExtractDateFromName);
    if dated != [] {
      var best := PickLatestDated(dated);
      return Success(FromName(best.date, best.path));
    }
    Partition(files, ExtractDateFromName);
    var latest := PickLatestUndated(undated);
    return Success(FromMtime(latest.mtime, latest.path));
  }
}
