/** The SBI screening-CSV collector (src/ai_investor/collectors/sbi_csv.py): turns the rows of
    the screening CSV into records, filters them into the universe and serves their metrics.

    A row is what `csv.DictReader` yields: header to cell, with `None` for the cells a short
    row lacks. Finding and reading the CSV file is not modelled; the collector is given the
    rows of the file it would read. */
module SbiCsv {
  import opened Wrappers
  import opened Strings
  import opened MarketData

  /** One CSV row: header to cell; `None` where the row was too short. */
  type CsvRow = map<string, Option<string>>

  /** One parsed CSV row. */
  datatype SbiRecord = SbiRecord(ticker: string, companyName: string, market: string, metrics: map<string, real>)

  /** The universe settings the filters read. */
  datatype UniverseConfig = UniverseConfig(market: string, minAvgTradingValue20dJpy: int, minMarketCapJpy: int)

  /** `row.get(column)`: a missing column reads as `None`. */
  function Cell(row: CsvRow, column: string): Option<string> {
    if column in row then row[column] else None
  }

  /** `str(row.get(column, ""))`: a missing column reads as "", a `None` cell as "None". */
  function CellText(row: CsvRow, column: string): string {
    if column !in row then "" else
    match row[column]
    case None => "None"
    case Some(s) => s
  }

  /** Cell texts that mean "no value". */
  const Sentinels: set<string> := {"-", "--", "---", "N/A", "n/a"}

  /** Characters removed before parsing: thousands separators and percent signs. */
  const Separators: set<char> := {',', '%'}

  /** The position of the first '.', or `|t|` when there is none. */
  function IndexOfDot(t: string): (k: nat)
    ensures k <= |t|
    ensures forall i :: 0 <= i < k ==> t[i] != '.'
    ensures k < |t| ==> t[k] == '.'
  {
    if t == [] || t[0] == '.' then 0 else 1 + IndexOfDot(t[1..])
  }

  function Pow10(n: nat): (p: nat)
    ensures p >= 1
  {
    if n == 0 then 1 else 10 * Pow10(n - 1)
  }

  /** An unsigned decimal: digits, optionally a '.' and more digits, at least one digit in all. */
  function ParseUnsigned(t: string): Option<real> {
    var k := IndexOfDot(t);
    var whole := t[..k];
    var frac := if k < |t| then t[k + 1..] else [];
    if AllDigits(whole) && AllDigits(frac) && (whole != [] || frac != []) then
      Some(DigitsValue(whole) as real + (DigitsValue(frac) as real) / (Pow10(|frac|) as real))
    else
      None
  }

  /** `float(text)` on an already stripped text: an optional sign, then an unsigned decimal. */
  function ParseDecimal(t: string): Option<real> {
    if t != [] && (t[0] == '-' || t[0] == '+') then
      match ParseUnsigned(t[1..])
      case None => None
      case Some(v) => Some(if t[0] == '-' then -v else v)
    else
      ParseUnsigned(t)
  }

  /** `_to_float`: no value for `None`, for blank text and for the dash and N/A sentinels;
      otherwise the number the text denotes once separators are removed, if any. */
  function ToFloat(value: Option<string>): (r: Option<real>)
    ensures value.None? ==> r.None?
    ensures value.Some? && AllSpace(value.value) ==> r.None?
    ensures value.Some? && Strip(value.value) in Sentinels ==> r.None?
  {
    if value.None? then None
    else
      var text := Strip(value.value);
      StripShape(value.value);
      if text == "" || text in Sentinels then None
      else ParseDecimal(Strip(RemoveChars(text, Separators)))
  }

  /** `_put_metric`: the key gets the parsed value when the cell parses; otherwise the map is
      unchanged. */
  function PutMetric(metrics: map<string, real>, key: string, raw: Option<string>): (r: map<string, real>)
    ensures ToFloat(raw).Some? ==> r == metrics[key := ToFloat(raw).value]
    ensures ToFloat(raw).None? ==> r == metrics
  {
    match ToFloat(raw)
    case None => metrics
    case Some(v) => metrics[key := v]
  }

  lemma {:induction false} DigitsHaveNoDot(t: string)
    requires AllDigits(t)
    ensures IndexOfDot(t) == |t|
  {
    if t != [] {
      assert IsDigit(t[0]);
      DigitsHaveNoDot(t[1..]);
    }
  }

  /** A digit string parses as the number it denotes. */
  lemma {:induction false} ParseUnsignedDigits(t: string)
    requires t != [] && AllDigits(t)
    ensures ParseUnsigned(t) == Some(DigitsValue(t) as real)
  {
    DigitsHaveNoDot(t);
    assert t[..IndexOfDot(t)] == t;
  }

  /** A digit string reads back as the number it was written from. */
  lemma {:induction false} ParseUnsignedNat(n: nat)
    ensures ParseUnsigned(NatToString(n)) == Some(n as real)
  {
    ParseUnsignedDigits(NatToString(n));
    NatToStringValue(n);
  }

  /** Writes a whole number as the CSV may hold it: an optional minus, digits, an optional '%'. */
  function SignedText(negative: bool, n: nat, percent: bool): string {
    (if negative then "-" else "") + NatToString(n) + (if percent then "%" else "")
  }

  lemma {:induction false} SignedTextShape(negative: bool, n: nat, percent: bool)
    ensures var body := SignedText(negative, n, percent);
      && body != [] && !IsSpace(body[0]) && !IsSpace(body[|body| - 1])
      && body !in Sentinels
      && RemoveChars(body, Separators) == (if negative then "-" else "") + NatToString(n)
  {
    var sign := if negative then "-" else "";
    var suffix := if percent then "%" else "";
    var digits := NatToString(n);
    var body := sign + digits + suffix;
    assert IsDigit(digits[0]) && IsDigit(digits[|digits| - 1]);
    assert body[|sign|] == digits[0];
    assert body[|body| - 1] == if percent then '%' else digits[|digits| - 1];
    NotSentinel(body, |sign|);
    SignedTextCleaned(sign, digits, suffix);
  }

  /** A text with a digit at its start, or right after a leading '-', is no sentinel. */
  lemma {:induction false} NotSentinel(body: string, i: nat)
    requires i <= 1 && i < |body| && IsDigit(body[i]) && (i == 1 ==> body[0] == '-')
    ensures body !in Sentinels
  {
  }

  lemma {:induction false} SignedTextCleaned(sign: string, digits: string, suffix: string)
    requires sign == "" || sign == "-"
    requires suffix == "" || suffix == "%"
    requires forall i :: 0 <= i < |digits| ==> digits[i] !in Separators
    ensures RemoveChars(sign + digits + suffix, Separators) == sign + digits
  {
    RemoveCharsAppend(sign + digits, suffix, Separators);
    RemoveCharsAppend(sign, digits, Separators);
    RemoveAbsentChars(sign, Separators);
    RemoveAbsentChars(digits, Separators);
    assert RemoveChars(suffix, Separators) == [] by {
      if suffix != [] { assert suffix[1..] == []; }
    }
  }

  lemma {:induction false} ParseSigned(negative: bool, n: nat)
    ensures var cleaned := (if negative then "-" else "") + NatToString(n);
      ParseDecimal(Strip(cleaned)) == Some(if negative then -(n as real) else n as real)
  {
    var digits := NatToString(n);
    SignedStripped(negative, digits);
    ParseUnsignedNat(n);
    ParseDecimalSign(negative, digits, n as real);
  }

  /** An optional '-' followed by digits neither starts nor ends with whitespace. */
  lemma {:induction false} SignedStripped(negative: bool, digits: string)
    requires digits != [] && AllDigits(digits)
    ensures var t := (if negative then "-" else "") + digits; Strip(t) == t
  {
    var t := (if negative then "-" else "") + digits;
    assert IsDigit(digits[0]) && IsDigit(digits[|digits| - 1]);
    assert t[|t| - 1] == digits[|digits| - 1];
    StripUntouched(t);
  }

  /** A leading '-' negates the unsigned number after it. */
  lemma {:induction false} ParseDecimalSign(negative: bool, digits: string, v: real)
    requires digits != [] && IsDigit(digits[0]) && ParseUnsigned(digits) == Some(v)
    ensures ParseDecimal((if negative then "-" else "") + digits) == Some(if negative then -v else v)
  {
    if negative {
      ParseNegative(digits, v);
    } else {
      assert "" + digits == digits;
      ParseNoSign(digits);
    }
  }

  lemma {:induction false} ParseNegative(digits: string, v: real)
    requires ParseUnsigned(digits) == Some(v)
    ensures ParseDecimal("-" + digits) == Some(-v)
  {
    var t := "-" + digits;
    assert t[0] == '-' && t[1..] == digits;
  }

  lemma {:induction false} ParseNoSign(digits: string)
    requires digits != [] && IsDigit(digits[0])
    ensures ParseDecimal(digits) == ParseUnsigned(digits)
  {
    assert digits[0] != '-' && digits[0] != '+';
  }

  /** A whole number written in the CSV (a leading minus, a trailing '%' and whitespace
      around it optional) reads back as that number. */
  lemma {:induction false} ToFloatInteger(pre: string, negative: bool, n: nat, percent: bool, post: string)
    requires AllSpace(pre) && AllSpace(post)
    ensures ToFloat(Some(pre + SignedText(negative, n, percent) + post)) == Some(if negative then -(n as real) else n as real)
  {
    var body := SignedText(negative, n, percent);
    SignedTextShape(negative, n, percent);
    StripPadded(pre, body, post);
    ParseSigned(negative, n);
  }

  /** A number with a fractional part, such as "12.5" or "12.5%", reads as the whole part
      plus the fraction digits over their power of ten. */
  lemma {:induction false} ToFloatFraction(whole: nat, frac: string, percent: bool)
    requires frac != [] && AllDigits(frac)
    ensures ToFloat(Some(NatToString(whole) + "." + frac + (if percent then "%" else "")))
            == Some(whole as real + (DigitsValue(frac) as real) / (Pow10(|frac|) as real))
  {
    FractionText(NatToString(whole), frac, if percent then "%" else "");
    FractionDecimal(whole, frac);
  }

  /** The cleaned text of a fractional number parses as its value. */
  lemma {:induction false} FractionDecimal(whole: nat, frac: string)
    requires frac != [] && AllDigits(frac)
    ensures ParseDecimal(Strip(NatToString(whole) + "." + frac))
            == Some(whole as real + (DigitsValue(frac) as real) / (Pow10(|frac|) as real))
  {
    var w := NatToString(whole);
    var cleaned := w + "." + frac;
    FractionText(w, frac, "");
    ParseNoSign(cleaned);
    FractionParsed(whole, frac);
  }

  /** The text of a fractional number is no sentinel, needs no stripping, and loses only its
      '%' to cleaning. */
  lemma {:induction false} FractionText(w: string, frac: string, suffix: string)
    requires w != [] && AllDigits(w) && frac != [] && AllDigits(frac)
    requires suffix == "" || suffix == "%"
    ensures var body := w + "." + frac + suffix;
      && body != "" && body !in Sentinels && Strip(body) == body
      && RemoveChars(body, Separators) == w + "." + frac
      && Strip(w + "." + frac) == w + "." + frac
      && IsDigit((w + "." + frac)[0])
  {
    var cleaned := w + "." + frac;
    var body := cleaned + suffix;
    assert body[0] == w[0];
    NotSentinel(body, 0);
    assert body[|body| - 1] == if suffix == "%" then '%' else frac[|frac| - 1];
    StripUntouched(body);
    FractionCleaned(w, frac, suffix);
    assert cleaned[|cleaned| - 1] == frac[|frac| - 1];
    StripUntouched(cleaned);
  }

  /** Removing separators from digits, a '.', more digits and an optional '%' leaves the number. */
  lemma {:induction false} FractionCleaned(w: string, frac: string, suffix: string)
    requires AllDigits(w) && AllDigits(frac)
    requires suffix == "" || suffix == "%"
    ensures RemoveChars(w + "." + frac + suffix, Separators) == w + "." + frac
  {
    var cleaned := w + "." + frac;
    assert forall i :: 0 <= i < |cleaned| ==> cleaned[i] !in Separators by {
      forall i | 0 <= i < |cleaned| ensures cleaned[i] !in Separators {
        if i < |w| { assert cleaned[i] == w[i]; }
        else if i > |w| { assert cleaned[i] == frac[i - |w| - 1]; }
      }
    }
    RemoveCharsAppend(cleaned, suffix, Separators);
    RemoveAbsentChars(cleaned, Separators);
    assert RemoveChars(suffix, Separators) == [] by {
      if suffix != [] { assert suffix[1..] == []; }
    }
  }

  /** Digits, a '.' and more digits parse as the whole part plus the scaled fraction. */
  lemma {:induction false} FractionParsed(whole: nat, frac: string)
    requires AllDigits(frac)
    ensures ParseUnsigned(NatToString(whole) + "." + frac)
            == Some(whole as real + (DigitsValue(frac) as real) / (Pow10(|frac|) as real))
  {
    var w := NatToString(whole);
    var t := w + ("." + frac);
    assert t == w + "." + frac;
    IndexOfDotAfterDigits(w, "." + frac);
    var k := IndexOfDot(t);
    assert k == |w| < |t|;
    assert t[..k] == w;
    assert t[k + 1..] == frac;
    NatToStringValue(whole);
  }

  /** The first '.' after a run of digits is where the digits end. */
  lemma {:induction false} IndexOfDotAfterDigits(w: string, rest: string)
    requires AllDigits(w) && rest != [] && rest[0] == '.'
    ensures IndexOfDot(w + rest) == |w|
    decreases |w|
  {
    if w != [] {
      assert IsDigit(w[0]);
      assert (w + rest)[1..] == w[1..] + rest;
      IndexOfDotAfterDigits(w[1..], rest);
    } else {
      assert w + rest == rest;
    }
  }

  /** Stripping twice strips no more than once. */
  lemma {:induction false} StripIdempotent(s: string)
    ensures Strip(Strip(s)) == Strip(s)
  {
    StripShape(s);
    StripUntouched(Strip(s));
  }

  /** Stripping keeps a subset of the characters. */
  lemma {:induction false} StripChars(s: string, drop: set<char>)
    requires forall i :: 0 <= i < |s| ==> s[i] !in drop
    ensures forall i :: 0 <= i < |Strip(s)| ==> Strip(s)[i] !in drop
  {
    var l := TrimLeft(s);
    SliceKeeps(s, |s| - |l|, |s|, drop);
    SliceKeeps(l, 0, |TrimRight(l)|, drop);
  }

  /** A slice of a text free of `drop` is free of it too. */
  lemma SliceKeeps(s: string, lo: nat, hi: nat, drop: set<char>)
    requires lo <= hi <= |s|
    requires forall i :: 0 <= i < |s| ==> s[i] !in drop
    ensures forall i :: 0 <= i < hi - lo ==> s[lo..hi][i] !in drop
  {
    forall i | 0 <= i < hi - lo ensures s[lo..hi][i] !in drop {
      assert s[lo..hi][i] == s[lo + i];
    }
  }

  /** No sentinel and no blank text parses as a number. */
  lemma {:induction false} NoValueTexts(t: string)
    requires t == "" || t in Sentinels
    ensures ParseDecimal(t) == None
  {
    if t != [] {
      if t[0] == '-' {
        var u := t[1..];
        assert u == "" || u == "-" || u == "--";
        assert u != [] ==> !IsDigit(u[0]);
        var k := IndexOfDot(u);
        assert k == |u|;
        assert u[..k] == u;
      } else {
        var k := IndexOfDot(t);
        assert k == |t|;
        assert t[..k] == t && !IsDigit(t[0]);
      }
    }
  }

  /** Cleaning is stable: the text `_to_float` parses, fed back in, gives the same result. */
  lemma {:induction false} ToFloatCleaningStable(s: string)
    ensures ToFloat(Some(s)) == ToFloat(Some(RemoveChars(Strip(s), Separators)))
  {
    var text := Strip(s);
    if text == "" || text in Sentinels {
      CleaningNoValue(text);
    } else {
      CleaningValue(RemoveChars(text, Separators));
    }
  }

  /** A blank or sentinel text has nothing to clean and is no value again. */
  lemma {:induction false} CleaningNoValue(text: string)
    requires text == "" || text in Sentinels
    ensures ToFloat(Some(RemoveChars(text, Separators))) == None
  {
    assert forall i :: 0 <= i < |text| ==> text[i] !in Separators;
    RemoveAbsentChars(text, Separators);
    StripUntouchedBlankOrSentinel(text);
  }

  /** A cleaned text parses as itself once more: stripping and cleaning it again change nothing. */
  lemma {:induction false} CleaningValue(cleaned: string)
    requires forall i :: 0 <= i < |cleaned| ==> cleaned[i] !in Separators
    ensures ToFloat(Some(cleaned)) == ParseDecimal(Strip(cleaned))
  {
    var again := Strip(cleaned);
    StripChars(cleaned, Separators);
    if again == "" || again in Sentinels {
      NoValueTexts(again);
    } else {
      RemoveAbsentChars(again, Separators);
      StripIdempotent(cleaned);
    }
  }

  /** Position `i` of a cleaned text holds a character `float` cannot place there: not a digit,
      not a '.', and not a sign at the front. */
  predicate StrayAt(t: string, i: nat)
    requires i < |t|
  {
    !IsDigit(t[i]) && t[i] != '.' && (i > 0 || (t[i] != '-' && t[i] != '+'))
  }

  /** `_to_float` gives no value when the cleaned text holds a stray character ("12a", "1-2",
      "abc"): the `float` call fails and the error is swallowed. */
  lemma {:induction false} ToFloatRejectsStray(value: string, i: nat)
    requires var t := Strip(RemoveChars(Strip(value), Separators)); i < |t| && StrayAt(t, i)
    ensures ToFloat(Some(value)) == None
  {
    var text := Strip(value);
    if text != "" && text !in Sentinels {
      ParseDecimalRejectsStray(Strip(RemoveChars(text, Separators)), i);
    }
  }

  lemma {:induction false} ParseDecimalRejectsStray(t: string, i: nat)
    requires i < |t| && StrayAt(t, i)
    ensures ParseDecimal(t) == None
  {
    if t[0] == '-' || t[0] == '+' {
      assert t[1..][i - 1] == t[i];
      ParseUnsignedRejectsStray(t[1..], i - 1);
    } else {
      ParseUnsignedRejectsStray(t, i);
    }
  }

  /** Outside the first '.', every character of an unsigned decimal must be a digit. */
  lemma {:induction false} ParseUnsignedRejectsStray(u: string, i: nat)
    requires i < |u| && !IsDigit(u[i]) && u[i] != '.'
    ensures ParseUnsigned(u) == None
  {
    var k := IndexOfDot(u);
    if i < k {
      assert u[..k][i] == u[i];
      assert !AllDigits(u[..k]);
    } else {
      assert u[k + 1..][i - k - 1] == u[i];
      assert !AllDigits(u[k + 1..]);
    }
  }

  lemma {:induction false} StripUntouchedBlankOrSentinel(t: string)
    requires t == "" || t in Sentinels
    ensures Strip(t) == t
  {
    if t != "" {
      StripUntouched(t);
    }
  }

  /** Digits written after others shift them left by their own count. */
  lemma {:induction false} DigitsValueAppend(x: string, y: string)
    requires AllDigits(x) && AllDigits(y)
    ensures AllDigits(x + y)
    ensures DigitsValue(x + y) == DigitsValue(x) * Pow10(|y|) + DigitsValue(y)
    decreases |y|
  {
    assert AllDigits(x + y) by {
      forall i | 0 <= i < |x + y| ensures IsDigit((x + y)[i]) {
        if i >= |x| { assert (x + y)[i] == y[i - |x|]; }
      }
    }
    if y == [] {
      assert x + y == x;
    } else {
      var y' := y[..|y| - 1];
      var d := y[|y| - 1] as int - '0' as int;
      assert (x + y)[..|x + y| - 1] == x + y';
      assert (x + y)[|x + y| - 1] == y[|y| - 1];
      DigitsValueAppend(x, y');
      assert DigitsValue(x + y) == DigitsValue(x + y') * 10 + d;
      assert DigitsValue(y) == DigitsValue(y') * 10 + d;
      ShiftDigit(DigitsValue(x), Pow10(|y'|), DigitsValue(y'), d);
    }
  }

  /** Appending a digit `d` to `a` digits followed by the `b` of `p` places. */
  lemma ShiftDigit(a: int, p: int, b: int, d: int)
    ensures (a * p + b) * 10 + d == a * (10 * p) + (b * 10 + d)
  {
  }

  /** A number written with a thousands separator, such as "1,234", reads as the number
      without it. */
  lemma {:induction false} ToFloatGrouped(thousands: nat, group: string)
    requires |group| == 3 && AllDigits(group)
    ensures ToFloat(Some(NatToString(thousands) + "," + group)) == Some((thousands * 1000 + DigitsValue(group)) as real)
  {
    GroupedText(NatToString(thousands), group);
    GroupedValue(thousands, group);
  }

  lemma {:induction false} GroupedValue(thousands: nat, group: string)
    requires |group| == 3 && AllDigits(group)
    ensures ParseDecimal(NatToString(thousands) + group) == Some((thousands * 1000 + DigitsValue(group)) as real)
  {
    var head := NatToString(thousands);
    var digits := head + group;
    assert AllDigits(digits) && DigitsValue(digits) == thousands * 1000 + DigitsValue(group) by {
      DigitsValueAppend(head, group);
      NatToStringValue(thousands);
      assert Pow10(3) == 1000;
    }
    ParseUnsignedDigits(digits);
    assert IsDigit(digits[0]);
  }

  /** The text `_to_float` parses for "1,234": the digits with the separator gone. */
  lemma {:induction false} GroupedText(head: string, group: string)
    requires head != [] && AllDigits(head) && |group| == 3 && AllDigits(group)
    ensures var t := head + "," + group;
      && Strip(t) == t && t != "" && t !in Sentinels
      && Strip(RemoveChars(t, Separators)) == head + group
  {
    GroupedRaw(head, group);
    GroupedStripped(head, group);
  }

  /** "1,234" is already stripped and is no sentinel. */
  lemma {:induction false} GroupedRaw(head: string, group: string)
    requires head != [] && AllDigits(head) && |group| == 3 && AllDigits(group)
    ensures var t := head + "," + group; Strip(t) == t && t != "" && t !in Sentinels
  {
    var t := head + "," + group;
    assert t[0] == head[0] && IsDigit(head[0]);
    assert t[|t| - 1] == group[2] && IsDigit(group[2]);
    DigitEnds(t);
    NotSentinel(t, 0);
  }

  /** Cleaning "1,234" and stripping it gives "1234". */
  lemma {:induction false} GroupedStripped(head: string, group: string)
    requires head != [] && AllDigits(head) && |group| == 3 && AllDigits(group)
    ensures Strip(RemoveChars(head + "," + group, Separators)) == head + group
  {
    GroupedCleaned(head, group);
    var u := head + group;
    assert u[0] == head[0] && IsDigit(head[0]);
    assert u[|u| - 1] == group[2] && IsDigit(group[2]);
    DigitEnds(u);
  }

  /** Text that starts and ends with a digit is unchanged by `Strip`. */
  lemma {:induction false} DigitEnds(t: string)
    requires t != [] && IsDigit(t[0]) && IsDigit(t[|t| - 1])
    ensures Strip(t) == t
  {
    StripUntouched(t);
  }

  lemma {:induction false} GroupedCleaned(head: string, group: string)
    requires AllDigits(head) && AllDigits(group)
    ensures RemoveChars(head + "," + group, Separators) == head + group
  {
    RemoveCharsAppend(head + ",", group, Separators);
    RemoveCharsAppend(head, ",", Separators);
    DigitsKept(head);
    DigitsKept(group);
    assert RemoveChars(",", Separators) == [] by { assert ","[1..] == []; }
  }

  /** Digits are no separators, so cleaning keeps a digit string as it is. */
  lemma {:induction false} DigitsKept(t: string)
    requires AllDigits(t)
    ensures RemoveChars(t, Separators) == t
  {
    forall i | 0 <= i < |t| ensures t[i] !in Separators {
      assert IsDigit(t[i]);
    }
    RemoveAbsentChars(t, Separators);
  }
}
