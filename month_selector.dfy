/**
 * The month selector's calendar arithmetic: reading the current "YYYY-MM"
 * key into a date, the number of days of that month and its day buttons,
 * and the key of the month `delta` months away.
 *
 * A JavaScript `Date` is reduced to the year and the month index (0..11) it
 * denotes; the proleptic Gregorian calendar of section 21.4.1 of ECMA-262
 * (the ECMAScript language specification) decides the month lengths.
 */
module MonthSelector {
  import opened Wrappers
  import opened JsText

  datatype YearMonth = YearMonth(year: int, monthIndex: int)

  predicate ValidMonth(d: YearMonth)
  {
    0 <= d.monthIndex < 12
  }

  /** `MakeFullYear`: the `Date` constructor reads a year argument 0..99 as 1900..1999. */
  function FullYear(y: int): int
  {
    if 0 <= y <= 99 then 1900 + y else y
  }

  /**
   * `new Date(y, m)`: the month index m may lie outside 0..11 and carries
   * into the year, in either direction.
   */
  function MakeDate(y: int, m: int): (d: YearMonth)
    ensures ValidMonth(d)
    ensures d.year * 12 + d.monthIndex == FullYear(y) * 12 + m
  {
    YearMonth(FullYear(y) + m / 12, m % 12)
  }

  /** The months since year 0 a valid date denotes fix it. */
  lemma MonthsDetermineDate(d: YearMonth, e: YearMonth)
    requires ValidMonth(d) && ValidMonth(e)
    requires d.year * 12 + d.monthIndex == e.year * 12 + e.monthIndex
    ensures d == e
  {
  }

  /**
   * `const [yearStr, monthStr] = s.split('-')`: the text before the first
   * `-` and, when there is one, the text between it and the next `-` (None
   * for the `undefined` of a key without `-`).
   */
  function SplitYearMonth(s: string): (r: (string, Option<string>))
    ensures r.0 == PrefixBefore(s, '-')
    ensures r.1.None? <==> '-' !in s
    ensures r.1.Some? ==> |r.0| < |s| && r.1.value == PrefixBefore(s[|r.0| + 1..], '-')
  {
    var yearStr := PrefixBefore(s, '-');
    if |yearStr| == |s| then (yearStr, None)
    else
      assert s[|yearStr|] in s;
      (yearStr, Some(PrefixBefore(s[|yearStr| + 1..], '-')))
  }

  /**
   * `new Date(parseInt(yearStr), parseInt(monthStr) - 1)`; None for the
   * invalid date that a NaN part gives.
   */
  function ParseCurrentMonth(s: string): (r: Option<YearMonth>)
    ensures r.Some? ==> ValidMonth(r.value)
  {
    var (yearStr, monthStr) := SplitYearMonth(s);
    var year := ParseInt(yearStr);
    var month := if monthStr.Some? then ParseInt(monthStr.value) else None;
    if year.Some? && month.Some? then Some(MakeDate(year.value, month.value - 1)) else None
  }

  /** `${d.getFullYear()}-${String(d.getMonth() + 1).padStart(2, '0')}`. */
  function MonthKey(d: YearMonth): (k: string)
    requires ValidMonth(d)
    // it starts with the year's sign or first digit and ends in a dash and the two digits of the month number
    ensures |k| >= 4 && (k[0] == '-' || IsDigit(k[0]))
    ensures k[|k| - 3] == '-'
    ensures k[|k| - 2] == DigitChar((d.monthIndex + 1) / 10) && k[|k| - 1] == DigitChar((d.monthIndex + 1) % 10)
  {
    var year := IntToString(d.year);
    var mm := PadStart2(NatToString(d.monthIndex + 1));
    MonthDigits(d.monthIndex + 1);
    NatToStringDigits(if d.year < 0 then -d.year else d.year);
    var k := year + "-" + mm;
    assert k[0] == year[0];
    k
  }

  /** A month number pads to its tens digit and its units digit. */
  lemma MonthDigits(m: nat)
    requires 1 <= m <= 12
    ensures PadStart2(NatToString(m)) == [DigitChar(m / 10), DigitChar(m % 10)]
  {
    if m < 10 {
      assert PadStart2(NatToString(m)) == "0" + [DigitChar(m)];
    } else {
      assert NatToString(m / 10) == [DigitChar(1)];
    }
  }



  /**
   * The key `navigateMonth(delta)` hands to `onMonthChange`: the first of
   * the month `delta` months after the current one, or "NaN-NaN" when the
   * current key does not read as a date.
   */
  function NavigateTarget(currentMonth: string, delta: int): (k: string)
    ensures ParseCurrentMonth(currentMonth).None? ==> k == "NaN-NaN"
    ensures ParseCurrentMonth(currentMonth).Some? ==> k != [] && (k[0] == '-' || IsDigit(k[0]))
  {
    TargetOf(ParseCurrentMonth(currentMonth), delta)
  }

  /** The key of `new Date(date.getFullYear(), date.getMonth() + delta)`. */
  function TargetOf(date: Option<YearMonth>, delta: int): (k: string)
    requires date.Some? ==> ValidMonth(date.value)
    // "NaN-NaN" for the invalid date, otherwise a key led by a sign or a digit, never "NaN-NaN"
    ensures date.None? ==> k == "NaN-NaN"
    ensures date.Some? ==> k != [] && (k[0] == '-' || IsDigit(k[0]))
  {
    if date.None? then "NaN-NaN" else MonthKey(MakeDate(date.value.year, date.value.monthIndex + delta))
  }

  predicate IsLeapYear(y: int)
  {
    y % 4 == 0 && (y % 100 != 0 || y % 400 == 0)
  }

  /** The Gregorian length of month m (0..11) of year y. */
  function DaysInMonth(y: int, m: int): (n: int)
    requires 0 <= m < 12
    ensures 28 <= n <= 31
    ensures n == 29 <==> m == 1 && IsLeapYear(y)
    ensures n == 28 <==> m == 1 && !IsLeapYear(y)
    ensures n == 30 <==> m == 3 || m == 5 || m == 8 || m == 10
    ensures n == 31 <==> m != 1 && m != 3 && m != 5 && m != 8 && m != 10
  {
    if m == 1 then (if IsLeapYear(y) then 29 else 28)
    else if m == 3 || m == 5 || m == 8 || m == 10 then 30
    else 31
  }

  /**
   * `new Date(date.getFullYear(), date.getMonth() + 1, 0).getDate()`: day 0
   * of the next month is the last day of this one, in the year the
   * constructor makes of `getFullYear()`; an invalid date has no days.
   */
  function TotalDays(date: Option<YearMonth>): (n: nat)
    requires date.Some? ==> ValidMonth(date.value)
    ensures date.None? ==> n == 0
    ensures date.Some? ==> n == DaysInMonth(FullYear(date.value.year), date.value.monthIndex)
  {
    if date.None? then 0 else DaysInMonth(FullYear(date.value.year), date.value.monthIndex)
  }

  /** `Array.from({ length: totalDays }, (_, i) => i + 1)`. */
  function DaysArray(totalDays: nat): (days: seq<int>)
  {
    seq(totalDays, i => i + 1)
  }

  /** The day buttons are 1, 2, ..., totalDays, each once and in order. */
  lemma DaysArrayContents(totalDays: nat)
    ensures |DaysArray(totalDays)| == totalDays
    ensures forall d :: d in DaysArray(totalDays) <==> 1 <= d <= totalDays
    ensures forall i, j :: 0 <= i < j < totalDays ==> DaysArray(totalDays)[i] < DaysArray(totalDays)[j]
  {
    var days := DaysArray(totalDays);
    forall d | 1 <= d <= totalDays
      ensures d in days
    {
      assert days[d - 1] == d;
    }
  }

  /** A key this selector writes for a year from 100 on reads back as the same month. */
  lemma ParseMonthKey(d: YearMonth)
    requires ValidMonth(d) && d.year >= 100
    ensures ParseCurrentMonth(MonthKey(d)) == Some(d)
  {
    KeySplits(d);
    YearReads(d.year);
    MonthReads(d.monthIndex + 1);
    ReadParts(MonthKey(d), NatToString(d.year), PadStart2(NatToString(d.monthIndex + 1)), d.year, d.monthIndex + 1);
    MakeDateOfValid(d);
  }

  /** A valid date from year 100 on is its own `new Date(year, monthIndex)`. */
  lemma MakeDateOfValid(d: YearMonth)
    requires ValidMonth(d) && d.year >= 100
    ensures MakeDate(d.year, d.monthIndex) == d
  {
    MonthsDetermineDate(MakeDate(d.year, d.monthIndex), d);
  }

  lemma KeySplits(d: YearMonth)
    requires ValidMonth(d) && d.year >= 0
    ensures SplitYearMonth(MonthKey(d)) == (NatToString(d.year), Some(PadStart2(NatToString(d.monthIndex + 1))))
  {
    var y := NatToString(d.year);
    var m := PadStart2(NatToString(d.monthIndex + 1));
    assert MonthKey(d) == y + "-" + m;
    NatToStringDigits(d.year);
    PadDigits(d.monthIndex + 1);
    SplitKey(y, m);
  }

  lemma YearReads(n: nat)
    ensures ParseInt(NatToString(n)) == Some(n)
  {
    NatToStringDigits(n);
    ParseIntDigits(NatToString(n));
  }

  lemma MonthReads(n: nat)
    ensures ParseInt(PadStart2(NatToString(n))) == Some(n)
  {
    PadDigits(n);
    ParseIntDigits(PadStart2(NatToString(n)));
  }

  /** A key whose parts read as year and month reads as that date. */
  lemma ReadParts(s: string, a: string, b: string, year: int, month: int)
    requires SplitYearMonth(s) == (a, Some(b))
    requires ParseInt(a) == Some(year) && ParseInt(b) == Some(month)
    ensures ParseCurrentMonth(s) == Some(MakeDate(year, month - 1))
  {
  }

  /** Splitting "a-b" where neither part has a `-` gives back a and b. */
  lemma SplitKey(a: string, b: string)
    requires '-' !in a && '-' !in b
    ensures SplitYearMonth(a + "-" + b) == (a, Some(b))
  {
    var s := a + "-" + b;
    PrefixBeforeSeparator(a, '-', b);
    assert s[|a| + 1..] == b;
    PrefixBeforeAbsent(b, '-');
  }

  /** `padStart(2, '0')` keeps a numeral's value and adds no `-`. */
  lemma PadDigits(n: nat)
    ensures AllDigits(PadStart2(NatToString(n))) && PadStart2(NatToString(n)) != []
    ensures DigitsValue(PadStart2(NatToString(n))) == n
    ensures '-' !in PadStart2(NatToString(n))
  {
    var s := NatToString(n);
    NatToStringDigits(n);
    if |s| < 2 {
      assert PadStart2(s) == "0" + s;
      DigitsValueAppend("0", s);
    }
  }

  /** A number of 1 to 31 (a day, or a month number) pads to two digits that spell it. */
  lemma PaddedTwoDigits(n: nat)
    requires 1 <= n <= 31
    ensures var p := PadStart2(NatToString(n));
            |p| == 2 && AllDigits(p) && DigitsValue(p) == n
  {
    PadDigits(n);
    ShortNumeral(n);
  }

  /** A number below 100 is written with at most two digits. */
  lemma ShortNumeral(n: nat)
    requires n < 100
    ensures |NatToString(n)| <= 2
  {
    if n >= 10 {
      assert n / 10 < 10;
      assert |NatToString(n / 10)| == 1;
    }
  }

  /**
   * From the key of a month d (from year 100 on), `delta` months on is year
   * d.year + floor((d.monthIndex + delta) / 12), month index
   * (d.monthIndex + delta) mod 12.
   */
  lemma NavigateFormula(d: YearMonth, delta: int)
    requires ValidMonth(d) && d.year >= 100
    ensures NavigateTarget(MonthKey(d), delta)
         == MonthKey(YearMonth(d.year + (d.monthIndex + delta) / 12, (d.monthIndex + delta) % 12))
  {
    NavigateTo(d, delta, YearMonth(d.year + (d.monthIndex + delta) / 12, (d.monthIndex + delta) % 12));
  }

  /** NavigateFormula with the target month named by the caller. */
  lemma NavigateTo(d: YearMonth, delta: int, e: YearMonth)
    requires ValidMonth(d) && d.year >= 100
    requires e == YearMonth(d.year + (d.monthIndex + delta) / 12, (d.monthIndex + delta) % 12)
    ensures NavigateTarget(MonthKey(d), delta) == MonthKey(e)
  {
    var k := MonthKey(d);
    assert ParseCurrentMonth(k) == Some(d) by {
      ParseMonthKey(d);
    }
    assert MakeDate(d.year, d.monthIndex + delta) == e by {
      MakeDateCarry(d.year, d.monthIndex + delta);
    }
    NavigateFrom(k, d, delta, e);
  }

  /** Navigating from a key that reads as d goes to the key of `new Date(d.year, d.monthIndex + delta)`. */
  lemma NavigateFrom(currentMonth: string, d: YearMonth, delta: int, e: YearMonth)
    requires ParseCurrentMonth(currentMonth) == Some(d)
    requires e == MakeDate(d.year, d.monthIndex + delta)
    ensures NavigateTarget(currentMonth, delta) == MonthKey(e)
  {
    NavigateReads(currentMonth, d, delta);
    TargetOfSome(d, delta);
  }

  lemma NavigateReads(currentMonth: string, d: YearMonth, delta: int)
    requires ParseCurrentMonth(currentMonth) == Some(d)
    ensures NavigateTarget(currentMonth, delta) == TargetOf(Some(d), delta)
  {
  }

  lemma TargetOfSome(d: YearMonth, delta: int)
    requires ValidMonth(d)
    ensures TargetOf(Some(d), delta) == MonthKey(MakeDate(d.year, d.monthIndex + delta))
  {
  }

  /** From year 100 on, the month index carries into the year by floor division. */
  lemma MakeDateCarry(year: int, m: int)
    requires year >= 100
    ensures MakeDate(year, m) == YearMonth(year + m / 12, m % 12)
  {
  }

  /** December forward is January of the next year. */
  lemma DecemberForward(year: int)
    requires year >= 100
    ensures NavigateTarget(MonthKey(YearMonth(year, 11)), 1) == MonthKey(YearMonth(year + 1, 0))
  {
    NavigateTo(YearMonth(year, 11), 1, YearMonth(year + 1, 0));
  }

  /** January back is December of the previous year. */
  lemma JanuaryBack(year: int)
    requires year >= 100
    ensures NavigateTarget(MonthKey(YearMonth(year, 0)), -1) == MonthKey(YearMonth(year - 1, 11))
  {
    NavigateTo(YearMonth(year, 0), -1, YearMonth(year - 1, 11));
  }

  /** One month forward and one back returns to the same key. */
  lemma ForwardBack(year: int, month: int)
    requires year >= 100 && 1 <= month <= 12
    ensures NavigateTarget(NavigateTarget(MonthKey(YearMonth(year, month - 1)), 1), -1)
         == MonthKey(YearMonth(year, month - 1))
  {
    if month == 12 {
      DecemberForward(year);
      JanuaryBack(year + 1);
    } else {
      WithinYear(year, month);
    }
  }

  /** Below December, forward stays in the year, and back from there returns. */
  lemma WithinYear(year: int, month: int)
    requires year >= 100 && 1 <= month < 12
    ensures NavigateTarget(MonthKey(YearMonth(year, month - 1)), 1) == MonthKey(YearMonth(year, month))
    ensures NavigateTarget(MonthKey(YearMonth(year, month)), -1) == MonthKey(YearMonth(year, month - 1))
  {
    ForwardInYear(year, month);
    BackInYear(year, month);
  }

  lemma ForwardInYear(year: int, month: int)
    requires year >= 100 && 1 <= month < 12
    ensures NavigateTarget(MonthKey(YearMonth(year, month - 1)), 1) == MonthKey(YearMonth(year, month))
  {
    assert month / 12 == 0 && month % 12 == month;
    NavigateTo(YearMonth(year, month - 1), 1, YearMonth(year, month));
  }

  lemma BackInYear(year: int, month: int)
    requires year >= 100 && 1 <= month < 12
    ensures NavigateTarget(MonthKey(YearMonth(year, month)), -1) == MonthKey(YearMonth(year, month - 1))
  {
    assert (month - 1) / 12 == 0 && (month - 1) % 12 == month - 1;
    NavigateTo(YearMonth(year, month), -1, YearMonth(year, month - 1));
  }

  /** A key without `-` or with a part that is not a number navigates to "NaN-NaN". */
  lemma UnreadableKey(currentMonth: string, delta: int)
    requires ParseCurrentMonth(currentMonth).None?
    ensures NavigateTarget(currentMonth, delta) == "NaN-NaN"
  {
  }

  /** The day buttons of a key this selector writes are those of its month. */
  lemma TotalDaysOfKey(d: YearMonth)
    requires ValidMonth(d) && d.year >= 100
    ensures TotalDays(ParseCurrentMonth(MonthKey(d))) == DaysInMonth(d.year, d.monthIndex)
  {
    ParseMonthKey(d);
  }

  /** The key of February 2024 is "2024-02". */
  lemma February2024Key()
    ensures MonthKey(YearMonth(2024, 1)) == "2024-02"
  {
    assert NatToString(2) == "2";
    assert NatToString(20) == "20";
    assert NatToString(202) == "202";
    assert NatToString(2024) == "2024";
    assert PadStart2("2") == "02";
  }
}
