/** Reading the date field of the expense form: `split("-")`, `parseInt` of
    each part, `Date.UTC` at noon and `toISOString`. */
module DateInput {
  import opened Wrappers
  import opened Text
  import opened Calendar

  /** `parseInt` of element `i` of the `split("-")` destructuring; a missing
      element is `undefined`, which `parseInt` reads as NaN (`None`). */
  function Part(parts: seq<string>, i: nat): Option<int> {
    if i < |parts| then ParseInt(parts[i]) else None
  }

  /** `parseInt(month) - 1`; NaN stays NaN. */
  function MonthIndex(month: Option<int>): Option<int> {
    if month.None? then None else Some(month.value - 1)
  }

  /** `Date.UTC(parseInt(year), parseInt(month) - 1, parseInt(day), 12, 0, 0)`. */
  function NoonOf(input: string): (t: Option<int>)
    ensures |Split(input, '-')| < 3 ==> t.None?
  {
    var parts := Split(input, '-');
    DateUtc(Part(parts, 0), MonthIndex(Part(parts, 1)), Part(parts, 2), 12, 0, 0)
  }

  /** `new Date(NoonOf(input)).toISOString()`; `None` where it throws, that is
      where the time value is NaN. */
  function NormaliseDate(input: string): (r: Option<string>)
    ensures r.Some? <==> NoonOf(input).Some?
  {
    var t := NoonOf(input);
    if t.None? then None else ToIsoString(t.value)
  }

  /** A date field that does not split into three numeric parts is refused. */
  lemma NonNumericDate(input: string)
    requires var parts := Split(input, '-');
      |parts| < 3 || ParseInt(parts[0]).None? || ParseInt(parts[1]).None? || ParseInt(parts[2]).None?
    ensures NormaliseDate(input) == None
  {
  }

  /** `Y-M-D` splits back into its three digit strings, each read as its value. */
  lemma {:induction false} EnteredParts(y: string, m: string, d: string)
    requires IsRadixDigits(y, 10) && IsRadixDigits(m, 10) && IsRadixDigits(d, 10)
    requires y != [] && m != [] && d != []
    ensures Split(y + "-" + m + "-" + d, '-') == [y, m, d]
    ensures ParseInt(y) == Some(DigitsValue(y, 10))
    ensures ParseInt(m) == Some(DigitsValue(m, 10))
    ensures ParseInt(d) == Some(DigitsValue(d, 10))
  {
    DigitsHaveNoDash(y);
    DigitsHaveNoDash(m);
    DigitsHaveNoDash(d);
    SplitThree(y, m, d);
    DecimalDigits(y);
    DecimalDigits(m);
    DecimalDigits(d);
    ParseIntOfDigits(y);
    ParseIntOfDigits(m);
    ParseIntOfDigits(d);
  }

  lemma {:induction false} SplitThree(y: string, m: string, d: string)
    requires '-' !in y && '-' !in m && '-' !in d
    ensures Split(y + "-" + m + "-" + d, '-') == [y, m, d]
  {
    SplitAtFirst(y, '-', m + "-" + d);
    SplitAtFirst(m, '-', d);
    SplitNoSeparator(d, '-');
    assert y + "-" + m + "-" + d == y + ['-'] + (m + ['-'] + d);
  }

  lemma DigitsHaveNoDash(s: string)
    requires IsRadixDigits(s, 10)
    ensures '-' !in s
  {
  }

  /** The calendar date `Y-M-D` names. */
  function EnteredDate(y: string, m: string, d: string): Date
    requires IsRadixDigits(y, 10) && IsRadixDigits(m, 10) && IsRadixDigits(d, 10)
  {
    Date(DigitsValue(y, 10), DigitsValue(m, 10), DigitsValue(d, 10))
  }

  /** `Date.UTC` receives the three numbers the parts denote. */
  lemma {:induction false} NoonOfParts(y: string, m: string, d: string)
    requires IsRadixDigits(y, 10) && IsRadixDigits(m, 10) && IsRadixDigits(d, 10)
    requires y != [] && m != [] && d != []
    ensures var date := EnteredDate(y, m, d);
      NoonOf(y + "-" + m + "-" + d) == DateUtc(Some(date.year), Some(date.month - 1), Some(date.day), 12, 0, 0)
  {
    var date := EnteredDate(y, m, d);
    var parts := Split(y + "-" + m + "-" + d, '-');
    assert Part(parts, 0) == Some(date.year) && Part(parts, 1) == Some(date.month) && Part(parts, 2) == Some(date.day) by {
      EnteredParts(y, m, d);
    }
    assert NoonOf(y + "-" + m + "-" + d) == DateUtc(Some(date.year), Some(date.month - 1), Some(date.day), 12, 0, 0);
  }

  lemma NoonOfDate(input: string, date: Date)
    requires NoonOf(input) == DateUtc(Some(date.year), Some(date.month - 1), Some(date.day), 12, 0, 0)
    requires ValidDate(date) && 100 <= date.year <= 9999
    ensures NoonOf(input) == Some(DaysFromCivil(date) * MsPerDay + 12 * MsPerHour)
  {
    NoonUtc(date);
  }

  /** A date field read as noon UTC of `date` is stored as that day at noon. */
  lemma NormaliseAtNoon(input: string, date: Date)
    requires ValidDate(date) && 0 <= date.year <= 9999
    requires NoonOf(input) == Some(DaysFromCivil(date) * MsPerDay + 12 * MsPerHour)
    ensures NormaliseDate(input) == Some(IsoDay(date) + "T12:00:00.000Z")
  {
    IsoOfNoon(date);
  }

  /** A year written with four digits prints back as written. */
  lemma IsoYearOfDigits(y: string)
    requires IsRadixDigits(y, 10) && |y| == 4
    ensures IsoYear(DigitsValue(y, 10)) == y
  {
    assert DigitsValue(y, 10) < 10000 by {
      DigitsValueBelow(y);
    }
    PadStartOfDigits(y);
  }

  /** Month and day written with two digits print back as written. */
  lemma {:induction false} IsoDayOfParts(year: int, m: string, d: string)
    requires IsRadixDigits(m, 10) && IsRadixDigits(d, 10) && |m| == 2 && |d| == 2
    requires ValidDate(Date(year, DigitsValue(m, 10), DigitsValue(d, 10)))
    ensures IsoDay(Date(year, DigitsValue(m, 10), DigitsValue(d, 10))) == IsoYear(year) + "-" + m + "-" + d
  {
    PadStartOfDigits(m);
    PadStartOfDigits(d);
  }

  lemma TwoDigitNoon(input: string, year: int, date: Date)
    requires 0 <= year <= 99 && date.year == 1900 + year && ValidDate(date)
    requires NoonOf(input) == DateUtc(Some(year), Some(date.month - 1), Some(date.day), 12, 0, 0)
    ensures NoonOf(input) == Some(DaysFromCivil(date) * MsPerDay + 12 * MsPerHour)
  {
    DateUtcTwoDigitYear(year, Some(date.month - 1), Some(date.day), 12, 0, 0);
    NoonUtc(date);
  }

  /** The date field is not checked against the calendar: every field of
      three numeric parts of magnitude up to 100000 is accepted, whether or
      not it names a real date. */
  lemma NumericDateAccepted(input: string)
    requires var parts := Split(input, '-');
      && |parts| >= 3 && ParseInt(parts[0]).Some? && ParseInt(parts[1]).Some? && ParseInt(parts[2]).Some?
      && -100000 <= ParseInt(parts[0]).value <= 100000
      && -99999 <= ParseInt(parts[1]).value <= 100000
      && -100000 <= ParseInt(parts[2]).value <= 100000
    ensures NormaliseDate(input).Some?
  {
    var parts := Split(input, '-');
    var year, month, day := Part(parts, 0), MonthIndex(Part(parts, 1)), Part(parts, 2);
    assert year.Some? && month.Some? && day.Some?;
    NoonInRange(year.value, month.value, day.value);
  }

  /** A day past the end of the entered month is stored as a day of the next
      month: `2023-02-30` is stored as `2023-03-02T12:00:00.000Z`. */
  lemma {:induction false} DayPastMonthEndStored(y: string, m: string, d: string)
    requires IsRadixDigits(y, 10) && IsRadixDigits(m, 10) && IsRadixDigits(d, 10)
    requires y != [] && m != [] && d != []
    requires 100 <= EnteredDate(y, m, d).year <= 9998 && PastMonthEnd(EnteredDate(y, m, d))
    ensures NormaliseDate(y + "-" + m + "-" + d) == Some(IsoDay(RolledOver(EnteredDate(y, m, d))) + "T12:00:00.000Z")
  {
    var date := EnteredDate(y, m, d);
    var rolled := RolledOver(date);
    NoonPastMonthEnd(date);
    NoonOfPartsIs(y, m, d, Some(DaysFromCivil(rolled) * MsPerDay + 12 * MsPerHour));
    NormaliseAtNoon(y + "-" + m + "-" + d, rolled);
  }

  /** Month 13 is stored as January of the next year. */
  lemma {:induction false} MonthThirteenStored(y: string, m: string, d: string)
    requires IsRadixDigits(y, 10) && IsRadixDigits(m, 10) && IsRadixDigits(d, 10)
    requires y != [] && m != [] && d != []
    requires var date := EnteredDate(y, m, d);
      100 <= date.year <= 9998 && date.month == 13 && 1 <= date.day <= 31
    ensures NormaliseDate(y + "-" + m + "-" + d) == Some(IsoDay(JanuaryAfter(EnteredDate(y, m, d))) + "T12:00:00.000Z")
  {
    var date := EnteredDate(y, m, d);
    var january := JanuaryAfter(date);
    NoonPastDecember(date);
    NoonOfPartsIs(y, m, d, Some(DaysFromCivil(january) * MsPerDay + 12 * MsPerHour));
    NormaliseAtNoon(y + "-" + m + "-" + d, january);
  }

  lemma NoonOfPartsIs(y: string, m: string, d: string, t: Option<int>)
    requires IsRadixDigits(y, 10) && IsRadixDigits(m, 10) && IsRadixDigits(d, 10)
    requires y != [] && m != [] && d != []
    requires var date := EnteredDate(y, m, d);
      DateUtc(Some(date.year), Some(date.month - 1), Some(date.day), 12, 0, 0) == t
    ensures NoonOf(y + "-" + m + "-" + d) == t
  {
    NoonOfParts(y, m, d);
  }

  /** The thirtieth of February 2023 is stored as the second of March. */
  lemma FebruaryThirtieth()
    ensures NormaliseDate("2023-02-30") == Some("2023-03-02T12:00:00.000Z")
  {
    var y, m, d := "2023", "02", "30";
    assert "2023-02-30" == y + "-" + m + "-" + d;
    ExampleDigits();
    DayPastMonthEndStored(y, m, d);
    assert RolledOver(EnteredDate(y, m, d)) == Date(2023, 3, 2);
    IsoYearOfDigits(y);
    IsoDayOfParts(2023, "03", "02");
    ExampleText(y, "03", "02", "T12:00:00.000Z");
  }

  lemma ExampleText(y: string, m: string, d: string, time: string)
    requires y == "2023" && m == "03" && d == "02" && time == "T12:00:00.000Z"
    ensures y + "-" + m + "-" + d + time == "2023-03-02T12:00:00.000Z"
  {
    var text := y + "-" + m + "-" + d + time;
    assert |text| == 24;
    forall i | 0 <= i < 24 ensures text[i] == "2023-03-02T12:00:00.000Z"[i] {
    }
  }

  lemma ExampleDigits()
    ensures IsRadixDigits("2023", 10) && DigitsValue("2023", 10) == 2023
    ensures IsRadixDigits("02", 10) && DigitsValue("02", 10) == 2
    ensures IsRadixDigits("30", 10) && DigitsValue("30", 10) == 30
    ensures IsRadixDigits("03", 10) && DigitsValue("03", 10) == 3
  {
    assert "2023"[..3] == "202" && "202"[..2] == "20" && "20"[..1] == "2" && "2"[..0] == [];
    assert "02"[..1] == "0" && "0"[..0] == [];
    assert "30"[..1] == "3" && "3"[..0] == [];
    assert "03"[..1] == "0";
  }
}
