/** Proleptic Gregorian calendar arithmetic on JavaScript time values (integer
    milliseconds since 1970-01-01T00:00:00Z): the UTC calendar date of an
    instant (what `getUTCFullYear`, `getUTCMonth` and `getUTCDate` read),
    `Date.UTC` with its roll-over of out-of-range months and days, and
    `toISOString`. Day numbers count days since 1970-01-01. */
module Calendar {
  import opened Wrappers
  import opened Text

  /** A calendar date; `month` runs from 1 to 12. */
  datatype Date = Date(year: int, month: int, day: int)

  const MsPerDay: int := 86400000
  const MsPerHour: int := 3600000
  const MsPerMinute: int := 60000
  const MsPerSecond: int := 1000
  /** The largest magnitude of a valid time value (ECMAScript TimeClip). */
  const MaxTimeValue: int := 8640000000000000

  predicate IsLeapYear(y: int) {
    y % 4 == 0 && (y % 100 != 0 || y % 400 == 0)
  }

  function DaysInMonth(y: int, m: int): int
    requires 1 <= m <= 12
  {
    if m == 2 then (if IsLeapYear(y) then 29 else 28)
    else if m == 4 || m == 6 || m == 9 || m == 11 then 30
    else 31
  }

  predicate ValidDate(d: Date) {
    1 <= d.month <= 12 && 1 <= d.day <= DaysInMonth(d.year, d.month)
  }

  // The conversion works with years that start on March 1, so that the leap
  // day is the last day of its year, and with eras of 400 years (146097 days)
  // that start on 0000-03-01, day -719468.

  /** Day of the shifted year on which shifted month `mp` starts (0 = March, 11 = February). */
  function MonthStart(mp: int): int
    requires 0 <= mp < 12
  {
    if mp == 0 then 0 else if mp == 1 then 31 else if mp == 2 then 61
    else if mp == 3 then 92 else if mp == 4 then 122 else if mp == 5 then 153
    else if mp == 6 then 184 else if mp == 7 then 214 else if mp == 8 then 245
    else if mp == 9 then 275 else if mp == 10 then 306 else 337
  }

  function MonthOfDayOfYear(doy: int): (mp: int)
    requires 0 <= doy
    ensures 0 <= mp < 12 && MonthStart(mp) <= doy
    ensures mp < 11 ==> doy < MonthStart(mp + 1)
  {
    if doy < 31 then 0 else if doy < 61 then 1 else if doy < 92 then 2
    else if doy < 122 then 3 else if doy < 153 then 4 else if doy < 184 then 5
    else if doy < 214 then 6 else if doy < 245 then 7 else if doy < 275 then 8
    else if doy < 306 then 9 else if doy < 337 then 10 else 11
  }

  /** Length of shifted year `yoe` of an era: 366 when the February ending it has 29 days. */
  function ShiftedYearLength(yoe: int): int {
    if IsLeapYear(yoe + 1) then 366 else 365
  }

  /** Days of the era before its shifted year `yoe`. */
  function DaysBeforeYearOfEra(yoe: int): int {
    365 * yoe + yoe / 4 - yoe / 100
  }

  /** Splits a day of an era into its shifted year and the day within that year. */
  function YearOfEra(doe: int): (r: (int, int))
    requires 0 <= doe < 146097
    ensures 0 <= r.0 < 400 && 0 <= r.1 < ShiftedYearLength(r.0)
    ensures doe == DaysBeforeYearOfEra(r.0) + r.1
  {
    var c := if doe / 36524 > 3 then 3 else doe / 36524;
    var rem1 := doe - 36524 * c;
    var q := rem1 / 1461;
    var rem2 := rem1 - 1461 * q;
    var r := if rem2 / 365 > 3 then 3 else rem2 / 365;
    var doy := rem2 - 365 * r;
    var yoe := 100 * c + 4 * q + r;
    assert 0 <= q <= 24;
    assert yoe / 4 == 25 * c + q && yoe / 100 == c;
    assert doy == 365 ==> r == 3 && (q < 24 || c == 3);
    (yoe, doy)
  }

  lemma EraSplit(yoe: int, doy: int) returns (c: int, q: int, r: int)
    requires 0 <= yoe < 400 && 0 <= doy < ShiftedYearLength(yoe)
    ensures 0 <= c <= 3 && 0 <= q <= 24 && 0 <= r <= 3 && yoe == 100 * c + 4 * q + r
    ensures DaysBeforeYearOfEra(yoe) + doy == 36524 * c + 1461 * q + 365 * r + doy
    ensures doy == 365 ==> r == 3 && (q < 24 || c == 3)
  {
    c, q, r := yoe / 100, (yoe % 100) / 4, yoe % 4;
    assert yoe / 4 == 25 * c + q && yoe / 100 == c;
  }

  lemma YearOfEraUnique(yoe: int, doy: int)
    requires 0 <= yoe < 400 && 0 <= doy < ShiftedYearLength(yoe)
    ensures YearOfEra(DaysBeforeYearOfEra(yoe) + doy) == (yoe, doy)
  {
    var c, q, r := EraSplit(yoe, doy);
    YearOfEraOfParts(c, q, r, doy);
  }

  /** The day `doy` of year `4 * q + r` of century `c` of an era splits back
      into that year and day. */
  lemma YearOfEraOfParts(c: int, q: int, r: int, doy: int)
    requires 0 <= c <= 3 && 0 <= q <= 24 && 0 <= r <= 3 && 0 <= doy <= 365
    requires doy == 365 ==> r == 3 && (q < 24 || c == 3)
    ensures 0 <= 36524 * c + 1461 * q + 365 * r + doy < 146097
    ensures YearOfEra(36524 * c + 1461 * q + 365 * r + doy) == (100 * c + 4 * q + r, doy)
  {
    var doe := 36524 * c + 1461 * q + 365 * r + doy;
    var rest2 := 365 * r + doy;
    var rest1 := 1461 * q + rest2;
    assert 0 <= rest2 < 1461;
    assert 0 <= rest1 <= 36524;
    assert doe / 36524 == c || (c == 3 && doe / 36524 == 4);
    assert rest1 / 1461 == q;
    assert rest2 / 365 == r || (r == 3 && rest2 / 365 == 4);
  }

  /** Leap years repeat every 400 years. */
  lemma LeapPeriodic(y: int)
    ensures IsLeapYear(y) == IsLeapYear(y % 400)
  {
    var k := y / 400;
    assert y == 400 * k + y % 400;
    assert y % 4 == (y % 400) % 4 by {
      assert y == 4 * (100 * k) + y % 400;
    }
    assert y % 100 == (y % 400) % 100 by {
      assert y == 100 * (4 * k) + y % 400;
    }
  }

  lemma EraOfShiftedYear(y: int)
    ensures IsLeapYear(y + 1) == IsLeapYear(y % 400 + 1)
  {
    LeapPeriodic(y + 1);
    LeapPeriodic(y % 400 + 1);
    SuccessorMod(y);
  }

  lemma SuccessorMod(y: int)
    ensures (y + 1) % 400 == (y % 400 + 1) % 400
  {
    var k, r := y / 400, y % 400;
    assert y == 400 * k + r;
    if r < 399 {
      assert y + 1 == 400 * k + (r + 1);
    } else {
      assert y + 1 == 400 * (k + 1);
    }
  }

  /** The shifted year `yoe` of era `era` has the leap day of its calendar year. */
  lemma ShiftedLeap(era: int, yoe: int)
    requires 0 <= yoe < 400
    ensures IsLeapYear(era * 400 + yoe + 1) == IsLeapYear(yoe + 1)
  {
    var y := era * 400 + yoe;
    assert y % 400 == yoe;
    EraOfShiftedYear(y);
  }

  lemma EraDivMod(a: int, q: int, r: int)
    requires a == q * 146097 + r && 0 <= r < 146097
    ensures a / 146097 == q && a % 146097 == r
  {
  }

  lemma MonthOfDayOfYearUnique(mp: int, doy: int)
    requires 0 <= mp < 12 && MonthStart(mp) <= doy && (mp < 11 ==> doy < MonthStart(mp + 1))
    ensures MonthOfDayOfYear(doy) == mp
  {
  }

  /** Day number of a date; meaningful for valid dates. */
  function DaysFromCivil(d: Date): int
    requires 1 <= d.month <= 12
  {
    var y := if d.month <= 2 then d.year - 1 else d.year;
    var era := y / 400;
    var yoe := y % 400;
    var mp := if d.month > 2 then d.month - 3 else d.month + 9;
    var doy := MonthStart(mp) + d.day - 1;
    era * 146097 + DaysBeforeYearOfEra(yoe) + doy - 719468
  }

  /** The date of the day `doy` of shifted year `yoe` of era `era`. */
  function CivilOfEraParts(era: int, yoe: int, doy: int): (r: Date)
    requires 0 <= yoe < 400 && 0 <= doy < ShiftedYearLength(yoe)
    ensures ValidDate(r)
  {
    var mp := MonthOfDayOfYear(doy);
    var month := if mp < 10 then mp + 3 else mp - 9;
    var y := era * 400 + yoe;
    ShiftedLeap(era, yoe);
    Date(if month <= 2 then y + 1 else y, month, doy - MonthStart(mp) + 1)
  }

  /** The date of a day number; always a valid date. */
  function CivilFromDays(z: int): (r: Date)
    ensures ValidDate(r)
  {
    var era := (z + 719468) / 146097;
    var doe := YearOfEra((z + 719468) % 146097);
    CivilOfEraParts(era, doe.0, doe.1)
  }

  /** The date of a day number given by its era, shifted year and day of that year. */
  lemma CivilFromEraParts(z: int, era: int, yoe: int, doy: int)
    requires 0 <= yoe < 400 && 0 <= doy < ShiftedYearLength(yoe)
    requires z == era * 146097 + DaysBeforeYearOfEra(yoe) + doy - 719468
    ensures CivilFromDays(z) == CivilOfEraParts(era, yoe, doy)
  {
    YearOfEraUnique(yoe, doy);
    EraDivMod(z + 719468, era, DaysBeforeYearOfEra(yoe) + doy);
  }

  /** Every valid date is recovered from its day number. */
  lemma CivilRoundTrip(d: Date)
    requires ValidDate(d)
    ensures CivilFromDays(DaysFromCivil(d)) == d
  {
    var y := if d.month <= 2 then d.year - 1 else d.year;
    var era := y / 400;
    var yoe := y % 400;
    var mp := if d.month > 2 then d.month - 3 else d.month + 9;
    var doy := MonthStart(mp) + d.day - 1;
    assert y == era * 400 + yoe;
    ShiftedDayOfDate(d, y, yoe, mp, doy);
    var z := DaysFromCivil(d);
    assert z == era * 146097 + DaysBeforeYearOfEra(yoe) + doy - 719468;
    CivilFromEraParts(z, era, yoe, doy);
    ShiftedDateOfDay(d, y, era, yoe, mp, doy);
  }

  /** A valid date falls on a day of its shifted year, inside its shifted month. */
  lemma ShiftedDayOfDate(d: Date, y: int, yoe: int, mp: int, doy: int)
    requires ValidDate(d) && y == (if d.month <= 2 then d.year - 1 else d.year) && yoe == y % 400
    requires mp == (if d.month > 2 then d.month - 3 else d.month + 9) && doy == MonthStart(mp) + d.day - 1
    ensures 0 <= doy < ShiftedYearLength(yoe)
    ensures MonthStart(mp) <= doy && (mp < 11 ==> doy < MonthStart(mp + 1))
  {
    EraOfShiftedYear(y);
  }

  /** The date rebuilt from the shifted year and day of a valid date is that date. */
  lemma ShiftedDateOfDay(d: Date, y: int, era: int, yoe: int, mp: int, doy: int)
    requires ValidDate(d) && y == (if d.month <= 2 then d.year - 1 else d.year)
    requires 0 <= yoe < 400 && y == era * 400 + yoe
    requires mp == (if d.month > 2 then d.month - 3 else d.month + 9) && doy == MonthStart(mp) + d.day - 1
    requires 0 <= doy < ShiftedYearLength(yoe)
    requires MonthStart(mp) <= doy && (mp < 11 ==> doy < MonthStart(mp + 1))
    ensures CivilOfEraParts(era, yoe, doy) == d
  {
    MonthOfDayOfYearUnique(mp, doy);
  }

  /** Every day number is the day number of the date computed for it. */
  lemma DaysRoundTrip(z: int)
    ensures DaysFromCivil(CivilFromDays(z)) == z
  {
    var era := (z + 719468) / 146097;
    var doe := (z + 719468) % 146097;
    var (yoe, doy) := YearOfEra(doe);
    var y := era * 400 + yoe;
    assert y / 400 == era && y % 400 == yoe;
    assert CivilFromDays(z) == CivilOfEraParts(era, yoe, doy);
  }

  /** Day numbers of dates in years 0 to 9999 stay far inside the range of time values. */
  lemma DaysFromCivilBounds(d: Date)
    requires ValidDate(d) && 0 <= d.year <= 9999
    ensures -800000 <= DaysFromCivil(d) <= 3000000
  {
  }

  /** The first day of the month after month `m` of year `y`. */
  function NextMonthStart(y: int, m: int): (d: Date)
    requires 1 <= m <= 12
    ensures ValidDate(d) && d.day == 1 && y <= d.year <= y + 1
  {
    if m == 12 then Date(y + 1, 1, 1) else Date(y, m + 1, 1)
  }

  /** A shifted year that is not the last of its era ends where the next one starts. */
  lemma DaysBeforeNextYear(yoe: int)
    requires 0 <= yoe < 399
    ensures DaysBeforeYearOfEra(yoe + 1) == DaysBeforeYearOfEra(yoe) + ShiftedYearLength(yoe)
  {
    assert (yoe + 1) / 4 == yoe / 4 + (if yoe % 4 == 3 then 1 else 0);
    assert (yoe + 1) / 100 == yoe / 100 + (if yoe % 100 == 99 then 1 else 0);
    assert (yoe + 1) % 400 != 0;
  }

  /** Shifted year `s` ends where shifted year `s + 1` starts, across eras too. */
  lemma ShiftedYearsAdjacent(s: int)
    ensures (s + 1) / 400 * 146097 + DaysBeforeYearOfEra((s + 1) % 400)
         == s / 400 * 146097 + DaysBeforeYearOfEra(s % 400) + ShiftedYearLength(s % 400)
  {
    if s % 400 < 399 {
      assert (s + 1) / 400 == s / 400 && (s + 1) % 400 == s % 400 + 1;
      DaysBeforeNextYear(s % 400);
    } else {
      assert (s + 1) / 400 == s / 400 + 1 && (s + 1) % 400 == 0;
      assert IsLeapYear(400);
    }
  }

  /** Consecutive months are consecutive runs of day numbers: a month's first
      day plus its length is the first day of the next month. */
  lemma MonthLength(y: int, m: int)
    requires 1 <= m <= 12
    ensures DaysFromCivil(Date(y, m, 1)) + DaysInMonth(y, m) == DaysFromCivil(NextMonthStart(y, m))
  {
    if m == 2 {
      FebruaryLength(y);
    } else if m == 12 {
      DecemberLength(y);
    } else {
      var mp := if m > 2 then m - 3 else m + 9;
      assert DaysInMonth(y, m) == MonthStart(mp + 1) - MonthStart(mp);
    }
  }

  lemma FebruaryLength(y: int)
    ensures DaysFromCivil(Date(y, 2, 1)) + DaysInMonth(y, 2) == DaysFromCivil(Date(y, 3, 1))
  {
    var s := y - 1;
    EraOfShiftedYear(s);
    ShiftedYearsAdjacent(s);
    assert s + 1 == y;
  }

  lemma DecemberLength(y: int)
    ensures DaysFromCivil(Date(y, 12, 1)) + DaysInMonth(y, 12) == DaysFromCivil(Date(y + 1, 1, 1))
  {
    assert y + 1 - 1 == y;
  }

  // ---------------------------------------------------------------------------
  // Time values
  // ---------------------------------------------------------------------------

  /** The UTC calendar date of time value `t` (floor division, so instants
      before 1970 fall on the right day too). */
  function UtcDate(t: int): (d: Date)
    ensures ValidDate(d)
    ensures DaysFromCivil(d) * MsPerDay <= t < (DaysFromCivil(d) + 1) * MsPerDay
  {
    DaysRoundTrip(t / MsPerDay);
    CivilFromDays(t / MsPerDay)
  }

  /** Milliseconds since midnight UTC. */
  function TimeWithinDay(t: int): (ms: int)
    ensures 0 <= ms < MsPerDay
  {
    t % MsPerDay
  }

  /** ECMAScript TimeClip: out-of-range time values become NaN (`None`). */
  function TimeClip(t: int): (r: Option<int>)
    ensures r.Some? <==> -MaxTimeValue <= t <= MaxTimeValue
    ensures r.Some? ==> r.value == t
  {
    if t < -MaxTimeValue || t > MaxTimeValue then None else Some(t)
  }

  /** ECMAScript MakeDay: a month index outside 0..11 rolls over into the year
      and a day outside the month rolls over into the neighbouring months. */
  function MakeDay(year: int, monthIndex: int, day: int): int
  {
    DaysFromCivil(Date(year + monthIndex / 12, monthIndex % 12 + 1, 1)) + day - 1
  }

  /** `Date.UTC(year, monthIndex, day, hours, minutes, seconds)`, where `None`
      stands for NaN. A year from 0 to 99 means 1900 plus that year. */
  function DateUtc(year: Option<int>, monthIndex: Option<int>, day: Option<int>,
                   hours: int, minutes: int, seconds: int): (r: Option<int>)
    ensures year.None? || monthIndex.None? || day.None? ==> r.None?
  {
    if year.None? || monthIndex.None? || day.None? then None
    else
      var y := if 0 <= year.value <= 99 then 1900 + year.value else year.value;
      var time := hours * MsPerHour + minutes * MsPerMinute + seconds * MsPerSecond;
      TimeClip(MakeDay(y, monthIndex.value, day.value) * MsPerDay + time)
  }

  /** For a valid date outside the two-digit years, `Date.UTC` with a 1-based
      month minus one is the start of that day plus the time of day. */
  lemma DateUtcOfValidDate(d: Date, hours: int, minutes: int, seconds: int)
    requires ValidDate(d) && (d.year < 0 || d.year > 99)
    ensures DateUtc(Some(d.year), Some(d.month - 1), Some(d.day), hours, minutes, seconds)
         == TimeClip(DaysFromCivil(d) * MsPerDay + hours * MsPerHour + minutes * MsPerMinute + seconds * MsPerSecond)
  {
    assert (d.month - 1) / 12 == 0 && (d.month - 1) % 12 == d.month - 1;
    assert MakeDay(d.year, d.month - 1, d.day) == DaysFromCivil(d);
  }

  /** Noon UTC of a date from year 100 to 9999. */
  lemma NoonUtc(d: Date)
    requires ValidDate(d) && 100 <= d.year <= 9999
    ensures DateUtc(Some(d.year), Some(d.month - 1), Some(d.day), 12, 0, 0) == Some(DaysFromCivil(d) * MsPerDay + 12 * MsPerHour)
  {
    DateUtcOfValidDate(d, 12, 0, 0);
    DaysFromCivilBounds(d);
  }

  /** Years 0 to 99 are read as 1900 to 1999. */
  lemma DateUtcTwoDigitYear(year: int, monthIndex: Option<int>, day: Option<int>, hours: int, minutes: int, seconds: int)
    requires 0 <= year <= 99
    ensures DateUtc(Some(year), monthIndex, day, hours, minutes, seconds)
         == DateUtc(Some(1900 + year), monthIndex, day, hours, minutes, seconds)
  {
  }

  /** A day past the end of month `m` rolls over into the next month:
      `Date.UTC(y, m - 1, DaysInMonth(y, m) + k)` is day `k` of the next month. */
  lemma DayPastMonthEnd(y: int, m: int, k: int, hours: int, minutes: int, seconds: int)
    requires 1 <= m <= 12 && (y < -1 || y > 99)
    ensures DateUtc(Some(y), Some(m - 1), Some(DaysInMonth(y, m) + k), hours, minutes, seconds)
         == DateUtc(Some(NextMonthStart(y, m).year), Some(NextMonthStart(y, m).month - 1), Some(k), hours, minutes, seconds)
  {
    var next := NextMonthStart(y, m);
    assert next.year < 0 || next.year > 99;
    MakeDayPastMonthEnd(y, m, k);
    SameDayNumber(y, m - 1, DaysInMonth(y, m) + k, next.year, next.month - 1, k, hours, minutes, seconds);
  }

  /** `date` names a day up to 28 days past the end of its month. */
  predicate PastMonthEnd(date: Date) {
    1 <= date.month <= 12 && DaysInMonth(date.year, date.month) < date.day <= DaysInMonth(date.year, date.month) + 28
  }

  /** The date a day past the end of its month rolls over to. */
  function RolledOver(date: Date): (r: Date)
    requires PastMonthEnd(date)
    ensures ValidDate(r) && date.year <= r.year <= date.year + 1
  {
    var next := NextMonthStart(date.year, date.month);
    Date(next.year, next.month, date.day - DaysInMonth(date.year, date.month))
  }

  /** Noon of a day up to 28 days past the end of its month is noon of the
      day it rolls over to. */
  lemma NoonPastMonthEnd(date: Date)
    requires 100 <= date.year <= 9998 && PastMonthEnd(date)
    ensures DateUtc(Some(date.year), Some(date.month - 1), Some(date.day), 12, 0, 0)
         == Some(DaysFromCivil(RolledOver(date)) * MsPerDay + 12 * MsPerHour)
  {
    var r := RolledOver(date);
    MakeDayRolledOver(date);
    SameDayNumber(date.year, date.month - 1, date.day, r.year, r.month - 1, r.day, 12, 0, 0);
    NoonUtc(r);
  }

  lemma MakeDayRolledOver(date: Date)
    requires PastMonthEnd(date)
    ensures MakeDay(date.year, date.month - 1, date.day)
         == MakeDay(RolledOver(date).year, RolledOver(date).month - 1, RolledOver(date).day)
  {
    var r := RolledOver(date);
    assert Date(r.year, r.month, 1) == NextMonthStart(date.year, date.month);
    MakeDayOfMonth(date.year, date.month, date.day);
    MakeDayOfMonth(r.year, r.month, r.day);
    MonthLength(date.year, date.month);
  }

  /** The date that day `date.day` of month 13 stands for: that day of
      January of the next year. */
  function JanuaryAfter(date: Date): (r: Date)
    requires date.month == 13 && 1 <= date.day <= 31
    ensures ValidDate(r) && r.year == date.year + 1 && r.month == 1 && r.day == date.day
  {
    Date(date.year + 1, 1, date.day)
  }

  /** Noon of a day of month 13 is noon of that day of January of the next year. */
  lemma NoonPastDecember(date: Date)
    requires 100 <= date.year <= 9998 && date.month == 13 && 1 <= date.day <= 31
    ensures DateUtc(Some(date.year), Some(date.month - 1), Some(date.day), 12, 0, 0)
         == Some(DaysFromCivil(JanuaryAfter(date)) * MsPerDay + 12 * MsPerHour)
  {
    var j := JanuaryAfter(date);
    assert MakeDay(date.year, date.month - 1, date.day) == MakeDay(j.year, j.month - 1, j.day) by {
      assert (date.month - 1) / 12 == 1 && (date.month - 1) % 12 == 0;
      assert (j.month - 1) / 12 == 0 && (j.month - 1) % 12 == 0;
    }
    SameDayNumber(date.year, date.month - 1, date.day, j.year, j.month - 1, j.day, 12, 0, 0);
    NoonUtc(j);
  }

  /** `Date.UTC` depends on year, month index and day only through `MakeDay`. */
  lemma SameDayNumber(y1: int, monthIndex1: int, day1: int, y2: int, monthIndex2: int, day2: int,
                      hours: int, minutes: int, seconds: int)
    requires (y1 < 0 || y1 > 99) && (y2 < 0 || y2 > 99)
    requires MakeDay(y1, monthIndex1, day1) == MakeDay(y2, monthIndex2, day2)
    ensures DateUtc(Some(y1), Some(monthIndex1), Some(day1), hours, minutes, seconds)
         == DateUtc(Some(y2), Some(monthIndex2), Some(day2), hours, minutes, seconds)
  {
  }

  lemma MakeDayPastMonthEnd(y: int, m: int, k: int)
    requires 1 <= m <= 12
    ensures MakeDay(y, m - 1, DaysInMonth(y, m) + k)
         == MakeDay(NextMonthStart(y, m).year, NextMonthStart(y, m).month - 1, k)
  {
    var next := NextMonthStart(y, m);
    MakeDayOfMonth(y, m, DaysInMonth(y, m) + k);
    MakeDayOfMonth(next.year, next.month, k);
    MonthLength(y, m);
  }

  /** Within months 1 to 12, `MakeDay` counts days from the first of the month. */
  lemma MakeDayOfMonth(y: int, m: int, day: int)
    requires 1 <= m <= 12
    ensures MakeDay(y, m - 1, day) == DaysFromCivil(Date(y, m, 1)) + day - 1
  {
    assert (m - 1) / 12 == 0 && (m - 1) % 12 == m - 1;
  }

  /** A month index past December rolls over into the next year:
      `Date.UTC(y, monthIndex + 12, day)` is `Date.UTC(y + 1, monthIndex, day)`. */
  lemma MonthIndexPastDecember(y: int, monthIndex: int, day: int, hours: int, minutes: int, seconds: int)
    requires y < -1 || y > 99
    ensures DateUtc(Some(y), Some(monthIndex + 12), Some(day), hours, minutes, seconds)
         == DateUtc(Some(y + 1), Some(monthIndex), Some(day), hours, minutes, seconds)
  {
    assert (monthIndex + 12) / 12 == monthIndex / 12 + 1 && (monthIndex + 12) % 12 == monthIndex % 12;
  }

  /** `Date.UTC` at noon gives a valid time value for every year, month index
      and day of magnitude up to 100000, whether or not they name a real date. */
  lemma NoonInRange(year: int, monthIndex: int, day: int)
    requires -100000 <= year <= 100000 && -100000 <= monthIndex <= 100000 && -100000 <= day <= 100000
    ensures DateUtc(Some(year), Some(monthIndex), Some(day), 12, 0, 0).Some?
  {
    var y := if 0 <= year <= 99 then 1900 + year else year;
    var md := MakeDay(y, monthIndex, day);
    assert -50000000 <= md <= 50000000 by {
      MakeDayBounds(y, monthIndex, day);
    }
    assert -MaxTimeValue <= md * MsPerDay + 12 * MsPerHour <= MaxTimeValue;
  }

  lemma MakeDayBounds(y: int, monthIndex: int, day: int)
    requires -100000 <= y <= 100000 && -100000 <= monthIndex <= 100000 && -100000 <= day <= 100000
    ensures -50000000 <= MakeDay(y, monthIndex, day) <= 50000000
  {
    var year := y + monthIndex / 12;
    assert -108334 <= year <= 108334;
    var s := if monthIndex % 12 + 1 <= 2 then year - 1 else year;
    assert -272 <= s / 400 <= 271;
    assert 0 <= DaysBeforeYearOfEra(s % 400) <= 146097;
  }

  // ---------------------------------------------------------------------------
  // toISOString
  // ---------------------------------------------------------------------------

  function Pad2(n: nat): string {
    PadStart(NatToString(n), 2, '0')
  }

  /** The year field of `toISOString`: four digits for years 0 to 9999,
      otherwise a sign and six digits. */
  function IsoYear(y: int): (s: string)
    ensures 0 <= y <= 9999 ==> s == PadStart(NatToString(y), 4, '0')
  {
    if 0 <= y <= 9999 then PadStart(NatToString(y), 4, '0')
    else if y < 0 then "-" + PadStart(NatToString(-y), 6, '0')
    else "+" + PadStart(NatToString(y), 6, '0')
  }

  /** `new Date(t).toISOString()`: `YYYY-MM-DDTHH:mm:ss.sssZ` in UTC;
      `None` where JavaScript throws a RangeError (an invalid time value). */
  function ToIsoString(t: int): (r: Option<string>)
    ensures r.Some? <==> -MaxTimeValue <= t <= MaxTimeValue
  {
    if t < -MaxTimeValue || t > MaxTimeValue then None
    else Some(IsoDay(UtcDate(t)) + IsoTime(TimeWithinDay(t)))
  }

  /** The date part, `YYYY-MM-DD`. */
  function IsoDay(d: Date): string
    requires ValidDate(d)
  {
    IsoYear(d.year) + "-" + Pad2(d.month) + "-" + Pad2(d.day)
  }

  /** The time part, `THH:mm:ss.sssZ`, of the `ms`-th millisecond of a day. */
  function IsoTime(ms: int): string
    requires 0 <= ms < MsPerDay
  {
    "T" + Pad2(ms / MsPerHour) + ":" + Pad2(ms / MsPerMinute % 60) + ":" + Pad2(ms / MsPerSecond % 60)
    + "." + PadStart(NatToString(ms % 1000), 3, '0') + "Z"
  }

  /** Noon reads `T12:00:00.000Z`. */
  lemma IsoTimeNoon()
    ensures IsoTime(12 * MsPerHour) == "T12:00:00.000Z"
  {
    var ms := 12 * MsPerHour;
    assert ms / MsPerHour == 12 && ms / MsPerMinute % 60 == 0 && ms / MsPerSecond % 60 == 0 && ms % 1000 == 0;
    NoonFields();
    NoonText(Pad2(12), Pad2(0), PadStart(NatToString(0), 3, '0'));
  }

  lemma NoonFields()
    ensures Pad2(12) == "12" && Pad2(0) == "00" && PadStart(NatToString(0), 3, '0') == "000"
  {
    assert NatToString(12) == NatToString(1) + [DigitChar(2)];
  }

  lemma NoonText(hh: string, zz: string, sss: string)
    requires hh == "12" && zz == "00" && sss == "000"
    ensures "T" + hh + ":" + zz + ":" + zz + "." + sss + "Z" == "T12:00:00.000Z"
  {
    var text := "T" + hh + ":" + zz + ":" + zz + "." + sss + "Z";
    assert |text| == 14;
    forall i | 0 <= i < 14 ensures text[i] == "T12:00:00.000Z"[i] {
    }
  }


  /** At noon UTC of a valid date, the UTC date read back is that date. */
  lemma UtcDateAtNoon(d: Date)
    requires ValidDate(d)
    ensures UtcDate(DaysFromCivil(d) * MsPerDay + 12 * MsPerHour) == d
    ensures TimeWithinDay(DaysFromCivil(d) * MsPerDay + 12 * MsPerHour) == 12 * MsPerHour
  {
    var t := DaysFromCivil(d) * MsPerDay + 12 * MsPerHour;
    assert t / MsPerDay == DaysFromCivil(d);
    CivilRoundTrip(d);
  }

  /** Noon UTC on a date from year 0 to 9999 prints as that date followed by
      `T12:00:00.000Z`. */
  lemma {:induction false} IsoOfNoon(d: Date)
    requires ValidDate(d) && 0 <= d.year <= 9999
    ensures ToIsoString(DaysFromCivil(d) * MsPerDay + 12 * MsPerHour) == Some(IsoDay(d) + "T12:00:00.000Z")
  {
    DaysFromCivilBounds(d);
    UtcDateAtNoon(d);
    IsoTimeNoon();
  }
}
