# Expense tracker core in Dafny

A model of the core of an expense tracker, a Next.js web application:

- **The daily bar chart** (`components/BarChart.tsx`). The user's expense
  records are grouped by UTC calendar day. Each day gets one bar holding the
  day's total, its distinct categories and the date of its first record. The
  bars are ordered by that date. The model also covers the colour band of a
  bar, its `MM/DD` label and the categories line of its tooltip.
- **The model helpers** (`lib/ai.ts`). `generateExpenseInsights` asks the
  language model about a summary of the records. It strips Markdown code
  fences off the reply, parses it as JSON and formats each element as an
  insight. `categorizeExpense` keeps the model's reply only when it is one of
  seven allowed categories. `generateAIAnswer` returns the trimmed reply. Each
  helper has a fixed fallback for every failure.
- **The server actions**:
  - `addExpenseRecord` checks the form and normalises the entered
    `YYYY-MM-DD` date to noon UTC before storing it.
  - `getUserRecord` returns the user's total and the count of their
    positive records.
  - `getAIInsights` and `generateInsightAnswer` query the user's records of
    the last thirty days (newest first, at most fifty) and hand them to the
    model helpers.
  - `suggestCategory` refuses a description shorter than two UTF-16 code
    units after trimming, and otherwise asks the categoriser.
  - `deleteRecord` removes one of the user's records.

Supporting modules model the JavaScript built-ins the core relies on:

- `Text`: `trim`, `padStart`, `String(n)`, `parseInt` and `split`.
- `Calendar`: the proleptic Gregorian calendar, `Date.UTC`, the `getUTC*`
  accessors and `toISOString`.
- `Collections`: `filter`, `reduce`, `map`, `includes`-based deduplication
  and the stable `sort`.

Representation choices:

- Amounts are integers (cents). In the bar colours, $50, $100 and $200
  become 5000, 10000 and 20000.
- Instants are integer milliseconds since the epoch.
- NaN, `null`, `undefined` and a thrown exception all become `None`.
- A string is a sequence of Unicode characters. JavaScript's `length`
  counts UTF-16 code units, so a character outside the Basic Multilingual
  Plane counts twice; `Text.Utf16Length` gives that count.
- The outside world becomes parameters:
  - the signed-in user is an `Option<string>`;
  - the store is a value that is `None` when reading it fails, and a flag
    says whether a write or delete reaches it;
  - the current time is an integer, and the clock readings taken while a
    batch of insights is formatted are a function from the element's index
    to an integer, one reading per element;
  - the language model is a function from prompt data to an optional reply;
  - `JSON.parse` is a function from text to an optional JSON value.
- Chart aggregation and record deletion keep the source's imperative form:
  - `BarChart.AggregateByDate` is a method with the source's `forEach` loop.
    It is proved equal to a specification function whose properties are
    proved as lemmas.
  - `DeleteRecord.RecordTable` is a class whose `rows` field the delete
    updates in place.

## Model

| member | source | states |
|---|---|---|
| Text.Utf16Length | app/actions/suggestCategory.ts:9 | JavaScript's `length` counts each character once, or twice outside the Basic Multilingual Plane, so it equals the number of characters exactly when no character lies outside that plane |
| Text.Utf16LengthAppend | app/actions/suggestCategory.ts:9 | the code-unit length of a concatenation is the sum of the parts' lengths |
| Text.Trim | lib/ai.ts:91 | `trim` leaves a result that neither starts nor ends with whitespace and is no longer than its input |
| Text.TrimMiddle | lib/ai.ts:91 | what `trim` keeps is a contiguous slice of the input with only whitespace on either side of it |
| Text.TrimAroundSpaces | lib/ai.ts:91 | whitespace around an unpadded text is exactly what `trim` removes |
| Text.TrimIdempotent | lib/ai.ts:152 | trimming twice is trimming once |
| Text.TrimStart | lib/ai.ts:94 | the leading-whitespace strip (`^\s*`) drops exactly a whitespace prefix |
| Text.TrimEnd | lib/ai.ts:95 | the trailing-whitespace strip (`\s*$`) drops exactly a whitespace suffix |
| Text.PadStart | components/BarChart.tsx:51-52 | `padStart` gives the input preceded by fill, with length the larger of the width and the input's length |
| Text.NatToString | components/BarChart.tsx:51-52 | `String(n)` of a natural number is a non-empty digit string without superfluous leading zeros |
| Text.IntToString | components/BarChart.tsx:50-53 | `String(n)` of an integer is non-empty and, for non-negative integers, all digits |
| Text.DigitPrefix | app/actions/addExpenseRecord.ts:45 | the digit run `parseInt` reads is the longest prefix of valid digits |
| Text.ParseInt | app/actions/addExpenseRecord.ts:45 | `parseInt` of empty or all-whitespace text is NaN |
| Text.ParseIntOfDigits | app/actions/addExpenseRecord.ts:45 | a plain run of decimal digits is read as its decimal value |
| Text.ParseIntOfIntToString | app/actions/addExpenseRecord.ts:45 | round trip: `parseInt(String(n)) == n` for every integer |
| Text.IntToStringInjective | components/BarChart.tsx:53 | different integers print differently |
| Text.NatToStringOfCanonical | components/BarChart.tsx:51-52 | printing the value of a digit string without a superfluous leading zero gives that string back |
| Text.PadStartOfDigits | components/BarChart.tsx:51-52 | padding `String(value)` back to the width of the digits it was read from restores them, leading zeros included |
| Text.Split | app/actions/addExpenseRecord.ts:43 | `split` yields at least one piece, and no piece contains the separator |
| Text.Join | components/BarChart.tsx:153 | `join` with a separator; no contract of its own: SplitJoin states that splitting a join of separator-free parts gives the parts back, and CategoriesText uses it for the tooltip list |
| Text.SplitJoin | components/BarChart.tsx:110 | splitting a join on a separator absent from every part gives the parts back |
| Calendar.DaysFromCivil | app/actions/addExpenseRecord.ts:44-46 | the day number of a date since 1970-01-01; no contract of its own: CivilRoundTrip and DaysRoundTrip make it the inverse of CivilFromDays, DaysFromCivilBounds bounds it and MonthLength relates consecutive months |
| Calendar.YearOfEra | app/actions/addExpenseRecord.ts:44-46 | a day of a 400-year era splits into a year of the era and a day inside that year |
| Calendar.LeapPeriodic | app/actions/addExpenseRecord.ts:44-46 | leap years repeat every 400 years |
| Calendar.CivilOfEraParts | components/BarChart.tsx:50-52 | the date rebuilt from era, year of era and day of year is a valid calendar date |
| Calendar.CivilFromDays | components/BarChart.tsx:50-52 | the calendar date of every day number is valid |
| Calendar.CivilRoundTrip | app/actions/addExpenseRecord.ts:44-47 | every valid date is recovered from its day number |
| Calendar.DaysRoundTrip | components/BarChart.tsx:48-52 | every day number is the day number of the date computed for it |
| Calendar.DaysFromCivilBounds | app/actions/addExpenseRecord.ts:44-47 | day numbers of years 0 to 9999 lie far inside the range of time values |
| Calendar.UtcDate | components/BarChart.tsx:48-52 | `getUTCFullYear/Month/Date` give the valid date whose day contains the instant, also before 1970 |
| Calendar.TimeWithinDay | app/actions/addExpenseRecord.ts:47 | the time of day lies between 0 and one day |
| Calendar.TimeClip | app/actions/addExpenseRecord.ts:44-46 | time values beyond ±8.64e15 ms become NaN and others are kept |
| Calendar.MakeDay | app/actions/addExpenseRecord.ts:45 | ECMAScript MakeDay for any month index and day; no contract of its own: MakeDayOfMonth, MakeDayPastMonthEnd and MakeDayBounds state its roll-over and bounds, and SameDayNumber states that `Date.UTC` depends on the date only through it |
| Calendar.DateUtc | app/actions/addExpenseRecord.ts:45 | `Date.UTC` with any NaN argument is NaN |
| Calendar.DateUtcOfValidDate | app/actions/addExpenseRecord.ts:45 | `Date.UTC` of a valid date outside the two-digit years is the start of that day plus the time of day |
| Calendar.NoonUtc | app/actions/addExpenseRecord.ts:45 | `Date.UTC(y, m - 1, d, 12, 0, 0)` is noon UTC of the date, for years 100 to 9999 |
| Calendar.DateUtcTwoDigitYear | app/actions/addExpenseRecord.ts:45 | `Date.UTC` reads years 0 to 99 as 1900 to 1999 |
| Calendar.NextMonthStart | app/actions/addExpenseRecord.ts:45 | the first day of the following month is a valid date |
| Calendar.MonthLength | app/actions/addExpenseRecord.ts:45 | a month's first day number plus its length is the first day number of the next month, across years and eras |
| Calendar.MakeDayOfMonth | app/actions/addExpenseRecord.ts:45 | for months 1 to 12, `MakeDay` counts the days from the first of the month |
| Calendar.MakeDayPastMonthEnd | app/actions/addExpenseRecord.ts:45 | `MakeDay` of a day `k` past the month's end is `MakeDay` of day `k` of the next month |
| Calendar.DayPastMonthEnd | app/actions/addExpenseRecord.ts:45 | `Date.UTC(y, m - 1, DaysInMonth(y, m) + k)` equals `Date.UTC` of day `k` of the next month |
| Calendar.SameDayNumber | app/actions/addExpenseRecord.ts:45 | `Date.UTC` depends on year, month index and day only through their day number |
| Calendar.MonthIndexPastDecember | app/actions/addExpenseRecord.ts:45 | month index `i + 12` of year `y` is month index `i` of year `y + 1` |
| Calendar.MakeDayBounds | app/actions/addExpenseRecord.ts:45 | year, month index and day up to 100000 in magnitude give a day number within ±5e7 |
| Calendar.NoonInRange | app/actions/addExpenseRecord.ts:44-46 | noon `Date.UTC` of any such year, month index and day is a valid time value, real date or not |
| Calendar.RolledOver | app/actions/addExpenseRecord.ts:45 | the date a day up to 28 days past its month's end rolls over to is valid and in the same or the next year |
| Calendar.MakeDayRolledOver | app/actions/addExpenseRecord.ts:45 | a day past its month's end has the same day number as the date it rolls over to |
| Calendar.NoonPastMonthEnd | app/actions/addExpenseRecord.ts:45 | noon `Date.UTC` of such a day is noon of the date it rolls over to |
| Calendar.JanuaryAfter | app/actions/addExpenseRecord.ts:45 | day `d` of month 13 stands for the valid date January `d` of the next year |
| Calendar.NoonPastDecember | app/actions/addExpenseRecord.ts:45 | noon `Date.UTC` of a day of month 13 is noon of that day of the next January |
| Calendar.IsoDay | app/actions/addExpenseRecord.ts:47 | the `YYYY-MM-DD` part of `toISOString`; no contract of its own: IsoDayOfParts and IsoOfNoon state what it prints |
| Calendar.IsoTime | app/actions/addExpenseRecord.ts:47 | the `THH:mm:ss.sssZ` part of `toISOString`; no contract of its own: IsoTimeNoon states that noon prints as `T12:00:00.000Z` |
| Calendar.IsoYear | app/actions/addExpenseRecord.ts:47 | `toISOString` writes years 0 to 9999 as four zero-padded digits |
| Calendar.ToIsoString | app/actions/addExpenseRecord.ts:47 | `toISOString` succeeds exactly for time values in range, and throws otherwise |
| Calendar.IsoTimeNoon | app/actions/addExpenseRecord.ts:45-47 | noon prints as `T12:00:00.000Z` |
| Calendar.UtcDateAtNoon | app/actions/addExpenseRecord.ts:45-47 | noon UTC of a valid date reads back as that date |
| Calendar.IsoOfNoon | app/actions/addExpenseRecord.ts:45-47 | noon UTC of a date in years 0 to 9999 prints as that date followed by `T12:00:00.000Z` |
| Collections.Filter | app/actions/getUserRecord.ts:24-26 | `filter` keeps only elements that satisfy the predicate and never grows |
| Collections.FilterMembers | app/actions/getUserRecord.ts:24-26 | `filter` keeps exactly the elements that satisfy the predicate |
| Collections.FilterAppend | app/actions/getUserRecord.ts:24-26 | filtering a concatenation is concatenating the filtered parts |
| Collections.SumBy | app/actions/getUserRecord.ts:22 | `reduce((sum, x) => sum + w(x), 0)`; no contract of its own: SumAppend makes it additive, and TotalsAdd and AggregateTotal rest on it |
| Collections.MapSeq | lib/ai.ts:41-46 | `map`: one result per element, in order, each the callback applied to that element |
| Collections.SumAppend | app/actions/getUserRecord.ts:22 | the `reduce` sum of a concatenation is the sum of the parts' sums |
| Collections.IndexOf | components/BarChart.tsx:58 | the first occurrence of a present value: it is there and not earlier |
| Collections.Dedup | components/BarChart.tsx:58-60 | pushing a value unless the list `includes` it gives a duplicate-free list of input values |
| Collections.DedupMembers | components/BarChart.tsx:58-60 | deduplication drops no value and adds none |
| Collections.DedupOrder | components/BarChart.tsx:58-60 | deduplication keeps the order of first appearance |
| Collections.InsertBy | components/BarChart.tsx:77-81 | one insertion step adds exactly that element |
| Collections.InsertBySorted | components/BarChart.tsx:77-81 | insertion into a sorted sequence keeps it sorted |
| Collections.SortBy | components/BarChart.tsx:77-81 | `sort` with comparator `key(a) - key(b)` gives an ascending permutation of its input |
| Collections.SortByStable | components/BarChart.tsx:77-81 | the sort is stable: elements with the same key keep their relative order |
| Collections.SortBySum | components/BarChart.tsx:77-81 | sorting does not change a sum over the elements |
| Collections.SortByDistinct | components/BarChart.tsx:77-81 | sorting keeps elements distinct under any projection |
| DateInput.NoonOf | app/actions/addExpenseRecord.ts:43-46 | a date field with fewer than three `-`-separated parts is NaN |
| DateInput.NormaliseDate | app/actions/addExpenseRecord.ts:41-51 | the date is refused exactly when its noon time value is NaN or out of range |
| DateInput.NonNumericDate | app/actions/addExpenseRecord.ts:43-51 | a date whose parts are not numeric is refused as an invalid format |
| DateInput.EnteredParts | app/actions/addExpenseRecord.ts:43 | `Y-M-D` splits back into its three digit strings |
| DateInput.NoonOfParts | app/actions/addExpenseRecord.ts:45 | `Date.UTC` receives the three numbers the parts denote |
| DateInput.NormaliseAtNoon | app/actions/addExpenseRecord.ts:44-47 | a date field read as noon UTC of a date is stored as that day at noon |
| DateInput.IsoYearOfDigits | app/actions/addExpenseRecord.ts:47 | a four-digit year prints back as written |
| DateInput.IsoDayOfParts | app/actions/addExpenseRecord.ts:47 | two-digit month and day print back as written |
| DateInput.NumericDateAccepted | app/actions/addExpenseRecord.ts:41-51 | no calendar check: three numeric parts of magnitude up to 100000 are always accepted, real date or not |
| DateInput.DayPastMonthEndStored | app/actions/addExpenseRecord.ts:41-47 | a day up to 28 days past the end of the entered month is stored as noon of the day it rolls over to in the next month |
| DateInput.MonthThirteenStored | app/actions/addExpenseRecord.ts:41-47 | month 13 is stored as January of the next year |
| DateInput.NoonOfPartsIs | app/actions/addExpenseRecord.ts:43-46 | the noon time value of `Y-M-D` is `Date.UTC` of the three numbers the parts denote |
| DateInput.FebruaryThirtieth | app/actions/addExpenseRecord.ts:41-47 | `2023-02-30` is stored as `2023-03-02T12:00:00.000Z` |
| AddExpenseRecord.AddExpenseRecord | app/actions/addExpenseRecord.ts:18-86 | missing field iff the missing-fields error; a bad date iff the format error; no user iff the user error; the record is added iff every check passes and the store write succeeds, with the parsed amount and the normalised date; any other failure is the generic error |
| AddExpenseRecord.FormCheckedFirst | app/actions/addExpenseRecord.ts:24-51 | the form and date are checked before the user and the store: a bad form gets the same answer whoever sends it |
| AddExpenseRecord.NoonOfValidDate | app/actions/addExpenseRecord.ts:43-46 | a real date from year 100 to 9999 becomes the instant of noon UTC on that day |
| AddExpenseRecord.EnteredDateRoundTrip | app/actions/addExpenseRecord.ts:42-47 | round trip: `YYYY-MM-DD` from 0100-01-01 on is stored as `YYYY-MM-DDT12:00:00.000Z` |
| AddExpenseRecord.TwoDigitYearShift | app/actions/addExpenseRecord.ts:45 | a year written 0000 to 0099 is stored as 1900 to 1999 |
| AddExpenseRecord.EnteredDateKey | app/actions/addExpenseRecord.ts:45-47 | from year 1000 on, the chart's day key of the stored instant is the entered date itself |
| AddExpenseRecord.AddedOnEnteredDay | app/actions/addExpenseRecord.ts:18-79 | a complete form from a signed-in user is added at noon UTC of the entered day and charted under that day |
| BarChart.DayKey | components/BarChart.tsx:50-53 | the `${year}-${month}-${day}` key of a date; no contract of its own: DayKeyFields, DayKeyInjective and KeyOfNoon state that it splits back into the date and names exactly one date |
| BarChart.DateKey | components/BarChart.tsx:48-53 | the key of the UTC day of an instant; no contract of its own: DateKeySameDay states that two instants share a key exactly when they fall on the same UTC day |
| BarChart.KeyOf | components/BarChart.tsx:48-53 | the key of a record's date; no contract of its own: KeyOfRecordListed and AggregateCoversDays state that every record's key gets a bar |
| BarChart.DayKeyFields | components/BarChart.tsx:53 | from year 0 on, splitting a day key at `-` gives back year, month and day |
| BarChart.Pad2Digits | components/BarChart.tsx:51-52 | month and day pad to exactly two digits |
| BarChart.KeyOfNoon | components/BarChart.tsx:48-53 | noon UTC of a valid date has that date's key |
| BarChart.Pad2Value | components/BarChart.tsx:51-52 | padding to two digits keeps the value |
| BarChart.TailInjective | components/BarChart.tsx:51-53 | the `-MM-DD` tail of a key determines month and day |
| BarChart.SameKeySameDate | components/BarChart.tsx:50-53 | equal keys of valid dates mean equal year, month and day |
| BarChart.DayKeyInjective | components/BarChart.tsx:50-53 | two valid dates share a key exactly when they are the same date |
| BarChart.DateKeySameDay | components/BarChart.tsx:48-54 | two instants share a key exactly when they fall on the same UTC day: one bar per day |
| BarChart.Accumulate | components/BarChart.tsx:47-68 | the Map built by the loop is well formed: its keys are distinct and each has an entry |
| BarChart.Entries | components/BarChart.tsx:70-76 | one bucket per Map key, in insertion order, carrying that key's total, categories and first date |
| BarChart.AddToDay | components/BarChart.tsx:54-67 | one turn of the loop performs the specified step on the Map and its key order |
| BarChart.AccumulateDays | components/BarChart.tsx:47-68 | the loop builds exactly the specified Map |
| BarChart.AggregateByDate | components/BarChart.tsx:41-82 | the bars equal the specification; they are sorted by first date, have distinct days and add up to the records' total |
| BarChart.SortedEntries | components/BarChart.tsx:70-81 | sorting the Map's entries gives the specified aggregation |
| BarChart.Step | components/BarChart.tsx:54-67 | one turn of the `forEach` body on the Map; no contract of its own: FirstOfDay, NextOfDay and StepTotal state what it does to a new and an existing key, and AddToDay is the in-place method proved equal to it |
| BarChart.FirstOfDay | components/BarChart.tsx:61-66 | a day's first record opens its bar with its own amount, category and date |
| BarChart.NextOfDay | components/BarChart.tsx:56-60 | a later record adds its amount, adds its category only when new, and keeps the day's first date |
| BarChart.AccumulateMatchesReference | components/BarChart.tsx:47-68 | the Map's keys are the days in order of first appearance, each holding exactly the reference bucket of that day |
| BarChart.EntriesMatchReference | components/BarChart.tsx:70-76 | each entry is the reference bucket of its day, in order of first appearance |
| BarChart.AggregateBuckets | components/BarChart.tsx:41-82 | every bar's amount is its day's sum, its categories are the day's distinct categories in first-appearance order, and its date is the day's first record's date |
| BarChart.AggregateCoversDays | components/BarChart.tsx:41-82 | every record's day has a bar |
| BarChart.KeyOfRecordListed | components/BarChart.tsx:47-68 | every record's day key is a Map key |
| BarChart.BarOfListedKey | components/BarChart.tsx:70-81 | a key among the entries is the date of some bar after the sort |
| BarChart.AggregateKeysDistinct | components/BarChart.tsx:41-82 | no two bars share a day |
| BarChart.DistinctDates | components/BarChart.tsx:70-76 | entries built from distinct keys have distinct dates |
| BarChart.AggregateOrder | components/BarChart.tsx:77-81 | bars ascend by first date, and bars with equal first dates keep their days' order of first appearance |
| BarChart.AccumulateTotal | components/BarChart.tsx:47-68 | the Map's totals add up to the records' amounts |
| BarChart.StepTotal | components/BarChart.tsx:54-67 | one record adds its amount to the sum of the Map's totals |
| BarChart.AggregateTotal | components/BarChart.tsx:41-82 | the bars add up to the records' amounts |
| BarChart.AggregateEmpty | components/BarChart.tsx:41-82 | there are no bars exactly when there are no records |
| BarChart.AmountBand | components/BarChart.tsx:86-106 | each colour band holds exactly its amount range, and a boundary amount falls in the lower band |
| BarChart.AmountBandMonotone | components/BarChart.tsx:86-106 | a larger amount never gets a lower band |
| BarChart.AmountColor | components/BarChart.tsx:86-106 | the background and border colours for the band AmountBand gives, in the dark or the light variant; AmountBand and AmountBandMonotone state the bands |
| BarChart.Label | components/BarChart.tsx:109-112 | the `${month}/${day}` label of a key; no contract of its own: LabelOfDayKey and LabelOfDateKey state that it is the five-character padded `MM/DD` |
| BarChart.LabelOfDayKey | components/BarChart.tsx:109-112 | the label of a date's key is `MM/DD`, five characters |
| BarChart.LabelOfDateKey | components/BarChart.tsx:109-112 | an instant's label is its zero-padded UTC month and day |
| BarChart.CategoriesText | components/BarChart.tsx:151-154 | one category reads `Category: c`; several read `Categories: ` and the comma-joined list |
| BarChart.SingleCategoryTooltip | components/BarChart.tsx:151-154 | a day whose records all share category `c` shows `Category: c` |
| BarChart.MixedCategoryTooltip | components/BarChart.tsx:151-154 | a day with records of two different categories shows the `Categories:` list |
| Ai.Summarise | lib/ai.ts:41-46 | the summary keeps amount, category, description and date of each record, in order |
| Ai.SummaryIgnoresIds | lib/ai.ts:41-46 | records that differ only in their ids have the same summary |
| Ai.UnfencedReply | lib/ai.ts:91-100 | a reply that does not open with a fence is only trimmed |
| Ai.StripFences | lib/ai.ts:91-100 | the trimmed reply with a ```` ```json ```` or plain fence removed; no contract of its own: UnfencedReply, StripFencesUnpadded, JsonFenceRoundTrip and PlainFenceRoundTrip state what it keeps |
| Ai.StripFencesUnpadded | lib/ai.ts:91-100 | whatever the reply, the cleaned text neither starts nor ends with whitespace |
| Ai.JsonFenceRoundTrip | lib/ai.ts:92-95 | a body wrapped in a ```` ```json ```` fence, with any whitespace inside, comes back exactly |
| Ai.PlainFenceRoundTrip | lib/ai.ts:96-99 | a body wrapped in a plain ```` ``` ```` fence, not beginning with `json`, comes back exactly |
| Ai.Enclosed | lib/ai.ts:91-99 | text that opens and closes with a fence is already trimmed |
| Ai.OrElse | lib/ai.ts:107-109 | `x \|\| fallback` keeps a non-empty string and replaces a missing or empty one |
| Ai.ConfidenceOr | lib/ai.ts:111 | a missing or zero confidence becomes 0.8, and any other is kept |
| Ai.FormatInsight | lib/ai.ts:104-112 | one element becomes a complete insight whose id carries its clock reading and index, with each falsy field replaced by its default and the action kept |
| Ai.FormatInsights | lib/ai.ts:104-113 | one insight per element, in order, each complete, with id `ai-<time>-<index>` where the time is the clock reading taken for that element; a non-empty type, title or message and the action are kept, and an absent or empty one becomes `info`, `AI Insight` or `Análisis completo`; a non-zero confidence is kept and an absent or zero one becomes 0.8 |
| Ai.InsightId | lib/ai.ts:106 | the `ai-${Date.now()}-${index}` id; no contract of its own: InsightIdsDistinct and InsightIdSuffix state that it determines both the clock reading and the index |
| Ai.InsightIdsDistinct | lib/ai.ts:106 | two ids are equal exactly when their clock readings and indices are, so no two insights of one batch share an id even when the clock moves during the batch |
| Ai.DashOnlyFirst | lib/ai.ts:106 | the decimal text of a time value holds a `-` at most at its first position |
| Ai.SplitAtDash | lib/ai.ts:106 | `a-x` splits back into `a` and `x` when `a` has no `-` after its first character |
| Ai.InsightIdSuffix | lib/ai.ts:106 | after `ai-`, an id is the clock reading, a `-` and the index |
| Ai.RawInsights | lib/ai.ts:102-113 | an array yields its raw insights exactly when no element is `null` |
| Ai.GenerateExpenseInsights | lib/ai.ts:37-131 | every insight is complete; the result is the fallback or insights numbered from 0, each stamped with its own clock reading |
| Ai.InsightsFallbackCases | lib/ai.ts:86-89 | a missing or empty reply, an unparsable reply or a non-array gives exactly the one fallback insight |
| Ai.RawInsightsOfValues | lib/ai.ts:102-104 | an array of non-null elements yields exactly their raw insights |
| Ai.FormatParsedArray | lib/ai.ts:84-113 | a usable reply that parses to an array of raw insights gives their formatted insights |
| Ai.InsightsFromArray | lib/ai.ts:102-115 | a reply that parses to an array without `null` gives one formatted insight per element |
| Ai.EmptyArrayNoInsights | lib/ai.ts:102-115 | a reply that parses to the empty array gives no insights |
| Ai.GeneratedIdsDistinct | lib/ai.ts:104-113 | no two insights of one result share an id, whatever the clock shows while they are formatted |
| Ai.InsightsIgnoreIds | lib/ai.ts:41-46 | the insights do not depend on the records' ids |
| Ai.CategorizeExpense | lib/ai.ts:133-171 | the category is always allowed: the trimmed reply when it is allowed, otherwise `Other` |
| Ai.CategoryIsReplyIff | lib/ai.ts:152-166 | the category is the trimmed reply exactly when that reply is allowed |
| Ai.PromptLabelsBecomeOther | lib/ai.ts:141-166 | a reply naming one of the labels the prompt offers is filed as `Other` |
| Ai.PromptLabelsNotAllowed | lib/ai.ts:141-162 | no label the prompt offers is in the allow-list |
| Ai.GenerateAIAnswer | lib/ai.ts:174-226 | a missing or empty reply gives the apology; any other reply is returned trimmed |
| Ai.AnswerShape | lib/ai.ts:216-221 | an answer taken from the reply is trimmed; a whitespace-only reply gives the empty answer, not the apology |
| RecordStore.Cutoff | app/actions/getAIInsights.ts:14-15 | thirty days of milliseconds before `now`; no contract of its own: WindowShape and WindowIgnoresUnselected state that no row before it is selected |
| RecordStore.Window | app/actions/getAIInsights.ts:17-28 | the `findMany` query: the user's rows from the cutoff on, newest first, at most fifty; no contract of its own: WindowShape, WindowKeepsNewest and WindowIgnoresUnselected state it |
| RecordStore.Take | app/actions/getAIInsights.ts:27 | `take: n` keeps the first `n` rows, or all of them when there are fewer |
| RecordStore.WindowShape | app/actions/getAIInsights.ts:14-28 | the window holds at most fifty of the user's rows, none older than thirty days, newest first |
| RecordStore.WindowKeepsNewest | app/actions/getAIInsights.ts:17-28 | an eligible row is left out only when the window is full of rows at least as new |
| RecordStore.WindowIgnoresUnselected | app/actions/getAIInsights.ts:18-23 | a row of another user, or one older than the cutoff, does not change the window |
| RecordStore.CategoryOrOther | app/actions/getAIInsights.ts:56 | an empty category becomes `Other`, and any other is kept |
| RecordStore.MapAll | app/actions/getAIInsights.ts:53-59 | a `map` whose callback may throw succeeds exactly when every element does, with one result per element |
| RecordStore.Project | app/actions/getAIInsights.ts:53-59 | `expenses.map(...)` over the window, failing when a `toISOString` throws; no contract of its own: MapAll, ProjectOne and ProjectInRange state when it succeeds and what each record holds |
| RecordStore.ProjectOne | app/actions/getAIInsights.ts:53-59 | a row projects exactly when its creation time has an ISO form, keeping id, amount, text and that ISO creation time |
| RecordStore.ProjectInRange | app/actions/generateInsightAnswer.ts:30-36 | rows with creation times in the range of dates always project, one record each |
| GetUserRecord.GetUserRecord | app/actions/getUserRecord.ts:11-33 | no user id iff the user error; unreadable store iff the database error; otherwise the totals, with at most one day per owned record |
| GetUserRecord.NoUserNoStore | app/actions/getUserRecord.ts:11-15 | without a user id the store is never consulted |
| GetUserRecord.NoRecordsNoTotals | app/actions/getUserRecord.ts:18-28 | a user with no records has a total of 0 and no days with records |
| GetUserRecord.TotalsAdd | app/actions/getUserRecord.ts:22-26 | both totals add up over the concatenation of two stores |
| GetUserRecord.OneMoreRecord | app/actions/getUserRecord.ts:18-26 | another user's row changes nothing; the user's own row adds its amount, and a day exactly when the amount is positive |
| GetUserRecord.DaysCountPositiveRecords | app/actions/getUserRecord.ts:24-26 | the day count equals the number of the user's records exactly when all are positive, and is zero exactly when none is |
| GetAIInsights.GetAIInsights | app/actions/getAIInsights.ts:7-78 | every insight is complete; no user or an unreadable store gives the error insight; an empty window gives the two welcome insights |
| GetAIInsights.WelcomeWithoutModel | app/actions/getAIInsights.ts:30-51 | an empty window gives the two welcome insights (info and tip, confidence 1.0) whatever the model replies |
| GetAIInsights.InsightsOfWindow | app/actions/getAIInsights.ts:53-62 | with records in the window, the model helper's insights about them are returned unchanged |
| GetAIInsights.UnprojectableWindow | app/actions/getAIInsights.ts:53-77 | a window record whose creation time has no ISO form gives the error insight |
| GetAIInsights.ErrorIffFailure | app/actions/getAIInsights.ts:7-78 | the error insight is returned exactly when there is no user, the store is unreadable or the projection fails |
| GetAIInsights.InsightIdsUnique | app/actions/getAIInsights.ts:30-62 | no two insights of one call share an id, whatever the clock shows while they are formatted |
| GetAIInsights.UnselectedRowIgnored | app/actions/getAIInsights.ts:17-28 | a row the query does not select does not change the insights |
| GenerateInsightAnswer.GenerateInsightAnswer | app/actions/generateInsightAnswer.ts:7-44 | no user or an unreadable store gives the apology |
| GenerateInsightAnswer.AnswerTrimmed | app/actions/generateInsightAnswer.ts:38-39 | every answer other than the apology is trimmed |
| GenerateInsightAnswer.EmptyWindowStillAsks | app/actions/generateInsightAnswer.ts:17-39 | an empty window still asks the model, with no records |
| GenerateInsightAnswer.AnswerOfWindow | app/actions/generateInsightAnswer.ts:30-39 | with the window projected, the answer is the model helper's answer about it |
| GenerateInsightAnswer.UnprojectableWindow | app/actions/generateInsightAnswer.ts:30-43 | a failed projection gives the apology whatever the model would reply |
| GenerateInsightAnswer.UnselectedRowIgnored | app/actions/generateInsightAnswer.ts:17-28 | a row the query does not select does not change the answer |
| SuggestCategory.SuggestCategory | app/actions/suggestCategory.ts:5-25 | the category is always allowed; there is an error exactly when the description is missing or shorter than two UTF-16 code units after trimming, and then the result is `Other` with the too-short error; otherwise the result is the categoriser's answer for the trimmed description, with no error |
| SuggestCategory.SuggestTrimmed | app/actions/suggestCategory.ts:9-17 | after trimming, a length of two code units or more gives the categoriser's answer with no error, and a shorter one the too-short suggestion |
| SuggestCategory.OneCharacter | app/actions/suggestCategory.ts:9 | a single non-whitespace character is long enough exactly when it lies outside the Basic Multilingual Plane, as an emoji does |
| SuggestCategory.ShortNeedsNoModel | app/actions/suggestCategory.ts:9-14 | a too-short description is answered without asking the model |
| SuggestCategory.ModelSeesTrimmed | app/actions/suggestCategory.ts:16 | the model is only asked about the trimmed description |
| SuggestCategory.TrimmedAlike | app/actions/suggestCategory.ts:9-16 | a description and its trimmed form get the same suggestion |
| DeleteRecord.Delete | app/actions/deleteRecord.ts:6-31 | exactly one of message and error; no user iff the user error with no change; an unreachable store gives the database error with no change; success iff the store is reached and the id names one of the user's rows, which alone is removed; otherwise the database error with no change |
| DeleteRecord.DeleteKeepsKeyed | app/actions/deleteRecord.ts:17-22 | deleting keeps every row filed under its own id |
| DeleteRecord.OthersRowsKept | app/actions/deleteRecord.ts:17-22 | a row of any other user survives the delete unchanged |
| DeleteRecord.DeleteTwice | app/actions/deleteRecord.ts:17-29 | repeating a successful delete fails with the database error and changes nothing, whether or not the store is reached |
| DeleteRecord.RecordTable.constructor | app/actions/deleteRecord.ts:17-22 | a table starts with its rows keyed by id |
| DeleteRecord.RecordTable.DeleteRecord | app/actions/deleteRecord.ts:6-31 | the rows after the delete and the result are those `Delete` specifies for the given reachability of the store; the keying invariant is kept; an error leaves the rows unchanged |

## Left out

- `parseFloat` and floating point: amounts are integer cents and the parsed
  amount is a parameter of `AddExpenseRecord.AddExpenseRecord`. The tooltip's
  `Total: $x.toFixed(2)` line is not modelled.
- Insight confidences are Dafny reals, not IEEE doubles.
- A NaN amount is not modelled; amounts are always numbers.
- AddExpenseRecord.AddExpenseRecord: the returned date is the normalised date sent to the store. The store's
  echo `createdRecord.date?.toISOString() || date` is taken to give it back
  unchanged, so the echo is not modelled separately.
- The thirty-day cutoff is `now` minus thirty days of 86 400 000 ms.
  `setDate(getDate() - 30)` works in local time, so a daylight-saving change
  inside the window can move it by an hour. Time zones are not modelled.
- The store's order among records with equal `createdAt` is not specified.
  The model takes the stable order of the stored rows.
- The language model, the network, the authentication service and
  `JSON.parse` are parameters. The prompt texts, model names, temperatures
  and token limits are not modelled.
- Logging (`console.error`), `revalidatePath` and `app/actions/getRecords.ts`
  have no effect on the results and are not modelled.
- The `catch` of `suggestCategory` (lines 18-23) cannot be reached:
  `categorizeExpense` absorbs every failure of the model. The model therefore
  has no second error message.
- `getAIInsights` imports `@/lib/checkUset`, a typo for `@/lib/checkUser`;
  the model takes the intended `checkUser`.
- Form values that are files rather than strings are not modelled; a field
  is a present or absent string.
- Ai.FormatInsights: a field of a parsed element that is truthy but not
  of the declared type (`{"type": 1}`, `{"confidence": "0.9"}`,
  `{"action": 5}`) is kept as it is by the source. The model reads such a
  field as absent, so it gets the default (or no action) instead.
- Lone UTF-16 surrogates cannot occur in a Dafny string and are not
  modelled.
- The chart reads each record's `date` string with `new Date(...)`. The model
  takes the record's date as an instant; date-string parsing is not
  modelled.
- Rendering, theme and window-resize handling of the chart are not modelled.
- GenerateInsightAnswer.AnswerTrimmed: states that every answer other than the apology is
  trimmed. The apology text is itself unpadded, but that is not stated.
- Text.ParseInt: reads digits into an unbounded integer, so the loss of
  precision above 2^53 is not modelled.
