/** The per-day aggregation behind the expense bar chart and the pure helpers
    that read its output: bar colour bands, `MM/DD` axis labels and the
    tooltip's category line. Amounts are integer cents. */
module BarChart {
  import opened Wrappers
  import opened Text
  import opened Calendar
  import opened Collections

  /** A record as the chart receives it. `date` is the time value that
      `new Date(record.date)` yields for the stored date string. */
  datatype ChartRecord = ChartRecord(date: int, amount: int, category: string)

  /** What the chart's Map holds for one day. */
  datatype DayTotal = DayTotal(total: int, categories: seq<string>, originalDate: int)

  /** One bar of the chart. */
  datatype DayBucket = DayBucket(date: string, amount: int, categories: seq<string>, originalDate: int)

  /** A JavaScript Map from day key to running total: its entries, and its keys
      in insertion order (the order `Map.prototype.entries` yields them in). */
  datatype DateMap = DateMap(totals: map<string, DayTotal>, keys: seq<string>)

  ghost predicate WellFormed(m: DateMap) {
    NoDuplicates(m.keys) && forall k :: k in m.totals <==> k in m.keys
  }

  function Amount(r: ChartRecord): int { r.amount }
  function Category(r: ChartRecord): string { r.category }
  function BucketAmount(b: DayBucket): int { b.amount }
  function BucketDate(b: DayBucket): string { b.date }
  function OriginalDate(b: DayBucket): int { b.originalDate }

  // ---------------------------------------------------------------------------
  // Day keys
  // ---------------------------------------------------------------------------

  /** The day key of a calendar date: its year as `String` writes it, then
      month and day padded to two digits, joined by `-`. */
  function DayKey(d: Date): string
    requires ValidDate(d)
  {
    IntToString(d.year) + "-" + Pad2(d.month) + "-" + Pad2(d.day)
  }

  /** From year 0 on, splitting a day key at `-` gives back year, month and day. */
  lemma {:induction false} DayKeyFields(d: Date)
    requires ValidDate(d) && d.year >= 0
    ensures Split(DayKey(d), '-') == [NatToString(d.year), Pad2(d.month), Pad2(d.day)]
  {
    var parts := [NatToString(d.year), Pad2(d.month), Pad2(d.day)];
    Pad2Digits(d.month);
    Pad2Digits(d.day);
    NoDash(parts[0]);
    NoDash(parts[1]);
    NoDash(parts[2]);
    assert Join(parts[2..], "-") == parts[2];
    assert Join(parts[1..], "-") == parts[1] + "-" + parts[2];
    assert Join(parts, "-") == DayKey(d);
    SplitJoin(parts, '-');
  }

  lemma {:induction false} NoDash(s: string)
    requires IsDigits(s)
    ensures '-' !in s
  {
  }

  /** A month or day number pads to exactly two digits. */
  lemma {:induction false} Pad2Digits(n: nat)
    requires n < 100
    ensures |Pad2(n)| == 2 && IsDigits(Pad2(n))
  {
    NatToStringShort(n);
  }

  /** The day key of an instant: that of its UTC calendar date. */
  function DateKey(t: int): string {
    DayKey(UtcDate(t))
  }

  function KeyOf(r: ChartRecord): string { DateKey(r.date) }

  /** Noon UTC of a valid date has that date's key. */
  lemma KeyOfNoon(d: Date)
    requires ValidDate(d)
    ensures DateKey(DaysFromCivil(d) * MsPerDay + 12 * MsPerHour) == DayKey(d)
  {
    UtcDateAtNoon(d);
  }

  lemma {:induction false} NatToStringShort(n: nat)
    requires n < 100
    ensures |NatToString(n)| <= 2
  {
  }

  /** Zero padding does not change the value of a digit string. */
  lemma {:induction false} PaddedValue(s: string, k: nat)
    requires IsRadixDigits(s, 10)
    ensures IsRadixDigits(Repeat('0', k) + s, 10)
    ensures DigitsValue(Repeat('0', k) + s, 10) == DigitsValue(s, 10)
  {
    if k > 0 {
      PaddedValue(s, k - 1);
      var t := Repeat('0', k) + s;
      assert t[0] == '0';
      assert t[1..] == Repeat('0', k - 1) + s;
      LeadingZero(t);
    } else {
      assert Repeat('0', k) + s == s;
    }
  }

  /** Padding to width two keeps the value of the digits. */
  lemma {:induction false} Pad2Value(n: nat)
    ensures IsRadixDigits(Pad2(n), 10) && DigitsValue(Pad2(n), 10) == n
  {
    var sn := NatToString(n);
    var k := if |sn| >= 2 then 0 else 2 - |sn|;
    assert Pad2(n) == Repeat('0', k) + sn;
    PaddedValue(sn, k);
  }

  lemma {:induction false} Pad2Injective(a: nat, b: nat)
    requires Pad2(a) == Pad2(b)
    ensures a == b
  {
    Pad2Value(a);
    Pad2Value(b);
  }

  lemma {:induction false} AppendCancel(x: string, t1: string, y: string, t2: string)
    requires x + t1 == y + t2 && |t1| == |t2|
    ensures x == y && t1 == t2
  {
    assert x == (x + t1)[..|x|];
    assert t1 == (x + t1)[|x|..];
  }

  function Tail(m: nat, d: nat): string {
    "-" + Pad2(m) + "-" + Pad2(d)
  }

  /** The `-MM-DD` tail of a day key determines month and day. */
  lemma {:induction false} TailInjective(m1: nat, d1: nat, m2: nat, d2: nat)
    requires m1 < 100 && d1 < 100 && m2 < 100 && d2 < 100
    requires Tail(m1, d1) == Tail(m2, d2)
    ensures m1 == m2 && d1 == d2
  {
    Pad2Digits(m1);
    Pad2Digits(d1);
    Pad2Digits(m2);
    Pad2Digits(d2);
    TailFields(Pad2(m1), Pad2(d1), Pad2(m2), Pad2(d2));
    Pad2Injective(m1, m2);
    Pad2Injective(d1, d2);
  }

  /** Two `-XX-YY` texts with two-character fields agree field by field. */
  lemma TailFields(a: string, b: string, c: string, e: string)
    requires |a| == 2 && |b| == 2 && |c| == 2 && |e| == 2
    requires "-" + a + "-" + b == "-" + c + "-" + e
    ensures a == c && b == e
  {
    var t, u := "-" + a + "-" + b, "-" + c + "-" + e;
    assert t[1..3] == a && u[1..3] == c;
    assert t[4..] == b && u[4..] == e;
  }

  lemma {:induction false} DayKeyParts(d: Date)
    requires ValidDate(d)
    ensures DayKey(d) == IntToString(d.year) + Tail(d.month, d.day)
    ensures |Tail(d.month, d.day)| == 6
  {
    Pad2Digits(d.month);
    Pad2Digits(d.day);
    Regroup(IntToString(d.year), Pad2(d.month), Pad2(d.day));
  }

  lemma Regroup(y: string, p: string, q: string)
    ensures y + "-" + p + "-" + q == y + ("-" + p + "-" + q)
    ensures |"-" + p + "-" + q| == |p| + |q| + 2
  {
  }

  lemma {:induction false} SameKeySameDate(d1: Date, d2: Date)
    requires ValidDate(d1) && ValidDate(d2)
    requires DayKey(d1) == DayKey(d2)
    ensures d1.year == d2.year && d1.month == d2.month && d1.day == d2.day
  {
    SameKeyParts(d1, d2);
    IntToStringInjective(d1.year, d2.year);
    DateFieldsSmall(d1);
    DateFieldsSmall(d2);
    TailInjective(d1.month, d1.day, d2.month, d2.day);
  }

  lemma {:induction false} SameKeyParts(d1: Date, d2: Date)
    requires ValidDate(d1) && ValidDate(d2)
    requires DayKey(d1) == DayKey(d2)
    ensures IntToString(d1.year) == IntToString(d2.year)
    ensures Tail(d1.month, d1.day) == Tail(d2.month, d2.day)
  {
    DayKeyParts(d1);
    DayKeyParts(d2);
    AppendCancel(IntToString(d1.year), Tail(d1.month, d1.day), IntToString(d2.year), Tail(d2.month, d2.day));
  }

  lemma DateFieldsSmall(d: Date)
    requires ValidDate(d)
    ensures 0 < d.month < 100 && 0 < d.day < 100
  {
  }

  /** Distinct calendar dates have distinct day keys. */
  lemma {:induction false} DayKeyInjective(d1: Date, d2: Date)
    requires ValidDate(d1) && ValidDate(d2)
    ensures DayKey(d1) == DayKey(d2) <==> d1 == d2
  {
    if DayKey(d1) == DayKey(d2) {
      SameKeySameDate(d1, d2);
    }
  }

  /** Two instants share a day key exactly when they fall on the same UTC
      calendar day: one bucket per day. */
  lemma {:induction false} DateKeySameDay(t1: int, t2: int)
    ensures DateKey(t1) == DateKey(t2) <==> UtcDate(t1) == UtcDate(t2)
  {
    DayKeyInjective(UtcDate(t1), UtcDate(t2));
  }

  // ---------------------------------------------------------------------------
  // Reference definitions: what each bar should hold. They, the accumulation
  // and its lemmas take the day-key function as `dayKey`; the chart uses KeyOf.
  // ---------------------------------------------------------------------------

  function OnDay(dayKey: ChartRecord -> string, key: string): ChartRecord -> bool {
    r => dayKey(r) == key
  }

  /** The records that fall on day `key`, in input order. */
  function RecordsOn(records: seq<ChartRecord>, dayKey: ChartRecord -> string, key: string): seq<ChartRecord> {
    Filter(records, OnDay(dayKey, key))
  }

  /** The distinct day keys of the records, in order of first appearance. */
  function DayKeys(records: seq<ChartRecord>, dayKey: ChartRecord -> string): seq<string> {
    Dedup(MapSeq(records, dayKey))
  }

  /** The bar for day `key`: the sum of that day's amounts, its distinct
      categories in order of first appearance, and the date of its first record. */
  function ReferenceBucket(records: seq<ChartRecord>, dayKey: ChartRecord -> string, key: string): DayBucket
    requires RecordsOn(records, dayKey, key) != []
  {
    var day := RecordsOn(records, dayKey, key);
    DayBucket(key, SumBy(day, Amount), Dedup(MapSeq(day, Category)), day[0].date)
  }

  // ---------------------------------------------------------------------------
  // The accumulation loop and its functional specification
  // ---------------------------------------------------------------------------

  /** One turn of the `forEach`: add to the day's running total and category
      list when the key is present, otherwise insert a fresh entry. */
  function Step(m: DateMap, r: ChartRecord, key: string): DateMap {
    if key in m.totals then
      var existing := m.totals[key];
      var categories := if r.category in existing.categories then existing.categories
                        else existing.categories + [r.category];
      DateMap(m.totals[key := DayTotal(existing.total + r.amount, categories, existing.originalDate)], m.keys)
    else
      DateMap(m.totals[key := DayTotal(r.amount, [r.category], r.date)], m.keys + [key])
  }

  /** The Map after the `forEach` has visited `records`. */
  function Accumulate(records: seq<ChartRecord>, dayKey: ChartRecord -> string): (m: DateMap)
    ensures WellFormed(m)
  {
    if records == [] then DateMap(map[], [])
    else
      var m := Accumulate(records[..|records| - 1], dayKey);
      var key := dayKey(records[|records| - 1]);
      assert key !in m.totals ==> key !in m.keys;
      Step(m, records[|records| - 1], key)
  }

  /** `Array.from(dateMap.entries()).map(...)`: one bucket per key, in insertion order. */
  function Entries(keys: seq<string>, totals: map<string, DayTotal>): (r: seq<DayBucket>)
    requires forall i :: 0 <= i < |keys| ==> keys[i] in totals
    ensures |r| == |keys|
    ensures forall i :: 0 <= i < |keys| ==>
      r[i] == DayBucket(keys[i], totals[keys[i]].total, totals[keys[i]].categories, totals[keys[i]].originalDate)
  {
    if keys == [] then []
    else [DayBucket(keys[0], totals[keys[0]].total, totals[keys[0]].categories, totals[keys[0]].originalDate)]
         + Entries(keys[1..], totals)
  }

  function MapEntries(m: DateMap): seq<DayBucket>
    requires WellFormed(m)
  {
    Entries(m.keys, m.totals)
  }

  /** The Map's entries sorted ascending by the time of their `originalDate`,
      ties in insertion order. */
  function AggregateBy(records: seq<ChartRecord>, dayKey: ChartRecord -> string): seq<DayBucket> {
    SortBy(MapEntries(Accumulate(records, dayKey)), OriginalDate)
  }

  /** The chart data, keyed by UTC calendar day. */
  function Aggregate(records: seq<ChartRecord>): seq<DayBucket> {
    AggregateBy(records, KeyOf)
  }

  /** The body of the `forEach` for one record whose day key is `dateKey`. */
  method AddToDay(dateMap: map<string, DayTotal>, keys: seq<string>, record: ChartRecord, dateKey: string)
    returns (dateMap': map<string, DayTotal>, keys': seq<string>)
    ensures DateMap(dateMap', keys') == Step(DateMap(dateMap, keys), record, dateKey)
  {
    dateMap', keys' := dateMap, keys;
    if dateKey in dateMap {
      var existing := dateMap[dateKey];
      var categories := existing.categories;
      if record.category !in categories {
        categories := categories + [record.category];
      }
      dateMap' := dateMap[dateKey := DayTotal(existing.total + record.amount, categories, existing.originalDate)];
    } else {
      dateMap' := dateMap[dateKey := DayTotal(record.amount, [record.category], record.date)];
      keys' := keys + [dateKey];
    }
  }

  /** The `forEach` of `aggregateByDate`: one pass over the records that
      fills the Map, each record under the day key `dayKey` gives it. */
  method AccumulateDays(records: seq<ChartRecord>, dayKey: ChartRecord -> string)
    returns (dateMap: map<string, DayTotal>, keys: seq<string>)
    ensures DateMap(dateMap, keys) == Accumulate(records, dayKey)
  {
    dateMap, keys := map[], [];
    for i := 0 to |records|
      invariant DateMap(dateMap, keys) == Accumulate(records[..i], dayKey)
    {
      var record := records[i];
      var dateKey := dayKey(record);
      dateMap, keys := AddToDay(dateMap, keys, record, dateKey);
      AccumulateSnoc(records, i, dayKey);
    }
    assert records[..|records|] == records;
  }

  /** `aggregateByDate`: fills the Map keyed by UTC calendar day, then sorts
      its entries by their first record's time. */
  method AggregateByDate(records: seq<ChartRecord>) returns (out: seq<DayBucket>)
    ensures out == Aggregate(records)
    ensures SortedBy(out, OriginalDate)
    ensures DistinctBy(out, BucketDate)
    ensures SumBy(out, BucketAmount) == SumBy(records, Amount)
  {
    var dateMap, keys := AccumulateDays(records, KeyOf);
    SortedEntries(records, KeyOf, dateMap, keys);
    out := SortBy(Entries(keys, dateMap), OriginalDate);
  }

  /** Sorting the entries of the accumulated Map gives the aggregation, with
      its three properties. */
  lemma SortedEntries(records: seq<ChartRecord>, dayKey: ChartRecord -> string,
                      dateMap: map<string, DayTotal>, keys: seq<string>)
    requires DateMap(dateMap, keys) == Accumulate(records, dayKey)
    ensures forall i :: 0 <= i < |keys| ==> keys[i] in dateMap
    ensures SortBy(Entries(keys, dateMap), OriginalDate) == AggregateBy(records, dayKey)
    ensures DistinctBy(AggregateBy(records, dayKey), BucketDate)
    ensures SumBy(AggregateBy(records, dayKey), BucketAmount) == SumBy(records, Amount)
  {
    AggregateKeysDistinct(records, dayKey);
    AggregateTotal(records, dayKey);
  }

  // ---------------------------------------------------------------------------
  // Properties of the aggregation
  // ---------------------------------------------------------------------------

  lemma {:induction false} AccumulateSnoc(records: seq<ChartRecord>, i: nat, dayKey: ChartRecord -> string)
    requires i < |records|
    ensures Accumulate(records[..i + 1], dayKey) == Step(Accumulate(records[..i], dayKey), records[i], dayKey(records[i]))
  {
    assert records[..i + 1][..i] == records[..i];
  }

  lemma {:induction false} RecordsOnSnoc(init: seq<ChartRecord>, r: ChartRecord, dayKey: ChartRecord -> string, key: string)
    ensures RecordsOn(init + [r], dayKey, key) == RecordsOn(init, dayKey, key) + (if dayKey(r) == key then [r] else [])
  {
    FilterAppend(init, [r], OnDay(dayKey, key));
  }

  lemma {:induction false} DayKeysSnoc(init: seq<ChartRecord>, r: ChartRecord, dayKey: ChartRecord -> string)
    ensures DayKeys(init + [r], dayKey)
         == if dayKey(r) in DayKeys(init, dayKey) then DayKeys(init, dayKey) else DayKeys(init, dayKey) + [dayKey(r)]
  {
    var s := MapSeq(init + [r], dayKey);
    assert s[..|s| - 1] == MapSeq(init, dayKey) by {
      assert forall i :: 0 <= i < |init| ==> (init + [r])[i] == init[i];
    }
    assert s[|s| - 1] == dayKey(r);
  }

  lemma {:induction false} CategoriesSnoc(day: seq<ChartRecord>, r: ChartRecord)
    ensures Dedup(MapSeq(day + [r], Category))
         == if r.category in Dedup(MapSeq(day, Category)) then Dedup(MapSeq(day, Category))
            else Dedup(MapSeq(day, Category)) + [r.category]
  {
    var s := MapSeq(day + [r], Category);
    assert s[..|s| - 1] == MapSeq(day, Category);
  }

  lemma {:induction false} KeyPresent(records: seq<ChartRecord>, dayKey: ChartRecord -> string, key: string)
    ensures key in DayKeys(records, dayKey) <==> RecordsOn(records, dayKey, key) != []
  {
    var ks := MapSeq(records, dayKey);
    FilterMembers(records, OnDay(dayKey, key));
    DedupMembers(ks);
    if key in ks {
      var i :| 0 <= i < |ks| && ks[i] == key;
      assert OnDay(dayKey, key)(records[i]);
      assert records[i] in RecordsOn(records, dayKey, key);
    }
    if RecordsOn(records, dayKey, key) != [] {
      var r := RecordsOn(records, dayKey, key)[0];
      assert r in records && dayKey(r) == key;
      var i :| 0 <= i < |records| && records[i] == r;
      assert ks[i] == key;
    }
  }

  /** Day `k` is in the Map exactly when some record falls on it, and then
      its entry is the reference bucket's total, categories and first date. */
  ghost predicate EntryMatches(records: seq<ChartRecord>, dayKey: ChartRecord -> string, m: DateMap, k: string) {
    && (k in m.totals <==> RecordsOn(records, dayKey, k) != [])
    && (k in m.totals ==>
          var b := ReferenceBucket(records, dayKey, k);
          m.totals[k] == DayTotal(b.amount, b.categories, b.originalDate))
  }

  lemma {:induction false} StepMatches(init: seq<ChartRecord>, r: ChartRecord, dayKey: ChartRecord -> string, m: DateMap, k: string)
    requires EntryMatches(init, dayKey, m, k)
    ensures EntryMatches(init + [r], dayKey, Step(m, r, dayKey(r)), k)
  {
    RecordsOnSnoc(init, r, dayKey, k);
    if k == dayKey(r) {
      StepMatchesSameDay(init, r, dayKey, m);
    } else {
      assert RecordsOn(init + [r], dayKey, k) == RecordsOn(init, dayKey, k);
      if k in m.totals {
        assert Step(m, r, dayKey(r)).totals[k] == m.totals[k];
      }
    }
  }

  lemma {:induction false} StepMatchesSameDay(init: seq<ChartRecord>, r: ChartRecord, dayKey: ChartRecord -> string, m: DateMap)
    requires EntryMatches(init, dayKey, m, dayKey(r))
    ensures EntryMatches(init + [r], dayKey, Step(m, r, dayKey(r)), dayKey(r))
  {
    var k := dayKey(r);
    var day := RecordsOn(init, dayKey, k);
    RecordsOnSnoc(init, r, dayKey, k);
    assert RecordsOn(init + [r], dayKey, k) == day + [r];
    if k in m.totals {
      NextOfDay(day, r);
    } else {
      FirstOfDay(day, r);
    }
  }

  /** The first record of a day opens that day's bar. */
  lemma {:induction false} FirstOfDay(day: seq<ChartRecord>, r: ChartRecord)
    requires day == []
    ensures SumBy(day + [r], Amount) == r.amount
    ensures Dedup(MapSeq(day + [r], Category)) == [r.category]
    ensures (day + [r])[0].date == r.date
  {
    assert day + [r] == [r];
    assert MapSeq([r], Category) == [r.category];
  }

  /** A later record of a day adds its amount, adds its category when new,
      and keeps the day's first date. */
  lemma {:induction false} NextOfDay(day: seq<ChartRecord>, r: ChartRecord)
    requires day != []
    ensures SumBy(day + [r], Amount) == SumBy(day, Amount) + r.amount
    ensures Dedup(MapSeq(day + [r], Category))
         == if r.category in Dedup(MapSeq(day, Category)) then Dedup(MapSeq(day, Category))
            else Dedup(MapSeq(day, Category)) + [r.category]
    ensures (day + [r])[0].date == day[0].date
  {
    SumAppend(day, [r], Amount);
    assert SumBy([r], Amount) == r.amount;
    CategoriesSnoc(day, r);
  }

  /** The Map built by the loop holds, for each day key in order of first
      appearance, exactly the reference bucket of that day. */
  lemma {:induction false} AccumulateMatchesReference(records: seq<ChartRecord>, dayKey: ChartRecord -> string)
    ensures Accumulate(records, dayKey).keys == DayKeys(records, dayKey)
    ensures forall k :: EntryMatches(records, dayKey, Accumulate(records, dayKey), k)
  {
    if records != [] {
      var init, r := records[..|records| - 1], records[|records| - 1];
      assert records == init + [r];
      AccumulateMatchesReference(init, dayKey);
      DayKeysSnoc(init, r, dayKey);
      KeyPresent(init, dayKey, dayKey(r));
      var m := Accumulate(init, dayKey);
      assert Accumulate(records, dayKey) == Step(m, r, dayKey(r));
      forall k ensures EntryMatches(records, dayKey, Accumulate(records, dayKey), k) {
        StepMatches(init, r, dayKey, m, k);
      }
    }
  }

  /** Each entry of the Map is the reference bucket of its day, and the
      entries come in order of each day's first appearance. */
  lemma {:induction false} EntriesMatchReference(records: seq<ChartRecord>, dayKey: ChartRecord -> string)
    ensures var e := MapEntries(Accumulate(records, dayKey));
      && MapSeq(e, BucketDate) == DayKeys(records, dayKey)
      && forall i :: 0 <= i < |e| ==>
           RecordsOn(records, dayKey, e[i].date) != [] && e[i] == ReferenceBucket(records, dayKey, e[i].date)
  {
    AccumulateMatchesReference(records, dayKey);
    var m := Accumulate(records, dayKey);
    var e := MapEntries(m);
    forall i | 0 <= i < |e|
      ensures RecordsOn(records, dayKey, e[i].date) != [] && e[i] == ReferenceBucket(records, dayKey, e[i].date)
    {
      assert EntryMatches(records, dayKey, m, m.keys[i]);
    }
  }

  /** Every bar is the reference bucket of its day: its amount is the sum of
      that day's amounts, its categories are that day's distinct categories in
      order of first appearance, and its `originalDate` is the date of the
      day's first record. */
  lemma {:induction false} AggregateBuckets(records: seq<ChartRecord>, dayKey: ChartRecord -> string)
    ensures forall b :: b in AggregateBy(records, dayKey) ==>
      RecordsOn(records, dayKey, b.date) != [] && b == ReferenceBucket(records, dayKey, b.date)
  {
    var e := MapEntries(Accumulate(records, dayKey));
    EntriesMatchReference(records, dayKey);
    forall b | b in AggregateBy(records, dayKey)
      ensures RecordsOn(records, dayKey, b.date) != [] && b == ReferenceBucket(records, dayKey, b.date)
    {
      assert b in multiset(e);
    }
  }

  /** Every day of the input has a bar. */
  lemma {:induction false} AggregateCoversDays(records: seq<ChartRecord>, dayKey: ChartRecord -> string)
    ensures forall r :: r in records ==> exists b :: b in AggregateBy(records, dayKey) && b.date == dayKey(r)
  {
    forall r | r in records ensures exists b :: b in AggregateBy(records, dayKey) && b.date == dayKey(r) {
      DayHasBar(records, dayKey, r);
    }
  }

  lemma {:induction false} DayHasBar(records: seq<ChartRecord>, dayKey: ChartRecord -> string, r: ChartRecord)
    requires r in records
    ensures exists b :: b in AggregateBy(records, dayKey) && b.date == dayKey(r)
  {
    KeyOfRecordListed(records, dayKey, r);
    EntriesMatchReference(records, dayKey);
    BarOfListedKey(MapEntries(Accumulate(records, dayKey)), AggregateBy(records, dayKey), dayKey(r));
  }

  lemma {:induction false} KeyOfRecordListed(records: seq<ChartRecord>, dayKey: ChartRecord -> string, r: ChartRecord)
    requires r in records
    ensures dayKey(r) in DayKeys(records, dayKey)
  {
    var ks := MapSeq(records, dayKey);
    DedupMembers(ks);
    var i :| 0 <= i < |records| && records[i] == r;
    assert ks[i] == dayKey(r);
  }

  /** A key listed among the entries' dates is the date of some bar of any
      rearrangement of the entries. */
  lemma {:induction false} BarOfListedKey(e: seq<DayBucket>, bars: seq<DayBucket>, key: string)
    requires key in MapSeq(e, BucketDate) && multiset(bars) == multiset(e)
    ensures exists b :: b in bars && b.date == key
  {
    var j :| 0 <= j < |e| && MapSeq(e, BucketDate)[j] == key;
    assert e[j] in multiset(bars);
  }

  /** No two bars share a day key. */
  lemma {:induction false} AggregateKeysDistinct(records: seq<ChartRecord>, dayKey: ChartRecord -> string)
    ensures DistinctBy(AggregateBy(records, dayKey), BucketDate)
  {
    var e := MapEntries(Accumulate(records, dayKey));
    EntriesMatchReference(records, dayKey);
    DistinctDates(e);
    SortByDistinct(e, OriginalDate, BucketDate);
  }

  lemma {:induction false} DistinctDates(e: seq<DayBucket>)
    requires NoDuplicates(MapSeq(e, BucketDate))
    ensures DistinctBy(e, BucketDate)
  {
    var ds := MapSeq(e, BucketDate);
    forall i, j | 0 <= i < j < |e| ensures e[i].date != e[j].date {
      assert ds[i] == e[i].date && ds[j] == e[j].date;
    }
  }

  /** Bars come in ascending order of `originalDate`; bars with equal
      `originalDate` keep the order in which their days first appeared. */
  lemma {:induction false} AggregateOrder(records: seq<ChartRecord>, dayKey: ChartRecord -> string, v: int)
    ensures SortedBy(AggregateBy(records, dayKey), OriginalDate)
    ensures Filter(AggregateBy(records, dayKey), KeyIs(OriginalDate, v))
         == Filter(MapEntries(Accumulate(records, dayKey)), KeyIs(OriginalDate, v))
  {
    SortByStable(MapEntries(Accumulate(records, dayKey)), OriginalDate, v);
  }

  lemma {:induction false} EntriesUpdate(keys: seq<string>, totals: map<string, DayTotal>, key: string, t: DayTotal)
    requires forall i :: 0 <= i < |keys| ==> keys[i] in totals
    requires NoDuplicates(keys) && key in keys
    ensures SumBy(Entries(keys, totals[key := t]), BucketAmount)
         == SumBy(Entries(keys, totals), BucketAmount) - totals[key].total + t.total
  {
    if keys[0] == key {
      EntriesUnchanged(keys[1..], totals, key, t);
    } else {
      EntriesUpdate(keys[1..], totals, key, t);
    }
  }

  lemma {:induction false} EntriesUnchanged(keys: seq<string>, totals: map<string, DayTotal>, key: string, t: DayTotal)
    requires forall i :: 0 <= i < |keys| ==> keys[i] in totals
    requires key !in keys
    ensures Entries(keys, totals[key := t]) == Entries(keys, totals)
  {
  }

  lemma {:induction false} EntriesSnoc(keys: seq<string>, totals: map<string, DayTotal>, key: string, t: DayTotal)
    requires forall i :: 0 <= i < |keys| ==> keys[i] in totals
    requires key !in keys
    ensures Entries(keys + [key], totals[key := t])
         == Entries(keys, totals) + [DayBucket(key, t.total, t.categories, t.originalDate)]
  {
    EntriesUnchanged(keys, totals, key, t);
  }

  lemma {:induction false} AccumulateTotal(records: seq<ChartRecord>, dayKey: ChartRecord -> string)
    ensures SumBy(MapEntries(Accumulate(records, dayKey)), BucketAmount) == SumBy(records, Amount)
  {
    if records != [] {
      var init, r := records[..|records| - 1], records[|records| - 1];
      assert records == init + [r];
      AccumulateTotal(init, dayKey);
      SumAppend(init, [r], Amount);
      var m := Accumulate(init, dayKey);
      assert Accumulate(records, dayKey) == Step(m, r, dayKey(r));
      StepTotal(m, r, dayKey(r));
    }
  }

  /** One turn of the loop adds the record's amount to the sum of the entries. */
  lemma {:induction false} StepTotal(m: DateMap, r: ChartRecord, key: string)
    requires WellFormed(m)
    ensures WellFormed(Step(m, r, key))
    ensures SumBy(MapEntries(Step(m, r, key)), BucketAmount) == SumBy(MapEntries(m), BucketAmount) + r.amount
  {
    var m' := Step(m, r, key);
    if key in m.totals {
      EntriesUpdate(m.keys, m.totals, key, m'.totals[key]);
    } else {
      assert key !in m.keys;
      EntriesSnoc(m.keys, m.totals, key, m'.totals[key]);
      SumAppend(Entries(m.keys, m.totals), [DayBucket(key, r.amount, [r.category], r.date)], BucketAmount);
    }
  }

  /** The bars' amounts add up to the records' amounts. */
  lemma {:induction false} AggregateTotal(records: seq<ChartRecord>, dayKey: ChartRecord -> string)
    ensures SumBy(AggregateBy(records, dayKey), BucketAmount) == SumBy(records, Amount)
  {
    AccumulateTotal(records, dayKey);
    SortBySum(MapEntries(Accumulate(records, dayKey)), OriginalDate, BucketAmount);
  }

  /** No records, no bars; some records, some bars. */
  lemma {:induction false} AggregateEmpty(records: seq<ChartRecord>, dayKey: ChartRecord -> string)
    ensures AggregateBy(records, dayKey) == [] <==> records == []
  {
    if records != [] {
      AggregateCoversDays(records, dayKey);
      assert records[0] in records;
    }
  }

  // ---------------------------------------------------------------------------
  // Colours, labels and tooltips
  // ---------------------------------------------------------------------------

  /** The four colour bands of a bar, from the lowest amounts up. */
  datatype Band = Teal | Blue | Yellow | Red

  function Rank(b: Band): int {
    match b
    case Teal => 0
    case Blue => 1
    case Yellow => 2
    case Red => 3
  }

  /** The band of a bar: above $200 red, above $100 yellow, above $50 blue,
      otherwise teal; each boundary amount falls into the lower band. */
  function AmountBand(amountCents: int): (b: Band)
    ensures b == Red <==> amountCents > 20000
    ensures b == Yellow <==> 10000 < amountCents <= 20000
    ensures b == Blue <==> 5000 < amountCents <= 10000
    ensures b == Teal <==> amountCents <= 5000
  {
    if amountCents > 20000 then Red
    else if amountCents > 10000 then Yellow
    else if amountCents > 5000 then Blue
    else Teal
  }

  /** A larger amount never gets a lower band. */
  lemma {:induction false} AmountBandMonotone(a: int, b: int)
    requires a <= b
    ensures Rank(AmountBand(a)) <= Rank(AmountBand(b))
  {
  }

  datatype Colors = Colors(bg: string, border: string)

  /** `getAmountColor`: the background and border of a bar in the light or dark theme. */
  function AmountColor(amountCents: int, isDark: bool): Colors {
    match AmountBand(amountCents)
    case Red => Colors(if isDark then "rgba(255, 99, 132, 0.3)" else "rgba(255, 99, 132, 0.2)",
                       if isDark then "rgba(255, 99, 132, 0.8)" else "rgba(255, 99, 132, 1)")
    case Yellow => Colors(if isDark then "rgba(255, 206, 86, 0.3)" else "rgba(255, 206, 86, 0.2)",
                          if isDark then "rgba(255, 206, 86, 0.8)" else "rgba(255, 206, 86, 1)")
    case Blue => Colors(if isDark then "rgba(54, 162, 235, 0.3)" else "rgba(54, 162, 235, 0.2)",
                        if isDark then "rgba(54, 162, 235, 0.8)" else "rgba(54, 162, 235, 1)")
    case Teal => Colors(if isDark then "rgba(75, 192, 192, 0.3)" else "rgba(75, 192, 192, 0.2)",
                        if isDark then "rgba(75, 192, 192, 0.8)" else "rgba(75, 192, 192, 1)")
  }

  /** The axis label of a bar: the second and third `-`-separated fields of its
      key joined by `/` (`undefined` where a field is missing). */
  function Label(key: string): string {
    var parts := Split(key, '-');
    (if |parts| > 1 then parts[1] else "undefined") + "/" + (if |parts| > 2 then parts[2] else "undefined")
  }

  /** For a date from year 0 on, the label of its key is the zero-padded
      month and day, `MM/DD`. */
  lemma {:induction false} LabelOfDayKey(d: Date)
    requires ValidDate(d) && d.year >= 0
    ensures Label(DayKey(d)) == Pad2(d.month) + "/" + Pad2(d.day)
    ensures |Label(DayKey(d))| == 5
  {
    DayKeyFields(d);
    Pad2Digits(d.month);
    Pad2Digits(d.day);
  }

  /** For any instant from year 0 on, the label is its zero-padded UTC month
      and day. */
  lemma {:induction false} LabelOfDateKey(t: int)
    requires UtcDate(t).year >= 0
    ensures Label(DateKey(t)) == Pad2(UtcDate(t).month) + "/" + Pad2(UtcDate(t).day)
  {
    LabelOfDayKey(UtcDate(t));
  }

  /** The tooltip line naming a bar's categories. */
  function CategoriesText(categories: seq<string>): (text: string)
    ensures |categories| == 1 ==> text == "Category: " + categories[0]
    ensures |categories| > 1 ==> text == "Categories: " + Join(categories, ", ")
  {
    if |categories| > 1 then "Categories: " + Join(categories, ", ")
    else "Category: " + (if categories == [] then "undefined" else categories[0])
  }

  /** A day whose records all carry category `c` shows `Category: c`. */
  lemma {:induction false} SingleCategoryTooltip(records: seq<ChartRecord>, b: DayBucket, c: string)
    requires b in Aggregate(records)
    requires forall r :: r in RecordsOn(records, KeyOf, b.date) ==> r.category == c
    ensures CategoriesText(b.categories) == "Category: " + c
  {
    AggregateBuckets(records, KeyOf);
    var day := RecordsOn(records, KeyOf, b.date);
    var cats := MapSeq(day, Category);
    assert forall i :: 0 <= i < |cats| ==> cats[i] == c by {
      forall i | 0 <= i < |cats| ensures cats[i] == c {
        assert day[i] in day;
      }
    }
    OneValue(cats, c);
  }

  lemma {:induction false} OneValue(s: seq<string>, c: string)
    requires s != [] && forall i :: 0 <= i < |s| ==> s[i] == c
    ensures Dedup(s) == [c]
  {
    var init := s[..|s| - 1];
    if init != [] {
      OneValue(init, c);
    }
  }

  /** A day with two records of different categories shows the `Categories:` list. */
  lemma {:induction false} MixedCategoryTooltip(records: seq<ChartRecord>, b: DayBucket, r1: ChartRecord, r2: ChartRecord)
    requires b in Aggregate(records)
    requires r1 in RecordsOn(records, KeyOf, b.date) && r2 in RecordsOn(records, KeyOf, b.date)
    requires r1.category != r2.category
    ensures CategoriesText(b.categories) == "Categories: " + Join(b.categories, ", ")
  {
    AggregateBuckets(records, KeyOf);
    var day := RecordsOn(records, KeyOf, b.date);
    assert b.categories == Dedup(MapSeq(day, Category));
    TwoValues(MapSeq(day, Category), r1.category, r2.category) by {
      var cats := MapSeq(day, Category);
      var i :| 0 <= i < |day| && day[i] == r1;
      var j :| 0 <= j < |day| && day[j] == r2;
      assert cats[i] == r1.category && cats[j] == r2.category;
    }
  }

  lemma {:induction false} TwoValues(s: seq<string>, a: string, b: string)
    requires a in s && b in s && a != b
    ensures |Dedup(s)| > 1
  {
    DedupMembers(s);
    var d := Dedup(s);
    assert a in d && b in d;
    assert |d| <= 1 ==> a == b;
  }
}
