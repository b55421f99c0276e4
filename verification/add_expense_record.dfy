/** The `addExpenseRecord` server action: checks the form, turns the entered
    `YYYY-MM-DD` date into noon UTC of that day, checks that the caller is
    signed in and writes the record. */
module AddExpenseRecord {
  import opened Wrappers
  import opened Text
  import opened Calendar
  import opened DateInput
  import BarChart

  /** The four form fields as `formData.get` returns them; `None` for a field
      that is absent. */
  datatype ExpenseForm = ExpenseForm(text: Option<string>, amount: Option<string>,
                                     category: Option<string>, date: Option<string>)

  /** What the action returns about the written record; `amount` in cents. */
  datatype RecordData = RecordData(text: string, amount: int, category: string, date: string)

  /** `{ data }`, with the owner the record was written for, or `{ error }`. */
  datatype RecordResult = Added(data: RecordData, userId: string) | Failed(error: string)

  const MissingFieldsError: string := "Falta el texto, el importe, la categoría o la fecha"
  const InvalidDateError: string := "Formato de fecha inválido"
  const UserNotFoundError: string := "Usuario no encontrado"
  const StoreError: string := "Ocurrió un error inesperado al agregar el registro de gastos."

  /** `!value || value === ""`. */
  predicate Falsy(value: Option<string>) {
    value.None? || value.value == ""
  }

  predicate HasAllFields(form: ExpenseForm) {
    !Falsy(form.text) && !Falsy(form.amount) && !Falsy(form.category) && !Falsy(form.date)
  }

  // ---------------------------------------------------------------------------
  // The entered date
  // ---------------------------------------------------------------------------

  /** A real calendar date from year 100 to 9999, entered as `input`, becomes
      the instant of noon UTC on that day. */
  lemma {:induction false} NoonOfValidDate(input: string, date: Date, y: string, m: string, d: string)
    requires IsRadixDigits(y, 10) && IsRadixDigits(m, 10) && IsRadixDigits(d, 10)
    requires y != [] && m != [] && d != []
    requires input == y + "-" + m + "-" + d && date == EnteredDate(y, m, d)
    requires ValidDate(date) && 100 <= date.year <= 9999
    ensures NoonOf(input) == Some(DaysFromCivil(date) * MsPerDay + 12 * MsPerHour)
  {
    assert NoonOf(input) == DateUtc(Some(date.year), Some(date.month - 1), Some(date.day), 12, 0, 0) by {
      NoonOfParts(y, m, d);
    }
    NoonOfDate(input, date);
  }

  /** Round trip: a `YYYY-MM-DD` date from 0100-01-01 to 9999-12-31 is stored
      as noon UTC of the same day, `YYYY-MM-DDT12:00:00.000Z`. */
  lemma {:induction false} EnteredDateRoundTrip(y: string, m: string, d: string)
    requires IsRadixDigits(y, 10) && IsRadixDigits(m, 10) && IsRadixDigits(d, 10)
    requires |y| == 4 && |m| == 2 && |d| == 2
    requires ValidDate(EnteredDate(y, m, d)) && DigitsValue(y, 10) >= 100
    ensures NormaliseDate(y + "-" + m + "-" + d) == Some(y + "-" + m + "-" + d + "T12:00:00.000Z")
  {
    StoredAsEntered(y + "-" + m + "-" + d, EnteredDate(y, m, d), y, m, d);
  }

  lemma {:induction false} StoredAsEntered(input: string, date: Date, y: string, m: string, d: string)
    requires IsRadixDigits(y, 10) && IsRadixDigits(m, 10) && IsRadixDigits(d, 10)
    requires |y| == 4 && |m| == 2 && |d| == 2
    requires input == y + "-" + m + "-" + d && date == EnteredDate(y, m, d)
    requires ValidDate(date) && 100 <= date.year
    ensures NormaliseDate(input) == Some(input + "T12:00:00.000Z")
  {
    DigitsValueBelow(y);
    NoonOfValidDate(input, date, y, m, d);
    NormaliseAtNoon(input, date);
    IsoDayOfParts(date.year, m, d);
    IsoYearOfDigits(y);
  }

  /** A year written `0000` to `0099` is read as 1900 to 1999, as `Date.UTC`
      does with two-digit years: `0024-05-01` is stored as `1924-05-01`. */
  lemma {:induction false} TwoDigitYearShift(input: string, date: Date, y: string, m: string, d: string)
    requires IsRadixDigits(y, 10) && IsRadixDigits(m, 10) && IsRadixDigits(d, 10)
    requires |m| == 2 && |d| == 2 && y != [] && DigitsValue(y, 10) <= 99
    requires input == y + "-" + m + "-" + d
    requires date == Date(1900 + DigitsValue(y, 10), DigitsValue(m, 10), DigitsValue(d, 10)) && ValidDate(date)
    ensures NormaliseDate(input) == Some(IsoYear(date.year) + "-" + m + "-" + d + "T12:00:00.000Z")
  {
    assert NoonOf(input) == Some(DaysFromCivil(date) * MsPerDay + 12 * MsPerHour) by {
      NoonOfParts(y, m, d);
      TwoDigitNoon(input, DigitsValue(y, 10), date);
    }
    assert IsoDay(date) == IsoYear(date.year) + "-" + m + "-" + d by {
      IsoDayOfParts(date.year, m, d);
    }
    NormaliseAtNoon(input, date);
  }

  /** The stored instant falls on the entered day: from year 1000 on, the
      chart's day key of the stored date is the entered `YYYY-MM-DD` itself. */
  lemma {:induction false} EnteredDateKey(y: string, m: string, d: string)
    requires IsRadixDigits(y, 10) && IsRadixDigits(m, 10) && IsRadixDigits(d, 10)
    requires |y| == 4 && |m| == 2 && |d| == 2
    requires ValidDate(EnteredDate(y, m, d)) && DigitsValue(y, 10) >= 1000
    ensures NoonOf(y + "-" + m + "-" + d).Some?
    ensures BarChart.DateKey(NoonOf(y + "-" + m + "-" + d).value) == y + "-" + m + "-" + d
  {
    KeyAsEntered(y + "-" + m + "-" + d, EnteredDate(y, m, d), y, m, d);
  }

  lemma {:induction false} KeyAsEntered(input: string, date: Date, y: string, m: string, d: string)
    requires IsRadixDigits(y, 10) && IsRadixDigits(m, 10) && IsRadixDigits(d, 10)
    requires |y| == 4 && |m| == 2 && |d| == 2
    requires input == y + "-" + m + "-" + d && date == EnteredDate(y, m, d)
    requires ValidDate(date) && 1000 <= date.year
    ensures NoonOf(input).Some? && BarChart.DateKey(NoonOf(input).value) == input
  {
    assert date.year <= 9999 by {
      DigitsValueBelow(y);
    }
    NoonOfValidDate(input, date, y, m, d);
    BarChart.KeyOfNoon(date);
    DayKeyAsEntered(input, date, y, m, d);
  }

  /** From year 1000 on, the day key of the entered date is what was entered. */
  lemma {:induction false} DayKeyAsEntered(input: string, date: Date, y: string, m: string, d: string)
    requires IsRadixDigits(y, 10) && IsRadixDigits(m, 10) && IsRadixDigits(d, 10)
    requires |y| == 4 && |m| == 2 && |d| == 2
    requires input == y + "-" + m + "-" + d && date == EnteredDate(y, m, d)
    requires ValidDate(date) && 1000 <= date.year
    ensures BarChart.DayKey(date) == input
  {
    assert NatToString(date.year) == y by {
      if y[0] == '0' {
        LeadingZero(y);
        DigitsValueBelow(y[1..]);
        assert false;
      }
      NatToStringOfCanonical(y);
    }
    PadStartOfDigits(m);
    PadStartOfDigits(d);
  }

  // ---------------------------------------------------------------------------
  // The action
  // ---------------------------------------------------------------------------

  /** `addExpenseRecord(formData)`. `parseAmount` stands for `parseFloat` on the
      amount field, `userId` for what `auth()` reports, and `stored` for
      whether `db.record.create` succeeds. */
  function AddExpenseRecord(form: ExpenseForm, parseAmount: string -> int,
                            userId: Option<string>, stored: bool): (r: RecordResult)
    ensures r == Failed(MissingFieldsError) <==> !HasAllFields(form)
    ensures HasAllFields(form) ==> (r == Failed(InvalidDateError) <==> NormaliseDate(form.date.value).None?)
    ensures r == Failed(UserNotFoundError) <==>
              HasAllFields(form) && NormaliseDate(form.date.value).Some? && Falsy(userId)
    ensures r.Added? <==>
              HasAllFields(form) && NormaliseDate(form.date.value).Some? && !Falsy(userId) && stored
    ensures r.Added? ==>
              && r.userId == userId.value
              && r.data == RecordData(form.text.value, parseAmount(form.amount.value),
                                      form.category.value, NormaliseDate(form.date.value).value)
    ensures r.Failed? ==> r.error in {MissingFieldsError, InvalidDateError, UserNotFoundError, StoreError}
  {
    if !HasAllFields(form) then Failed(MissingFieldsError)
    else
      var date := NormaliseDate(form.date.value);
      if date.None? then Failed(InvalidDateError)
      else if Falsy(userId) then Failed(UserNotFoundError)
      else if !stored then Failed(StoreError)
      else Added(RecordData(form.text.value, parseAmount(form.amount.value), form.category.value, date.value),
                 userId.value)
  }

  /** The form is checked before the caller and the store: a form with a
      missing field is refused whoever sends it. */
  lemma FormCheckedFirst(form: ExpenseForm, parseAmount: string -> int,
                         user1: Option<string>, stored1: bool, user2: Option<string>, stored2: bool)
    requires !HasAllFields(form) || NormaliseDate(form.date.value).None?
    ensures AddExpenseRecord(form, parseAmount, user1, stored1) == AddExpenseRecord(form, parseAmount, user2, stored2)
  {
  }

  /** A record added from a well-formed date from year 1000 on is stored at
      noon UTC of that day, and shows in the chart under that day's key. */
  lemma {:induction false} AddedOnEnteredDay(text: string, amount: string, category: string,
                                             y: string, m: string, d: string,
                                             parseAmount: string -> int, userId: string)
    requires text != "" && amount != "" && category != "" && userId != ""
    requires IsRadixDigits(y, 10) && IsRadixDigits(m, 10) && IsRadixDigits(d, 10)
    requires |y| == 4 && |m| == 2 && |d| == 2
    requires ValidDate(EnteredDate(y, m, d)) && DigitsValue(y, 10) >= 1000
    ensures var r := AddExpenseRecord(ExpenseForm(Some(text), Some(amount), Some(category), Some(y + "-" + m + "-" + d)),
                                      parseAmount, Some(userId), true);
      && r.Added?
      && r.data.date == y + "-" + m + "-" + d + "T12:00:00.000Z"
      && BarChart.DateKey(NoonOf(y + "-" + m + "-" + d).value) == y + "-" + m + "-" + d
  {
    var input := y + "-" + m + "-" + d;
    EnteredDateRoundTrip(y, m, d);
    AddedAsNormalised(ExpenseForm(Some(text), Some(amount), Some(category), Some(input)), parseAmount, userId);
    EnteredDateKey(y, m, d);
  }

  lemma AddedAsNormalised(form: ExpenseForm, parseAmount: string -> int, userId: string)
    requires HasAllFields(form) && NormaliseDate(form.date.value).Some? && userId != ""
    ensures AddExpenseRecord(form, parseAmount, Some(userId), true).Added?
    ensures AddExpenseRecord(form, parseAmount, Some(userId), true).data.date == NormaliseDate(form.date.value).value
  {
  }
}
