/** The income list's description lines: the Expected/Received status of an
    income's date as written, a corrected chronological status, and the
    type/frequency label. Dates are (year, month index, day) triples; "today"
    is a parameter. */
module IncomeList {
  import opened JsValues
  import UtilHelper

  /** A calendar date with month index 0..11 (`getMonth()`) and day of month
      (`getDate()`). */
  datatype Date = Date(year: int, month: int, day: nat)

  /** `getStatus(day)` as written: in today's year or earlier, a date is
      expected only when both its day and its month are at least today's (the
      day strictly later); in a later year it is always expected. */
  function GetStatus(date: Date, today: Date): (r: string)
    ensures r == "Expected" || r == "Received"
    ensures date.year > today.year ==> r == "Expected"
    ensures date.year <= today.year ==>
      (r == "Expected" <==> date.day > today.day && date.month >= today.month)
  {
    if date.year <= today.year then
      if date.day > today.day && date.month >= today.month then "Expected" else "Received"
    else "Expected"
  }

  /** Today itself has been received. */
  lemma TodayIsReceived(today: Date)
    ensures GetStatus(today, today) == "Received"
  {
  }

  /** Strict chronological order on dates. */
  predicate Before(a: Date, b: Date) {
    a.year < b.year
    || (a.year == b.year && a.month < b.month)
    || (a.year == b.year && a.month == b.month && a.day < b.day)
  }

  /** The status the component evidently means: expected exactly when the
      date is still to come. */
  function GetStatusIntended(date: Date, today: Date): (r: string)
    ensures r == "Expected" || r == "Received"
    ensures r == "Expected" <==> Before(today, date)
  {
    if Before(today, date) then "Expected" else "Received"
  }

  /** Where the two agree: any later year, and the rest of the current month. */
  lemma StatusAgreesOnLaterYears(date: Date, today: Date)
    requires date.year > today.year || (date.year == today.year && date.month == today.month)
    ensures GetStatus(date, today) == GetStatusIntended(date, today)
  {
  }

  /** As written, an income from last year whose month and day come later in
      the calendar than today's is still "Expected". */
  lemma PriorYearStillExpected()
    ensures GetStatus(Date(2025, 11, 20), Date(2026, 9, 11)) == "Expected"
    ensures GetStatusIntended(Date(2025, 11, 20), Date(2026, 9, 11)) == "Received"
  {
  }

  /** As written, an income due next month on an earlier day of the month
      shows as already "Received". */
  lemma NextMonthEarlierDayReceived()
    ensures GetStatus(Date(2026, 10, 5), Date(2026, 9, 11)) == "Received"
    ensures GetStatusIntended(Date(2026, 10, 5), Date(2026, 9, 11)) == "Expected"
  {
  }

  /** The type shown: the income's frequency type, or `One Time` when it is
      missing or empty. */
  function TypeLabel(incomeType: Option<string>): (r: string)
    ensures incomeType.Some? && incomeType.value != "" ==> r == incomeType.value
    ensures incomeType.None? || incomeType.value == "" ==> r == "One Time"
  {
    if incomeType.Some? && incomeType.value != "" then incomeType.value else "One Time"
  }

  /** The first description line: the type, a space, and for recurring
      income only, the frequency in parentheses. */
  function TypeLine(incomeType: Option<string>, frequency: string): (r: string)
    ensures |r| >= |TypeLabel(incomeType)| + 1
    ensures var t := TypeLabel(incomeType);
      && r[..|t| + 1] == t + " "
      && (t == "Recurring" ==> r[|t| + 1..] == "(" + frequency + ")")
      && (t != "Recurring" ==> |r| == |t| + 1)
  {
    var t := TypeLabel(incomeType);
    var suffix := if t == "Recurring" then "(" + frequency + ")" else "";
    assert (t + " " + suffix)[..|t| + 1] == t + " ";
    t + " " + suffix
  }

  /** The parentheses appear exactly for recurring income; a missing type is
      never recurring. */
  lemma FrequencyOnlyWhenRecurring(incomeType: Option<string>, frequency: string)
    ensures var r := TypeLine(incomeType, frequency);
      (|r| > |TypeLabel(incomeType)| + 1) <==> incomeType == Some("Recurring")
  {
  }

  /** The second description line: the status, the month's long name and the
      day with its ordinal suffix. */
  function StatusLine(date: Date, today: Date, monthName: string): (r: string)
    ensures |r| > |GetStatus(date, today)|
    ensures var s := GetStatus(date, today);
      && r[..|s| + 1] == s + " "
      && r[|s| + 1..] == monthName + " " + NatToString(date.day) + UtilHelper.Nth(date.day)
  {
    var s := GetStatus(date, today);
    var rest := monthName + " " + NatToString(date.day) + UtilHelper.Nth(date.day);
    assert (s + " " + rest)[..|s| + 1] == s + " ";
    assert (s + " " + rest)[|s| + 1..] == rest;
    s + " " + rest
  }
}
