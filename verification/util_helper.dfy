/** The calendar and list helpers of the budgeting app: ordinal suffixes, the
    list of days of a month, the month-list generator, the active-month check
    and the flattening of automated income. */
module UtilHelper {
  import opened JsValues

  // ---------------------------------------------------------------------------
  // Ordinal suffix
  // ---------------------------------------------------------------------------

  const OrdinalSuffixes: seq<string> := ["st", "nd", "rd"]

  /** The array index `nth` computes from |n|. */
  function SuffixIndex(a: nat): int {
    JsRem((a + 90) % 100 - 10, 10) - 1
  }

  /** `nth(n)`: indexes `["st","nd","rd"]` with `(((|n| + 90) % 100 - 10) % 10 - 1)`
      using JavaScript's truncated remainder; an index outside the array reads
      undefined and falls back to "th". */
  function Nth(n: int): (r: string)
    ensures r == "st" || r == "nd" || r == "rd" || r == "th"
  {
    var k := SuffixIndex(Abs(n));
    if 0 <= k < |OrdinalSuffixes| then OrdinalSuffixes[k] else "th"
  }

  /** The English ordinal rule stated directly: the last digit of |n| picks
      "st", "nd" or "rd", except in the teens 11, 12, 13 of each hundred. */
  function EnglishSuffix(n: int): string {
    var a := Abs(n);
    if 11 <= a % 100 <= 13 then "th"
    else if a % 10 == 1 then "st"
    else if a % 10 == 2 then "nd"
    else if a % 10 == 3 then "rd"
    else "th"
  }

  /** Only the absolute value matters. */
  lemma NthSymmetric(n: int)
    ensures Nth(-n) == Nth(n)
  {
    assert Abs(-n) == Abs(n);
  }

  /** The index arithmetic of `nth` computes the English ordinal rule. */
  lemma NthIsEnglishSuffix(n: int)
    ensures Nth(n) == EnglishSuffix(n)
  {
    SuffixIndexRule(Abs(n));
  }

  /** Where the index computed from |n| lands: inside the array exactly for
      a last digit 1, 2 or 3 outside the teens, and then on that digit. */
  lemma SuffixIndexRule(a: nat)
    ensures var k := SuffixIndex(a);
      && ((0 <= k < 3) <==> !(11 <= a % 100 <= 13) && 1 <= a % 10 <= 3)
      && (0 <= k < 3 ==> k == a % 10 - 1)
  {
    var m := a % 100;
    SuffixIndexHundreds(a);
    if m < 10 {
      SuffixIndexLow(m);
    } else if m < 20 {
      SuffixIndexTeens(m);
    } else {
      SuffixIndexHigh(m);
    }
  }

  /** Only the last two digits of |n| matter. */
  lemma SuffixIndexHundreds(a: nat)
    ensures SuffixIndex(a) == SuffixIndex(a % 100)
    ensures a % 10 == (a % 100) % 10
  {
    var m := a % 100;
    var q := a / 100;
    assert a + 90 == 100 * q + (m + 90);
    ModAddMultiple(m + 90, q);
    assert a == 10 * (10 * q) + m;
    ModAddMultiple10(m, 10 * q);
  }

  lemma SuffixIndexLow(m: nat)
    requires m < 10
    ensures SuffixIndex(m) == m - 1
  {
    assert (m + 90) % 100 == m + 90;
    ModAddMultiple10(m, 8);
  }

  lemma SuffixIndexTeens(m: nat)
    requires 10 <= m < 20
    ensures SuffixIndex(m) < 0
  {
    assert m + 90 == 100 * 1 + (m - 10);
    ModAddMultiple(m - 10, 1);
    assert (m + 90) % 100 == m - 10;
  }

  lemma SuffixIndexHigh(m: nat)
    requires 20 <= m < 100
    ensures SuffixIndex(m) == m % 10 - 1
  {
    assert m + 90 == 100 * 1 + (m - 10);
    ModAddMultiple(m - 10, 1);
    assert (m + 90) % 100 == m - 10;
    assert m == 10 * 2 + (m - 20);
    ModAddMultiple10(m - 20, 2);
  }

  lemma ModAddMultiple(x: int, q: int)
    requires 0 <= x
    ensures (100 * q + x) % 100 == x % 100
  {
  }

  lemma ModAddMultiple10(x: int, q: int)
    ensures (10 * q + x) % 10 == x % 10
  {
  }

  // ---------------------------------------------------------------------------
  // Days of a month
  // ---------------------------------------------------------------------------

  /** `constructDaysInMonth`: pushes `num.toString()` for num = 1, 2, … until
      the list holds 31 entries. */
  method ConstructDaysInMonth() returns (days: seq<string>)
    ensures |days| == 31
    ensures forall i :: 0 <= i < |days| ==> days[i] == NatToString(i + 1)
    ensures forall i :: 0 <= i < |days| ==> ParseDecimal(days[i]) == i + 1
  {
    days := [];
    var num := 1;
    while |days| < 31
      invariant num == |days| + 1 && |days| <= 31
      invariant forall i :: 0 <= i < |days| ==> days[i] == NatToString(i + 1)
    {
      days := days + [NatToString(num)];
      num := num + 1;
    }
    forall i | 0 <= i < |days|
      ensures ParseDecimal(days[i]) == i + 1
    {
      ParseNatToString(i + 1);
    }
  }

  // ---------------------------------------------------------------------------
  // Months
  // ---------------------------------------------------------------------------

  /** A zero-based month of the year, as `Date.prototype.getMonth` returns it. */
  type MonthIndex = i: int | 0 <= i < 12

  /** A calendar month; the day within the month is not modelled. */
  datatype Month = Month(year: int, index: MonthIndex)

  /** Months counted from the start of year 0, so that consecutive months
      have consecutive numbers. */
  function MonthNumber(m: Month): int {
    12 * m.year + m.index
  }

  /** `new Date(m).setMonth(m.getMonth() + k)`: the month k months later,
      carrying into the year. */
  function Advance(m: Month, k: int): (r: Month)
    ensures MonthNumber(r) == MonthNumber(m) + k
  {
    var t := MonthNumber(m) + k;
    Month(t / 12, t % 12)
  }

  /** Month numbers identify months, so advancing composes. */
  lemma AdvanceAdd(m: Month, j: int, k: int)
    ensures Advance(Advance(m, j), k) == Advance(m, j + k)
  {
    MonthNumberInjective(Advance(Advance(m, j), k), Advance(m, j + k));
  }

  lemma MonthNumberInjective(a: Month, b: Month)
    requires MonthNumber(a) == MonthNumber(b)
    ensures a == b
  {
    assert 12 * (a.year - b.year) == b.index - a.index;
  }

  /** One entry of a budget's `monthlyBudget` list. `active` is whatever the
      stored record holds (undefined when absent); `extra` holds the record's
      other properties. */
  datatype MonthEntry = MonthEntry(
    month: Month,
    totalIncome: int,
    totalExpenses: int,
    active: JsValue,
    extra: map<string, JsValue>)

  /** A copy of `defaultMonthObject` with its month set. */
  function DefaultMonth(m: Month): MonthEntry {
    MonthEntry(m, 0, 0, Undefined, map[])
  }

  /** `monthGenerator(sartMonth, endCount)`: `endCount || 3` entries (none
      when that is negative), starting at the given month, or at `now` when
      none is given, one month apart. An absent `endCount` is `None`. */
  method MonthGenerator(start: Option<Month>, endCount: Option<int>, now: Month) returns (months: seq<MonthEntry>)
    ensures endCount == None || endCount == Some(0) ==> |months| == 3
    ensures endCount.Some? && endCount.value > 0 ==> |months| == endCount.value
    ensures endCount.Some? && endCount.value < 0 ==> |months| == 0
    ensures forall i :: 0 <= i < |months| ==>
      months[i].totalIncome == 0 && months[i].totalExpenses == 0 && months[i] == DefaultMonth(months[i].month)
    ensures forall i :: 0 <= i < |months| ==> months[i].month == Advance(start.GetOr(now), i)
  {
    var maxCount := if endCount.Some? && endCount.value != 0 then endCount.value else 3;
    var m := start.GetOr(now);
    months := [];
    var i := 0;
    while i < maxCount
      invariant 0 <= i && |months| == i
      invariant i <= (if maxCount < 0 then 0 else maxCount)
      invariant m == Advance(start.GetOr(now), i)
      invariant forall j :: 0 <= j < i ==> months[j] == DefaultMonth(Advance(start.GetOr(now), j))
    {
      months := months + [DefaultMonth(m)];
      AdvanceAdd(start.GetOr(now), i, 1);
      m := Advance(m, 1);
      i := i + 1;
    }
  }

  /** A budget record: its list of months and its other properties. */
  datatype Budget = Budget(monthlyBudget: seq<MonthEntry>, extra: map<string, JsValue>)

  /** The number of entries whose `active` is truthy. */
  function CountActive(months: seq<MonthEntry>): (c: nat)
    ensures c <= |months|
  {
    if |months| == 0 then 0
    else CountActive(months[..|months| - 1]) + (if Truthy(months[|months| - 1].active) then 1 else 0)
  }

  /** The map step of `checkActiveMonths`: an entry whose month of the year is
      before the current one gets `active = false`. Only the month index is
      compared, never the year. */
  function MarkPastMonths(months: seq<MonthEntry>, current: MonthIndex): (r: seq<MonthEntry>)
    ensures |r| == |months|
    ensures forall i :: 0 <= i < |r| ==> r[i].month == months[i].month && r[i].extra == months[i].extra
    ensures forall i :: 0 <= i < |r| ==>
      r[i].totalIncome == months[i].totalIncome && r[i].totalExpenses == months[i].totalExpenses
    ensures forall i :: 0 <= i < |r| && months[i].month.index < current ==> r[i].active == Bool(false)
    ensures forall i :: 0 <= i < |r| && months[i].month.index >= current ==> r[i] == months[i]
  {
    seq(|months|, i requires 0 <= i < |months| =>
      if months[i].month.index < current then months[i].(active := Bool(false)) else months[i])
  }

  /** Marking is idempotent: a second pass changes nothing. */
  lemma MarkPastMonthsIdempotent(months: seq<MonthEntry>, current: MonthIndex)
    ensures MarkPastMonths(MarkPastMonths(months, current), current) == MarkPastMonths(months, current)
  {
  }

  /** Marking never adds an active entry. */
  lemma {:induction false} MarkPastMonthsCount(months: seq<MonthEntry>, current: MonthIndex)
    ensures CountActive(MarkPastMonths(months, current)) <= CountActive(months)
    decreases |months|
  {
    if |months| > 0 {
      var n := |months|;
      var r := MarkPastMonths(months, current);
      assert r[..n - 1] == MarkPastMonths(months[..n - 1], current);
      MarkPastMonthsCount(months[..n - 1], current);
    }
  }

  /** What `checkActiveMonths` does: it returns `{budget, isCurrent}`, or it
      throws after it has already replaced the caller's month list with the
      marked one. */
  datatype ActiveCheck =
    | Returned(budget: Budget, isCurrent: bool)
    | Threw(error: JsError, mutated: Budget)

  /** `checkActiveMonths(data)` as written, with the current month passed in.
      When fewer or more than three entries stay active, it reads
      `data.monthlyBudget[length - 1].month`, which throws a TypeError on an
      empty list, and then reads the undeclared identifier `sartMonth`, which
      throws a ReferenceError; no month is ever appended. */
  function CheckActiveMonths(data: Budget, now: Month): (r: ActiveCheck)
    ensures r.Returned? <==> CountActive(MarkPastMonths(data.monthlyBudget, now.index)) == 3
    ensures r.Returned? ==> r.isCurrent && r.budget == data.(monthlyBudget := MarkPastMonths(data.monthlyBudget, now.index))
    ensures r.Threw? ==> r.mutated == data.(monthlyBudget := MarkPastMonths(data.monthlyBudget, now.index))
    ensures r.Threw? && |data.monthlyBudget| == 0 ==> r.error.TypeError?
    ensures r.Threw? && |data.monthlyBudget| > 0 ==> r.error == ReferenceError("sartMonth")
  {
    var marked := data.(monthlyBudget := MarkPastMonths(data.monthlyBudget, now.index));
    var isCurrent := CountActive(marked.monthlyBudget) == 3;
    if isCurrent then Returned(marked, true)
    else if |marked.monthlyBudget| == 0 then Threw(TypeError("Cannot read properties of undefined (reading 'month')"), marked)
    else Threw(ReferenceError("sartMonth"), marked)
  }

  /** The discrepancy: a budget whose three months are all active but the
      first lies before the current month of the year always throws. */
  lemma CheckActiveMonthsThrowsOnStaleMonth()
    ensures
      var e := (m: Month) => MonthEntry(m, 0, 0, Bool(true), map[]);
      var data := Budget([e(Month(2026, 8)), e(Month(2026, 9)), e(Month(2026, 10))], map[]);
      CheckActiveMonths(data, Month(2026, 9)) == Threw(ReferenceError("sartMonth"), data.(monthlyBudget :=
        [MonthEntry(Month(2026, 8), 0, 0, Bool(false), map[]), e(Month(2026, 9)), e(Month(2026, 10))]))
  {
    var e := (m: Month) => MonthEntry(m, 0, 0, Bool(true), map[]);
    var months := [e(Month(2026, 8)), e(Month(2026, 9)), e(Month(2026, 10))];
    var marked := MarkPastMonths(months, 9);
    assert marked == [MonthEntry(Month(2026, 8), 0, 0, Bool(false), map[]), e(Month(2026, 9)), e(Month(2026, 10))];
    assert marked[..2][..1] == marked[..1];
    assert marked[..1][..0] == [];
    assert CountActive(marked[..1]) == 0;
    assert CountActive(marked[..2]) == 1;
    assert CountActive(marked) == 2;
  }

  /** `checkActiveMonths` as evidently intended: line 36 reads `startMonth`
      (the last entry's month), so when the active count is not three,
      `monthGenerator(last + 1, 3 - active)` months are appended and
      `isCurrent` is false. */
  method CheckActiveMonthsIntended(data: Budget, now: Month) returns (r: ActiveCheck)
    ensures r.Returned? <==> CountActive(MarkPastMonths(data.monthlyBudget, now.index)) == 3 || |data.monthlyBudget| > 0
    ensures r.Threw? ==> r.error.TypeError?
    ensures r.Returned? ==> r.budget.extra == data.extra
    ensures r.Returned? ==>
      var marked := MarkPastMonths(data.monthlyBudget, now.index);
      var active := CountActive(marked);
      && r.isCurrent == (active == 3)
      && |r.budget.monthlyBudget| == |marked| + (if active < 3 then 3 - active else 0)
      && r.budget.monthlyBudget[..|marked|] == marked
      && (forall i :: |marked| <= i < |r.budget.monthlyBudget| ==>
            r.budget.monthlyBudget[i] == DefaultMonth(Advance(marked[|marked| - 1].month, i - |marked| + 1)))
  {
    var marked := MarkPastMonths(data.monthlyBudget, now.index);
    var active := CountActive(marked);
    if active == 3 {
      return Returned(data.(monthlyBudget := marked), true);
    }
    if |marked| == 0 {
      return Threw(TypeError("Cannot read properties of undefined (reading 'month')"), data.(monthlyBudget := marked));
    }
    var last := marked[|marked| - 1].month;
    var startMonth := Advance(last, 1);
    var endCount: int := 3 - active as int;
    var added := MonthGenerator(Some(startMonth), Some(endCount), now);
    forall i | 0 <= i < |added|
      ensures added[i] == DefaultMonth(Advance(last, i + 1))
    {
      AdvanceAdd(last, 1, i);
    }
    var months := marked + added;
    assert months[..|marked|] == marked;
    r := Returned(data.(monthlyBudget := months), false);
  }

  // ---------------------------------------------------------------------------
  // Automated income
  // ---------------------------------------------------------------------------

  /** An income record: its properties, and its `incomeItems` array kept apart
      (`None` when the property is absent). */
  datatype Income = Income(fields: map<string, JsValue>, incomeItems: Option<seq<map<string, JsValue>>>)

  /** `income.incomeItems && income.incomeItems.length`. */
  predicate HasItems(inc: Income) {
    inc.incomeItems.Some? && |inc.incomeItems.value| > 0
  }

  /** `{...income, ...item, incomeId}` with `incomeItems` deleted: the item's
      properties override the income's, and `incomeId` is the parent's `_id`. */
  function MergeItem(inc: Income, item: map<string, JsValue>): (r: Income)
    ensures r.incomeItems.None? && "incomeItems" !in r.fields
    ensures "incomeId" in r.fields && r.fields["incomeId"] == Get(inc.fields, "_id")
    ensures forall k :: k in item && k != "incomeId" && k != "incomeItems" ==> k in r.fields && r.fields[k] == item[k]
    ensures forall k :: k in inc.fields && k !in item && k != "incomeId" && k != "incomeItems" ==> k in r.fields && r.fields[k] == inc.fields[k]
    ensures forall k :: k in r.fields ==> k in inc.fields || k in item || k == "incomeId"
  {
    Income((inc.fields + item)["incomeId" := Get(inc.fields, "_id")] - {"incomeItems"}, None)
  }

  /** The records one income contributes: one merged record per item when it
      has items, otherwise the income itself. */
  function Expand(inc: Income): (r: seq<Income>)
    ensures HasItems(inc) ==> |r| == |inc.incomeItems.value|
    ensures !HasItems(inc) ==> r == [inc]
    ensures HasItems(inc) ==> forall j :: 0 <= j < |r| ==> r[j] == MergeItem(inc, inc.incomeItems.value[j])
  {
    if HasItems(inc) then
      seq(|inc.incomeItems.value|, j requires 0 <= j < |inc.incomeItems.value| => MergeItem(inc, inc.incomeItems.value[j]))
    else [inc]
  }

  /** How many records an income contributes. */
  function ExpandCount(inc: Income): nat {
    if HasItems(inc) then |inc.incomeItems.value| else 1
  }

  function TotalCount(list: seq<Income>): nat {
    if |list| == 0 then 0 else ExpandCount(list[0]) + TotalCount(list[1..])
  }

  /** The `forEach` of `formatAutomatedIncome`, before sorting. */
  function Flatten(list: seq<Income>): (r: seq<Income>)
    ensures |r| == TotalCount(list)
    ensures forall k :: 0 <= k < |r| ==> !HasItems(r[k])
  {
    if |list| == 0 then [] else Expand(list[0]) + Flatten(list[1..])
  }

  /** Flattening distributes over concatenation, so each income's records
      appear in input order as one block. */
  lemma {:induction false} FlattenAppend(a: seq<Income>, b: seq<Income>)
    ensures Flatten(a + b) == Flatten(a) + Flatten(b)
    decreases |a|
  {
    if |a| == 0 {
      assert a + b == b;
    } else {
      assert (a + b)[1..] == a[1..] + b;
      FlattenAppend(a[1..], b);
    }
  }

  /** `formatAutomatedIncome(incomeList)`. The final sort's comparator returns a
      boolean rather than a signed number, so the order it leaves is up to
      the engine; only the multiset of records is determined. */
  method FormatAutomatedIncome(list: seq<Income>) returns (r: seq<Income>)
    ensures multiset(r) == multiset(Flatten(list))
    ensures |r| == TotalCount(list)
    ensures forall k :: 0 <= k < |r| ==> !HasItems(r[k])
  {
    r := Flatten(list);
  }
}
