# SimpleBudgetApp core logic in Dafny

This project models the pure logic of the SimpleBudgetApp mobile budgeting app. The app is a React Native program written in JavaScript and TypeScript. The model keeps the decisions the screens and services make and drops the rendering, storage and platform shell around them:

- **Calendar helpers.** The ordinal suffix `nth`, the list of days of a month, the month-list generator, the active-month check, and the flattening of automated income.
- **Onboarding slides.** How configuration groups become numbered, coloured slides. How the slides are sorted. How answered slides fold back into a settings object. How the onboarding screen records an answer and splices optional slides in and out.
- **Budget context reducer.** Four state fields and five actions.
- **Monthly summary.** The pie chart's five slices and its single highlighted slice. The total shown under a list.
- **Expense and income lists.** Multi-select, bulk deletion, the due line, the Expected/Received status and the type line.
- **Login/signup form.** Required fields, the submitted payload, the loading guard and the per-field error lines.
- **Data-access layer.** The statement text and parameter lists that `getAll`, `insert`, `update` and `remove` send to SQLite. This covers both the JavaScript service and its typed twin.

JavaScript values that matter to a branch are a `JsValue` datatype: undefined, null, booleans, integers and strings. Truthiness and the truncated remainder of JavaScript's `%` are written out explicitly. Money is integer cents. Dates are (year, month index, day) triples. "Now" and "today" are parameters. A thrown exception is the `Err` side of a `Result`.

Modules, one per file:

- `JsValues`: JavaScript values and the number/string conversions.
- `UtilHelper`
- `IntroSlides`
- `IntroScreen`
- `BudgetContext`
- `PieChart`
- `TotalAmount`
- `ExpenseList`
- `IncomeList`
- `AuthForm`
- `SqlBuilder` and `TypedDatabase`

## Model

| member | source | states |
|---|---|---|
| JsValues.JsRem | services/utils/utilHelper.js:46 | the remainder takes the dividend's sign and is smaller in magnitude than the divisor, as JavaScript's `%` does |
| JsValues.ParseNatToString | services/utils/utilHelper.js:52 | `num.toString()` of a natural number gives decimal digits that parse back to the same number |
| JsValues.NatToStringInjective | services/utils/utilHelper.js:52 | different numbers give different decimal strings |
| UtilHelper.Nth | services/utils/utilHelper.js:46 | the suffix is always one of "st", "nd", "rd", "th" |
| UtilHelper.NthIsEnglishSuffix | services/utils/utilHelper.js:45-46 | the index arithmetic picks "st"/"nd"/"rd" exactly when the absolute value ends in 1/2/3 outside 11–13 of a hundred, and "th" otherwise |
| UtilHelper.SuffixIndexRule | services/utils/utilHelper.js:46 | the computed array index falls inside the three-entry array exactly for last digits 1–3 outside the teens, and then equals that digit minus one |
| UtilHelper.NthSymmetric | services/utils/utilHelper.js:46 | a negative number gets the same suffix as its absolute value |
| UtilHelper.ConstructDaysInMonth | services/utils/utilHelper.js:48-56 | exactly 31 entries; entry i is the decimal text of i + 1 and parses back to i + 1 |
| UtilHelper.Advance | services/utils/utilHelper.js:20 | moving k months forward adds k to the absolute month number, carrying into the year |
| UtilHelper.AdvanceAdd | services/utils/utilHelper.js:20 | advancing j months and then k months is advancing j + k months |
| UtilHelper.MonthGenerator | services/utils/utilHelper.js:11-23 | `endCount` entries, or 3 when it is absent or 0, or none when it is negative; every entry is a fresh default record with zero totals; entry i is the start month (or now) advanced i months |
| UtilHelper.MarkPastMonths | services/utils/utilHelper.js:26-31 | `active` becomes false exactly on entries whose month index is below the current one, without looking at the year; every other entry and every other field is unchanged |
| UtilHelper.MarkPastMonthsIdempotent | services/utils/utilHelper.js:27-31 | a second marking pass changes nothing |
| UtilHelper.MarkPastMonthsCount | services/utils/utilHelper.js:27-32 | marking never increases the number of active entries |
| UtilHelper.CheckActiveMonths | services/utils/utilHelper.js:25-43 | it returns `isCurrent = true` with the marked list exactly when three entries stay active; otherwise it throws after the list has been replaced: a TypeError on an empty list, else a ReferenceError on `sartMonth` |
| UtilHelper.CheckActiveMonthsThrowsOnStaleMonth | services/utils/utilHelper.js:33-36 | a budget of three active months whose first lies before the current month throws instead of rolling forward |
| UtilHelper.CheckActiveMonthsIntended | services/utils/utilHelper.js:32-42 | with line 36 reading `startMonth`, a non-current budget gets `3 − active` default months appended after its last month, and the marked entries stay as a prefix |
| UtilHelper.MergeItem | services/utils/utilHelper.js:66-72 | item properties override the income's, `incomeId` is the parent's `_id`, `incomeItems` is gone, and no other key appears |
| UtilHelper.Expand | services/utils/utilHelper.js:62-77 | an income with non-empty items yields one merged record per item in item order; any other income passes through as is |
| UtilHelper.Flatten | services/utils/utilHelper.js:60-79 | the record count is the sum of the per-income counts, and no record still carries items |
| UtilHelper.FlattenAppend | services/utils/utilHelper.js:61-78 | flattening distributes over concatenation, so each income's records form one block in input order |
| UtilHelper.FormatAutomatedIncome | services/utils/utilHelper.js:58-82 | the result is a permutation of the flattened records, with the same count and no nested items |
| IntroSlides.BuildSlide | services/utils/IntroSlidesComposer.js:34-42 | id `section-k` (an absent section spelt "undefined"), title the section as it is (absent with it), `form` true, and colour `Colors[k mod 12]`, each unless the element sets it itself, in which case the element's own id, title, form or colour is kept; `value` is the default exactly when the default is defined; section, default, order, field, parent, children and display properties are kept |
| IntroSlides.BuildElement | services/utils/IntroSlidesComposer.js:44-57 | the optional slides stay nested, and optional slide j is built at counter k + 1 + j |
| IntroSlides.GenerateSlideGroup | services/utils/IntroSlidesComposer.js:31-62 | one slide per element in input order, element i built at the running counter; the returned count is the start plus the number of elements plus all their optional slides |
| IntroSlides.CounterGaps | services/utils/IntroSlidesComposer.js:41-56 | the counter moves from one element to the next by one plus that element's optional-slide count |
| IntroSlides.CountersIncrease | services/utils/IntroSlidesComposer.js:41-56 | later elements get strictly larger counters, beyond every optional slide of earlier ones, so no two slides of a group share a number |
| IntroSlides.InsertByOrder | services/utils/IntroSlidesComposer.js:80 | inserting into an ordered list keeps it ordered and adds exactly that slide |
| IntroSlides.SortByOrder | services/utils/IntroSlidesComposer.js:80 | the result is ordered by `order` and is a permutation of the input |
| IntroSlides.SortByOrderStable | services/utils/IntroSlidesComposer.js:80 | the sort is stable: slides of equal `order` keep their relative input order |
| IntroSlides.InsertByOrderStable | services/utils/IntroSlidesComposer.js:80 | an inserted slide goes behind every slide of its own order |
| IntroSlides.SortSortedIdentity | services/utils/IntroSlidesComposer.js:80 | a list already in order is left exactly as it is |
| IntroSlides.ConstructSlides | services/utils/IntroSlidesComposer.js:64-83 | the last slide is the closing slide, and the ones before it are the welcome slide plus the three groups, as an ordered permutation |
| IntroSlides.ConstructSlidesStable | services/utils/IntroSlidesComposer.js:64-83 | slides of equal `order` come out in building order |
| IntroSlides.ConstructKeepsOrderedConfig | services/utils/IntroSlidesComposer.js:64-83 | when the built slides are already in order, the sort changes nothing |
| IntroSlides.ConfiguredInOrder | services/utils/IntroSlidesComposer.js:64-79 | a configuration whose elements carry orders 0, 1–4, 6 and 9 builds seven slides already in order |
| IntroSlides.AppConfigOrders | constants/FieldsConfig.js:5-121 | the application's configuration carries exactly those orders: welcome 0, income 1–4, savings 6, debt 9 |
| IntroSlides.IncomeCount | services/utils/IntroSlidesComposer.js:68-69 | the counter stands at 5 after the income group |
| IntroSlides.SavingsCount | services/utils/IntroSlidesComposer.js:72-73 | the counter stands at 8 after the savings group |
| IntroSlides.DebtCount | services/utils/IntroSlidesComposer.js:76-77 | the counter stands at 10 after the debt group |
| IntroSlides.ConstructedSlidesInOrder | services/utils/IntroSlidesComposer.js:64-83 | the application's eight slides are welcome, the groups in building order, then the closing slide |
| IntroSlides.Write | services/utils/IntroSlidesComposer.js:93-106 | a value lands in `settings[parent][field]` or in `settings[field]`; an existing parent object keeps every other nested value and gains only that field, a falsy entry becomes a one-field object; every other top-level key is unchanged; a truthy non-object parent entry throws, and only it |
| IntroSlides.WriteKeepsStored | services/utils/IntroSlidesComposer.js:93-96 | a stored nested value survives, and cannot make throw, an assignment to a different field of the same parent |
| IntroSlides.WriteChildren | services/utils/IntroSlidesComposer.js:91-99 | the children write in order; only the first assignment can throw, exactly on a truthy non-object parent entry; the last child's value ends up under its field |
| IntroSlides.WriteChildrenKeepsStored | services/utils/IntroSlidesComposer.js:91-99 | children that never use a field leave its stored value in place |
| IntroSlides.ChildStored | services/utils/IntroSlidesComposer.js:91-99 | every child whose field no later child reuses leaves its value under `settings[parent][field]` or `settings[field]` |
| IntroSlides.ApplySlide | services/utils/IntroSlidesComposer.js:88-107 | a slide without a truthy `form` changes nothing; a form slide throws exactly when it assigns through a truthy non-object parent entry; otherwise its own value, or its last child's, lands under its key, and no key is lost |
| IntroSlides.DeconstructSlides | services/utils/IntroSlidesComposer.js:85-111 | the settings always hold `introStatus`; with no form slide they are exactly `{introStatus}` |
| IntroSlides.DeconstructAppend | services/utils/IntroSlidesComposer.js:88-108 | folding a concatenation folds the first part and then continues with the second |
| IntroSlides.LastWriteWins | services/utils/IntroSlidesComposer.js:104-105 | a final top-level form slide never throws and leaves its own value under its field |
| IntroSlides.LastSlideStored | services/utils/IntroSlidesComposer.js:88-107 | when the fold succeeds, a final form slide with a parent leaves its value in the parent object under its field, and one with children leaves its last child's value |
| IntroSlides.DeconstructKeepsUnwritten | services/utils/IntroSlidesComposer.js:86-108 | a key that no slide writes keeps its initial value |
| IntroScreen.ResetToDefaults | app/intro.js:47-54 | on insertion, a child takes its default only when the default is truthy, and the slide takes its default whenever it is defined; nothing else changes |
| IntroScreen.SpliceOut | app/intro.js:57 | `splice(start, n)` keeps the prefix, removes up to n entries and shifts the rest down |
| IntroScreen.SetAnswer | app/intro.js:37-41 | with a child index only that child's value changes, otherwise only the slide's value; an index without such a child throws |
| IntroScreen.HandleFormState | app/intro.js:33-62 | the slides before the current one are kept; without optional slides the list keeps its length; `true` inserts the reset optional slides right after the current slide, which then holds those reset slides as its own; any other value removes that many slides after it |
| IntroScreen.ToggleOnThenOff | app/intro.js:45-58 | switching a slide's optional slides on and then off restores every other slide and the list's length; the switch itself holds the second answer and its optional slides reset to their defaults |
| IntroScreen.OffWithoutOnRemovesFollowing | app/intro.js:56-58 | an off value removes the following slides even when they were never inserted |
| IntroScreen.IntroStatus | app/intro.js:66 | the status is "SKIPPED" exactly when the intro was skipped, else "COMPLETE" |
| IntroScreen.HandleDone | app/intro.js:64-71 | the settings handed on carry the status under `introStatus` unless a slide overwrites it |
| IntroScreen.HandleSlideChange | app/intro.js:78-82 | the skip flag survives exactly when it was set and the index does not go back |
| IntroScreen.ForwardKeepsSkip | app/intro.js:80 | moving forward or staying never clears the skip flag |
| IntroScreen.HandleSkip | app/intro.js:73-76 | the skip flag is set, the current index is kept, and the slider is asked for the last slide |
| IntroScreen.SkipThenDone | app/intro.js:64-82 | skipping, then reaching the last slide, makes finishing hand on "SKIPPED" unless a slide writes `introStatus` |
| IntroScreen.SkipThenBack | app/intro.js:64-82 | going back after a skip clears the flag, and finishing hands on "COMPLETE" unless a slide writes `introStatus` |
| BudgetContext.BudgetReducer | context/BudgetContext.js:17-32 | each known action changes exactly its own field (the payload, or '' for CLEAR_ERROR) and every other field is unchanged; an unknown action changes nothing |
| BudgetContext.InitialStateHasNoError | context/BudgetContext.js:10-26 | the initial error message is '', so clearing the error leaves the initial state exactly as it is, and actions on other fields keep the message falsy |
| BudgetContext.DifferentFieldsCommute | context/BudgetContext.js:17-32 | actions on different fields can be applied in either order |
| BudgetContext.SameFieldLastWins | context/BudgetContext.js:19-28 | of two actions on the same field the second decides it |
| BudgetContext.ClearErrorIdempotent | context/BudgetContext.js:25-26 | clearing the error twice is clearing it once, and leaves '' |
| PieChart.ArcFor | components/PieChart.js:35-36 | radius 100% and pad angle 0.06 exactly for the selected name, else 95% and 0.01 |
| PieChart.ConstructSlices | components/PieChart.js:44-112 | five slices keyed 1–5 named Expenses, Total Paid, Unpaid, Balance, Income; unpaid is expenses minus paid; the balance is shown as its absolute value with the signed value kept raw and passed on press; a slice is highlighted exactly when it is the selected one |
| PieChart.LabelsDistinct | components/PieChart.js:47-100 | the five names are pairwise different |
| PieChart.SingleHighlight | components/PieChart.js:54-109 | at most one slice is highlighted, and exactly one when a known name is selected |
| PieChart.FindByLabel | components/PieChart.js:18 | the first slice with the name, or none when no slice has it |
| PieChart.DefaultSelection | components/PieChart.js:17-25 | a non-empty default that names a slice selects it with its raw value when truthy, else its shown value; otherwise the selection is unchanged |
| PieChart.DefaultBalanceIsSigned | components/PieChart.js:17-25 | selecting the balance by default yields the signed balance |
| PieChart.OnPieData | components/PieChart.js:12-29 | with data the slices are rebuilt and loading stops; without data the chart keeps loading |
| PieChart.OnSelectedLabel | components/PieChart.js:31-42 | only the arcs change, and a slice is highlighted exactly when it bears the selected name |
| PieChart.OnSelectedLabelSingle | components/PieChart.js:31-42 | with distinct names no two slices are highlighted together |
| PieChart.PressSlice | components/PieChart.js:49-105 | pressing a slice selects its name with the value it carries |
| PieChart.DefaultSelectionHighlighted | components/PieChart.js:12-42 | after new data with a default name, the arc effect highlights exactly that slice |
| PieChart.PressHighlightsPressed | components/PieChart.js:31-105 | after a press the arc effect highlights the pressed slice only |
| TotalAmount.SumFieldAppend | components/TotalAmount.js:14 | the sum over a concatenation is the sum of the parts' sums |
| TotalAmount.SumFieldFromFront | components/TotalAmount.js:14 | the left fold equals the sum taken from the front |
| TotalAmount.SumFieldIgnoresMissing | components/TotalAmount.js:14 | an item without the field, or with it at zero, adds nothing |
| TotalAmount.SumFieldMonotone | components/TotalAmount.js:14 | with non-negative fields, extending the list never lowers the total |
| TotalAmount.SumFieldNonNegative | components/TotalAmount.js:14 | non-negative fields give a non-negative total |
| TotalAmount.CalcTotalAmount | components/TotalAmount.js:13-16 | no list totals 0, and a list totals the sum of its items' fields |
| TotalAmount.OnItemsOrValue | components/TotalAmount.js:7-20 | with `calculateAmount` the total is the sum; otherwise an undefined value keeps the previous total, a null value throws, and any other value becomes the total |
| ExpenseList.OnExpenses | components/ExpenseListView.js:36-47 | with a list, it is shown and loading stops; the preview row is the first id (undefined when empty) or '0' without preview; without a list the view stays loading |
| ExpenseList.OnCheckbox | components/ExpenseListView.js:137-142 | the tapped rows flip their selection, the others keep theirs, and the toggled list is both given and shown; nothing else changes |
| ExpenseList.ResetSelection | components/ExpenseListView.js:75-81 | same length and order, every expense unselected, nothing else changed |
| ExpenseList.ToggleCheck | components/ExpenseListView.js:137-142 | selection flips exactly on the expenses with the tapped id, and the others are untouched |
| ExpenseList.SelectedIds | components/ExpenseListView.js:113-115 | an id is collected exactly when some selected expense has it |
| ExpenseList.SelectedIdsAppend | components/ExpenseListView.js:113-115 | collection distributes over concatenation, so ids come out in list order |
| ExpenseList.ResetSelectsNothing | components/ExpenseListView.js:75-80 | after a reset no id is collected |
| ExpenseList.ToggleTwiceRestoresSelection | components/ExpenseListView.js:137-142 | tapping the same checkbox twice restores which expenses are selected |
| ExpenseList.SameSelectionSameIds | components/ExpenseListView.js:113-115 | lists with the same ids and the same selection collect the same ids |
| ExpenseList.ToggleMultiselect | components/ExpenseListView.js:89-94 | the flag flips and is reported; the selection is cleared only when turning off with reset |
| ExpenseList.LongPressTwice | components/ExpenseListView.js:89-94 | two long presses from off leave multi-select off with nothing selected |
| ExpenseList.DeleteMany | components/ExpenseListView.js:110-118 | multi-select flips without clearing, loading ends exactly when `onDeleteMany` resolves and stays on when it rejects, and exactly the selected ids of the shown items are handed on, in list order with repeats |
| ExpenseList.TapSelectsExactly | components/ExpenseListView.js:113-142 | with nothing selected, one tap selects exactly the rows bearing its id, and collecting gives that id once per such row |
| ExpenseList.LoadTapDelete | components/ExpenseListView.js:36-142 | after new expenses with nothing selected, one tap and a bulk delete hand on exactly the tapped id, once per row bearing it, and the view stays loading exactly when the deletion is rejected |
| ExpenseList.DueText | components/ExpenseListView.js:69 | "One-Time " before "Due: " for a non-recurring expense, then the month name, the day and its ordinal suffix |
| ExpenseList.DueTextPrefix | components/ExpenseListView.js:69 | the line starts with "One-Time " exactly when the expense is not recurring |
| IncomeList.GetStatus | components/IncomeListView.js:36-47 | a later year is "Expected"; otherwise "Expected" exactly when the day is later than today's and the month is no earlier |
| IncomeList.TodayIsReceived | components/IncomeListView.js:39-43 | today's own date is "Received" |
| IncomeList.GetStatusIntended | components/IncomeListView.js:36-47 | "Expected" exactly when the date is after today |
| IncomeList.StatusAgreesOnLaterYears | components/IncomeListView.js:39-45 | the two agree for later years and within today's month |
| IncomeList.PriorYearStillExpected | components/IncomeListView.js:39-41 | last year's date with a later month and day is still "Expected" as written |
| IncomeList.NextMonthEarlierDayReceived | components/IncomeListView.js:40-43 | next month's date with an earlier day is "Received" as written |
| IncomeList.TypeLabel | components/IncomeListView.js:63 | a missing or empty type shows as "One Time", any other as itself |
| IncomeList.TypeLine | components/IncomeListView.js:67 | the type and a space, then the frequency in parentheses for recurring income only |
| IncomeList.FrequencyOnlyWhenRecurring | components/IncomeListView.js:63-67 | parentheses appear exactly when the type is "Recurring" |
| IncomeList.StatusLine | components/IncomeListView.js:70 | the status, a space, the month name, the day and its ordinal suffix |
| AuthForm.SubmitForm | components/AuthForm.js:33-58 | the error is cleared exactly when one is shown; a submit goes out exactly when the form type's required fields are all filled, with exactly those fields; otherwise errors are on; loading starts only on the valid path |
| AuthForm.Press | components/AuthForm.js:122 | a press while loading does nothing |
| AuthForm.SecondPressIgnored | components/AuthForm.js:33-122 | with no error showing, a second press after a submitted one does nothing |
| AuthForm.OnErrorMessage | components/AuthForm.js:29-31 | a new error message stops loading and changes nothing else |
| AuthForm.ClearedErrorReenablesPress | components/AuthForm.js:29-122 | with an error showing, a submitted press clears it, the resulting prop change stops loading, and a second press submits the same payload again |
| AuthForm.OnErrorMessageIntended | components/AuthForm.js:29-31 | loading stops when a truthy error arrives and is otherwise kept; fields and error flag unchanged |
| AuthForm.SecondPressIgnoredIntended | components/AuthForm.js:29-122 | with the intended effect a pending submit blocks a second press even after the error was cleared |
| AuthForm.NewErrorReenablesIntended | components/AuthForm.js:29-122 | with the intended effect a new error re-enables the button and the next press submits again |
| AuthForm.ShownErrors | components/AuthForm.js:73-115 | a field's line shows exactly when errors are on and the field is empty; the name lines only on the signup form |
| AuthForm.SubmitShowsErrorsIffBlocked | components/AuthForm.js:37-115 | after a submit some error line shows exactly when nothing was submitted |
| AuthForm.EmptyFormBlocked | components/AuthForm.js:17-58 | the reset form shows no error, and submitting it is blocked and names email and password |
| SqlBuilder.Keys | services/DatabaseService.js:62 | the keys in property order |
| SqlBuilder.Values | services/DatabaseService.js:64 | the values in the same order as the keys |
| SqlBuilder.CountJoin | services/DatabaseService.js:63-74 | joining with ", " adds no '?' beyond the parts' own |
| SqlBuilder.CountAllAssignments | services/DatabaseService.js:72-74 | each `key = ?` adds exactly one '?' to its key's own |
| SqlBuilder.GetAll | services/DatabaseService.js:52-59 | the query ends in the table name and has no parameters; the rows come back in index order with the same count |
| SqlBuilder.SelectSql | services/DatabaseService.js:53 | the text ends in the table name and adds no placeholder |
| SqlBuilder.InsertSql | services/DatabaseService.js:62-66 | the text has one placeholder per key beyond any '?' in the names |
| SqlBuilder.Insert | services/DatabaseService.js:61-69 | the parameters are the values in key order, and the text has one placeholder per field |
| SqlBuilder.UpdateSql | services/DatabaseService.js:72-76 | one placeholder per key plus one for the id, beyond any '?' in the names |
| SqlBuilder.Update | services/DatabaseService.js:71-77 | the parameters are the values then the id last, and the text has one placeholder per field plus one |
| SqlBuilder.RemoveSql | services/DatabaseService.js:80 | exactly one placeholder beyond any '?' in the table name |
| SqlBuilder.Remove | services/DatabaseService.js:79-81 | the only parameter is the id |
| SqlBuilder.PlaceholdersMatchParams | services/DatabaseService.js:61-81 | with names free of '?', every statement has exactly as many placeholders as parameters |
| SqlBuilder.TextIgnoresValues | services/DatabaseService.js:53-80 | the statement text depends only on the table and keys, never on the values or the id |
| TypedDatabase.Update | services/database.ts:71-77 | the parameters are the values in key order and then the numeric id; the text is the one the JavaScript `update` builds for any id |
| TypedDatabase.Remove | services/database.ts:79-81 | the numeric id is the only parameter; the text is the one the JavaScript `remove` builds for any id |

## Left out

- Opening SQLite, the table definitions and running statements are I/O. `getAll` receives the returned rows as a parameter.
- `getCurrentMonth` (AsyncStorage), `getMonthLong` and every `toLocaleString` are left out. They depend on storage and the platform locale. Month names enter the due and status lines as a parameter, and totals are integers rather than formatted currency.
- JavaScript `Date` arithmetic is left out. Months are (year, month index) pairs and dates are (year, month index, day) triples. Day overflow in `setMonth` and time zones are not modelled. The current date is a parameter.
- Money is integer cents rather than floating point. In TotalAmount, a string-valued field concatenates in JavaScript rather than adding; only numeric fields are modelled.
- UtilHelper.FormatAutomatedIncome: the result is stated only up to permutation. The sort comparator returns a boolean, so the final order depends on the engine.
- IntroScreen.HandleFormState: the model copies the optional slides. In the app they are the very objects nested in the triggering slide, so answers given on them also show through that slide. That aliasing is not modelled.
- The slider itself is left out: HandleSkip returns the index it asks the slider to go to, and the move reaches the model only when the slider reports it through HandleSlideChange. Slide rendering is left out too.
- The authentication context that owns the login and signup error message is not part of this model. ClearedErrorReenablesPress takes the message after `clearError()` as a parameter: any falsy value, as the budget context's own CLEAR_ERROR sets ''.
- The async fetchers of the budget context are left out because they are database I/O. Only the initial state and the reducer are modelled.
- The list view starts with `items` set to the empty string, which is modelled as the empty list.
- IntroSlides.ConstructSlides: takes the slide configuration as a parameter. ConstructedSlidesInOrder applies it to the application's own configuration, but `require`d images are not modelled.
- SqlBuilder.InsertSql: the contract states the placeholder count and not the full statement text. The text is the template itself, and its point for a caller is that placeholders and parameters line up.
- SqlBuilder.UpdateSql: states the placeholder count and not the full text, for the same reason.
- SqlBuilder.RemoveSql: states the placeholder count and not the full text, for the same reason.
- The typed twin's `insert` and `getAll` build exactly the same text as the JavaScript service. They are modelled once, in SqlBuilder, and only the functions whose id type differs have their own members.
- Recurring-event expansion, occurrence overrides and deletion tombstones do not appear in this code, so they are not modelled.
- Rendering, navigation, styles, the form masking library and the other screens are not part of this model.

## Findings

| source | as written | input that shows it | evidently intended | confidence | as-written member | corrected member |
|---|---|---|---|---|---|---|
| services/utils/utilHelper.js:36 | when fewer than three months are active, the next start month is computed from the undeclared `sartMonth`, which throws a ReferenceError before any month is appended | months Sep, Oct, Nov 2026, all active, checked in October: Sep is marked inactive, and the call throws | read `startMonth`, the last entry's month, and append `3 − active` months after it | not executed | UtilHelper.CheckActiveMonths, UtilHelper.CheckActiveMonthsThrowsOnStaleMonth | UtilHelper.CheckActiveMonthsIntended |
| components/AuthForm.js:29-35 | the effect that stops loading runs on every change of `errorMessage`, including the change to '' caused by the press's own `clearError()`, so the button is live again while `onSubmit` is still pending | an error message showing and a complete login form: the press submits and clears the error, the effect stops loading, and a second press submits again | stop loading only when a new error arrives | not executed; medium, since the prop change depends on the screens passing the context's message | AuthForm.OnErrorMessage, AuthForm.ClearedErrorReenablesPress | AuthForm.OnErrorMessageIntended, AuthForm.SecondPressIgnoredIntended, AuthForm.NewErrorReenablesIntended |
| components/IncomeListView.js:39-43 | once the year is not later than today's, "Expected" needs both a later day and a no-earlier month, independently of the year | date 2025-12-20 with today 2026-10-11 gives "Expected"; date 2026-11-05 with today 2026-10-11 gives "Received" | "Expected" exactly when the date is after today | not executed | IncomeList.GetStatus, IncomeList.PriorYearStillExpected, IncomeList.NextMonthEarlierDayReceived | IncomeList.GetStatusIntended |
