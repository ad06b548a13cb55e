/** The expense list's state logic: the preview row, multi-select with its
    checkboxes, bulk deletion, and the "due" line of each row. */
module ExpenseList {
  import opened JsValues
  import UtilHelper

  /** An expense as the list sees it: its id, its selection flag (undefined
      until first toggled), and its recurring flag. */
  datatype Expense = Expense(id: string, isSelected: JsValue, isRecurring: JsValue)

  predicate Selected(e: Expense) {
    Truthy(e.isSelected)
  }

  /** The list's state: the expenses it was given, the items it shows, the
      loading flag, the row opened for preview and the multi-select flag. */
  datatype ListState = ListState(expenses: seq<Expense>, items: seq<Expense>, loading: bool, previewRow: JsValue, multiSelectEnabled: bool)

  /** The state before the first effect: `items` is the empty string in the
      component, which is no list; it is modelled as the empty list. */
  const InitialState: ListState := ListState([], [], true, Str("0"), false)

  /** The effect that runs when `expenses` changes: with a list, it is shown
      and the preview row is the first expense's id (undefined for an empty
      list) or `'0'` without preview; without a list the view stays loading. */
  function OnExpenses(st: ListState, expenses: Option<seq<Expense>>, showPreview: bool): (r: ListState)
    ensures expenses.None? ==> r == st.(loading := true)
    ensures expenses.Some? ==> r.expenses == expenses.value && r.items == expenses.value && !r.loading
    ensures expenses.Some? ==> r.multiSelectEnabled == st.multiSelectEnabled
    ensures expenses.Some? && !showPreview ==> r.previewRow == Str("0")
    ensures expenses.Some? && showPreview ==>
      r.previewRow == (if |expenses.value| == 0 then Undefined else Str(expenses.value[0].id))
  {
    match expenses
    case None => st.(loading := true)
    case Some(xs) =>
      var preview := if !showPreview then Str("0") else if |xs| == 0 then Undefined else Str(xs[0].id);
      st.(expenses := xs, items := xs, loading := false, previewRow := preview)
  }

  /** A checkbox's `onValueChange` on the list state: the toggled expenses
      replace both the list given and the list shown. */
  function OnCheckbox(st: ListState, id: string): (r: ListState)
    ensures r.expenses == r.items && |r.items| == |st.expenses|
    ensures forall i :: 0 <= i < |r.items| ==>
      r.items[i].id == st.expenses[i].id && (Selected(r.items[i]) <==> (Selected(st.expenses[i]) != (st.expenses[i].id == id)))
    ensures r.(expenses := st.expenses, items := st.items) == st
  {
    var xs := ToggleCheck(st.expenses, id);
    st.(expenses := xs, items := xs)
  }

  /** `resetSelection()`: every expense unselected, nothing else changed. */
  function ResetSelection(xs: seq<Expense>): (r: seq<Expense>)
    ensures |r| == |xs|
    ensures forall i :: 0 <= i < |r| ==> r[i] == xs[i].(isSelected := Bool(false))
  {
    seq(|xs|, i requires 0 <= i < |xs| => xs[i].(isSelected := Bool(false)))
  }

  /** A checkbox's `onValueChange`: every expense with the tapped id has its
      selection negated. */
  function ToggleCheck(xs: seq<Expense>, id: string): (r: seq<Expense>)
    ensures |r| == |xs|
    ensures forall i :: 0 <= i < |r| ==> r[i].id == xs[i].id && r[i].isRecurring == xs[i].isRecurring
    ensures forall i :: 0 <= i < |r| && xs[i].id != id ==> r[i] == xs[i]
    ensures forall i :: 0 <= i < |r| && xs[i].id == id ==> (Selected(r[i]) <==> !Selected(xs[i]))
  {
    seq(|xs|, i requires 0 <= i < |xs| =>
      if xs[i].id == id then xs[i].(isSelected := Bool(!Truthy(xs[i].isSelected))) else xs[i])
  }

  /** The ids of the selected expenses, in list order
      (`items.filter(itm => itm.isSelected).map(itm => itm._id)`). */
  function SelectedIds(xs: seq<Expense>): (r: seq<string>)
    ensures |r| <= |xs|
    ensures forall id :: id in r <==> exists i :: 0 <= i < |xs| && xs[i].id == id && Selected(xs[i])
  {
    if |xs| == 0 then []
    else
      var rest := SelectedIds(xs[1..]);
      assert forall i :: 1 <= i < |xs| ==> xs[1..][i - 1] == xs[i];
      if Selected(xs[0]) then [xs[0].id] + rest else rest
  }

  lemma {:induction false} SelectedIdsAppend(a: seq<Expense>, b: seq<Expense>)
    ensures SelectedIds(a + b) == SelectedIds(a) + SelectedIds(b)
    decreases |a|
  {
    if |a| == 0 {
      assert a + b == b;
    } else {
      assert (a + b)[1..] == a[1..] + b;
      SelectedIdsAppend(a[1..], b);
    }
  }

  /** After a reset nothing is selected. */
  lemma {:induction false} ResetSelectsNothing(xs: seq<Expense>)
    ensures SelectedIds(ResetSelection(xs)) == []
    decreases |xs|
  {
    if |xs| > 0 {
      assert ResetSelection(xs)[1..] == ResetSelection(xs[1..]);
      ResetSelectsNothing(xs[1..]);
    }
  }

  /** Tapping the same checkbox twice restores which expenses are selected
      (an undefined flag comes back as `false`, which reads the same). */
  lemma ToggleTwiceRestoresSelection(xs: seq<Expense>, id: string)
    ensures var r := ToggleCheck(ToggleCheck(xs, id), id);
      |r| == |xs| && forall i :: 0 <= i < |r| ==> (Selected(r[i]) <==> Selected(xs[i]))
    ensures SelectedIds(ToggleCheck(ToggleCheck(xs, id), id)) == SelectedIds(xs)
  {
    var r := ToggleCheck(ToggleCheck(xs, id), id);
    SameSelectionSameIds(r, xs);
  }

  /** Lists with the same ids and the same selection give the same ids to delete. */
  lemma {:induction false} SameSelectionSameIds(a: seq<Expense>, b: seq<Expense>)
    requires |a| == |b|
    requires forall i :: 0 <= i < |a| ==> a[i].id == b[i].id && (Selected(a[i]) <==> Selected(b[i]))
    ensures SelectedIds(a) == SelectedIds(b)
    decreases |a|
  {
    if |a| > 0 {
      SameSelectionSameIds(a[1..], b[1..]);
    }
  }

  /** `toggleMultiselect(reset)`: multi-select flips; turning it off with
      `reset` clears every selection. The returned flag is what the
      `onMultiSelectEnabled` callback, when given, receives. */
  function ToggleMultiselect(st: ListState, reset: bool): (r: (ListState, bool))
    ensures r.1 == !st.multiSelectEnabled && r.0.multiSelectEnabled == r.1
    ensures reset && st.multiSelectEnabled ==>
      r.0.expenses == ResetSelection(st.expenses) && r.0.items == r.0.expenses
    ensures !(reset && st.multiSelectEnabled) ==> r.0 == st.(multiSelectEnabled := r.1)
  {
    var enabled := !st.multiSelectEnabled;
    var st' := st.(multiSelectEnabled := enabled);
    if reset && !enabled then
      var xs := ResetSelection(st.expenses);
      (st'.(expenses := xs, items := xs), enabled)
    else (st', enabled)
  }

  /** A long press followed by another long press leaves multi-select as it
      was, with nothing selected when it started off. */
  lemma LongPressTwice(st: ListState)
    requires !st.multiSelectEnabled
    ensures var twice := ToggleMultiselect(ToggleMultiselect(st, true).0, true).0;
      !twice.multiSelectEnabled && SelectedIds(twice.expenses) == []
  {
    ResetSelectsNothing(st.expenses);
  }

  /** `deleteMany()`: loading starts, multi-select flips without clearing
      the selection, and the ids of the selected items, in list order, go to
      `onDeleteMany`. Loading ends only when that call resolves: `resolved`
      says whether it did, and on a rejection the error propagates with the
      view still loading. */
  function DeleteMany(st: ListState, resolved: bool): (r: (ListState, seq<string>))
    ensures r.0 == st.(multiSelectEnabled := !st.multiSelectEnabled, loading := !resolved)
    ensures r.1 == SelectedIds(st.items)
    ensures forall id :: id in r.1 <==> exists i :: 0 <= i < |st.items| && st.items[i].id == id && Selected(st.items[i])
  {
    var toggled := ToggleMultiselect(st, false).0;
    (toggled.(loading := !resolved), SelectedIds(toggled.items))
  }

  /** A freshly loaded list with nothing selected, one checkbox tapped, then a
      bulk delete: exactly the rows bearing the tapped id are handed on, once
      each and in list order, and the view stays loading exactly when the
      deletion was rejected. */
  lemma LoadTapDelete(st: ListState, xs: seq<Expense>, showPreview: bool, id: string, resolved: bool)
    requires SelectedIds(xs) == []
    ensures var loaded := OnExpenses(st, Some(xs), showPreview);
      var r := DeleteMany(OnCheckbox(loaded, id), resolved);
      && r.0.loading == !resolved
      && r.1 == IdsOf(xs, id)
  {
    TapSelectsExactly(xs, id);
  }

  /** One copy of `id` per row that bears it, in list order. */
  function IdsOf(xs: seq<Expense>, id: string): (r: seq<string>)
    ensures forall k :: 0 <= k < |r| ==> r[k] == id
    ensures |r| > 0 <==> exists i :: 0 <= i < |xs| && xs[i].id == id
  {
    if |xs| == 0 then []
    else
      assert forall i :: 1 <= i < |xs| ==> xs[1..][i - 1] == xs[i];
      (if xs[0].id == id then [id] else []) + IdsOf(xs[1..], id)
  }

  /** With nothing selected, tapping a checkbox selects exactly the rows with
      its id. */
  lemma {:induction false} TapSelectsExactly(xs: seq<Expense>, id: string)
    requires SelectedIds(xs) == []
    ensures SelectedIds(ToggleCheck(xs, id)) == IdsOf(xs, id)
    decreases |xs|
  {
    if |xs| > 0 {
      assert !Selected(xs[0]);
      assert SelectedIds(xs[1..]) == [];
      assert ToggleCheck(xs, id)[1..] == ToggleCheck(xs[1..], id);
      TapSelectsExactly(xs[1..], id);
    }
  }

  /** The "due" line of a row: `One-Time ` for a non-recurring expense, then
      the month's long name and the day with its ordinal suffix. */
  function DueText(day: nat, isRecurring: JsValue, monthName: string): (r: string)
    ensures |r| == (if Truthy(isRecurring) then 5 else 14) + |monthName| + 1 + |NatToString(day)| + |UtilHelper.Nth(day)|
    ensures !Truthy(isRecurring) ==> r[..9] == "One-Time "
    ensures !Truthy(isRecurring) ==> r[9..14] == "Due: "
    ensures Truthy(isRecurring) ==> r[..5] == "Due: "
    ensures var tail := monthName + " " + NatToString(day) + UtilHelper.Nth(day);
      r[|r| - |tail|..] == tail
  {
    var head := (if !Truthy(isRecurring) then "One-Time " else "") + "Due: ";
    var tail := monthName + " " + NatToString(day) + UtilHelper.Nth(day);
    assert (head + tail)[..|head|] == head && (head + tail)[|head|..] == tail;
    head + tail
  }

  /** The prefix tells one-time from recurring expenses apart: a line starts
      with `One-Time ` exactly when the expense is not recurring. */
  lemma DueTextPrefix(day: nat, isRecurring: JsValue, monthName: string)
    ensures var r := DueText(day, isRecurring, monthName);
      |r| >= 9 && (r[..9] == "One-Time " <==> !Truthy(isRecurring))
  {
    var r := DueText(day, isRecurring, monthName);
    if Truthy(isRecurring) {
      assert r[0] == 'D';
    }
  }
}
