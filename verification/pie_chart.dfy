/** The monthly summary pie chart: the five slices derived from a month's
    totals, the default selection, and the arc highlighting of the selected
    slice. Amounts are integer cents. */
module PieChart {
  import opened JsValues

  datatype PieData = PieData(totalExpenses: int, expensesPaidToDate: int, balance: int, totalIncome: int)

  datatype Arc = Arc(outerRadius: string, padAngle: real)

  /** A slice: its key, its label (the `name` field) and displayed value, the signed value kept for
      the balance slice, the value its press selects, and its arc. */
  datatype Slice = Slice(key: nat, name: string, value: int, rawValue: Option<int>, pressValue: int, fill: string, arc: Arc)

  /** The selected slice, identified by its label: `{label: null}` at first. */
  datatype Selection = Selection(name: Option<string>, value: Option<int>)

  const Labels: seq<string> := ["Expenses", "Total Paid", "Unpaid", "Balance", "Income"]

  /** The arc of a slice: pulled out when it is the selected one. */
  function ArcFor(name: string, selected: Option<string>): (a: Arc)
    ensures a.outerRadius == "100%" <==> selected == Some(name)
    ensures a.padAngle == (if selected == Some(name) then 0.06 else 0.01)
  {
    if selected == Some(name) then Arc("100%", 0.06) else Arc("95%", 0.01)
  }

  predicate Highlighted(s: Slice) {
    s.arc.outerRadius == "100%"
  }

  /** `constructSlicesFromData()` with the name selected at that moment. */
  function ConstructSlices(d: PieData, selected: Option<string>): (r: seq<Slice>)
    ensures |r| == 5
    ensures forall i :: 0 <= i < 5 ==> r[i].key == i + 1 && r[i].name == Labels[i]
    ensures r[0].value == d.totalExpenses && r[1].value == d.expensesPaidToDate && r[4].value == d.totalIncome
    ensures r[2].value == d.totalExpenses - d.expensesPaidToDate
    ensures r[3].value >= 0 && (r[3].value == d.balance || r[3].value == -d.balance) && r[3].rawValue == Some(d.balance)
    ensures forall i :: 0 <= i < 5 && i != 3 ==> r[i].rawValue.None? && r[i].pressValue == r[i].value
    ensures r[3].pressValue == d.balance
    ensures forall i :: 0 <= i < 5 ==> (Highlighted(r[i]) <==> selected == Some(r[i].name))
  {
    var unpaid := d.totalExpenses - d.expensesPaidToDate;
    [ Slice(1, "Expenses", d.totalExpenses, None, d.totalExpenses, "#cc0066", ArcFor("Expenses", selected)),
      Slice(2, "Total Paid", d.expensesPaidToDate, None, d.expensesPaidToDate, "#0066ff", ArcFor("Total Paid", selected)),
      Slice(3, "Unpaid", unpaid, None, unpaid, "#9797ac", ArcFor("Unpaid", selected)),
      Slice(4, "Balance", if d.balance < 0 then d.balance * -1 else d.balance, Some(d.balance), d.balance, "#9900cc",
            ArcFor("Balance", selected)),
      Slice(5, "Income", d.totalIncome, None, d.totalIncome, "#33cc00", ArcFor("Income", selected)) ]
  }

  /** The five labels are distinct. */
  lemma LabelsDistinct()
    ensures forall i, j :: 0 <= i < j < |Labels| ==> Labels[i] != Labels[j]
  {
  }

  /** Whatever is selected, at most one slice is highlighted, and exactly one
      when the selection names one of the five labels. */
  lemma SingleHighlight(d: PieData, selected: Option<string>)
    ensures var r := ConstructSlices(d, selected);
      && (forall i, j :: 0 <= i < j < 5 && Highlighted(r[i]) ==> !Highlighted(r[j]))
      && ((exists i :: 0 <= i < 5 && Highlighted(r[i])) <==> selected.Some? && selected.value in Labels)
  {
    LabelsDistinct();
    var r := ConstructSlices(d, selected);
    if selected.Some? && selected.value in Labels {
      var i :| 0 <= i < 5 && Labels[i] == selected.value;
      assert Highlighted(r[i]);
    }
  }

  /** The first slice with the given name (`slices.find`). */
  function FindByLabel(slices: seq<Slice>, name: string): (r: Option<nat>)
    ensures r.Some? ==> r.value < |slices| && slices[r.value].name == name
    ensures r.Some? ==> forall j :: 0 <= j < r.value ==> slices[j].name != name
    ensures r.None? ==> forall j :: 0 <= j < |slices| ==> slices[j].name != name
  {
    if |slices| == 0 then None
    else if slices[0].name == name then Some(0)
    else match FindByLabel(slices[1..], name)
      case None => None
      case Some(k) => Some(k + 1)
  }

  /** The default-selection step: when `defaultSelection` is a non-empty name
      that some slice carries, that slice becomes selected with its raw value
      when truthy (non-zero), else its displayed value; otherwise the
      selection stays as it was. */
  function DefaultSelection(slices: seq<Slice>, defaultSelection: Option<string>, current: Selection): (r: Selection)
    ensures (defaultSelection.None? || defaultSelection.value == "") ==> r == current
    ensures defaultSelection.Some? && defaultSelection.value != "" ==>
      match FindByLabel(slices, defaultSelection.value)
      case None => r == current
      case Some(k) =>
        && r.name == Some(defaultSelection.value)
        && r.value == Some(if slices[k].rawValue.Some? && slices[k].rawValue.value != 0 then slices[k].rawValue.value else slices[k].value)
  {
    if defaultSelection.None? || defaultSelection.value == "" then current
    else
      match FindByLabel(slices, defaultSelection.value)
      case None => current
      case Some(k) =>
        var s := slices[k];
        Selection(Some(s.name), Some(if s.rawValue.Some? && s.rawValue.value != 0 then s.rawValue.value else s.value))
  }

  /** Selecting the balance by default yields the signed balance: the raw
      value when non-zero, and when it is zero the displayed |0| is the same. */
  lemma DefaultBalanceIsSigned(d: PieData, selected: Option<string>, current: Selection)
    ensures DefaultSelection(ConstructSlices(d, selected), Some("Balance"), current) == Selection(Some("Balance"), Some(d.balance))
  {
    var r := ConstructSlices(d, selected);
    assert FindByLabel(r, "Balance") == Some(3) by {
      assert r[0].name != "Balance" && r[1].name != "Balance" && r[2].name != "Balance";
      assert r[1..][1..][1..][0] == r[3];
    }
  }

  /** The chart's state: its slices, its selection and its loading flag. */
  datatype ChartState = ChartState(slices: seq<Slice>, selection: Selection, inProgress: bool)

  /** The effect that runs when `pieData` changes: with data, the slices are
      rebuilt for the current selection and the default selection applied;
      without, only the loading flag is raised. */
  function OnPieData(st: ChartState, pieData: Option<PieData>, defaultSelection: Option<string>): (r: ChartState)
    ensures pieData.None? ==> r == st.(inProgress := true)
    ensures pieData.Some? ==>
      && !r.inProgress
      && r.slices == ConstructSlices(pieData.value, st.selection.name)
      && r.selection == DefaultSelection(r.slices, defaultSelection, st.selection)
  {
    match pieData
    case None => st.(inProgress := true)
    case Some(d) =>
      var slices := ConstructSlices(d, st.selection.name);
      ChartState(slices, DefaultSelection(slices, defaultSelection, st.selection), false)
  }

  /** The effect that runs when the selected name changes: every slice's arc
      is recomputed for it (when there are slices). */
  function OnSelectedLabel(slices: seq<Slice>, selected: Option<string>): (r: seq<Slice>)
    ensures |r| == |slices|
    ensures forall i :: 0 <= i < |r| ==> r[i].(arc := slices[i].arc) == slices[i]
    ensures forall i :: 0 <= i < |r| ==> (Highlighted(r[i]) <==> selected == Some(r[i].name))
  {
    if |slices| > 0 then
      seq(|slices|, i requires 0 <= i < |slices| => slices[i].(arc := ArcFor(slices[i].name, selected)))
    else slices
  }

  /** Labels that are pairwise distinct leave at most one slice highlighted
      after the effect. */
  lemma OnSelectedLabelSingle(slices: seq<Slice>, selected: Option<string>, i: nat, j: nat)
    requires forall a, b :: 0 <= a < b < |slices| ==> slices[a].name != slices[b].name
    requires i < j < |slices|
    ensures !(Highlighted(OnSelectedLabel(slices, selected)[i]) && Highlighted(OnSelectedLabel(slices, selected)[j]))
  {
    var r := OnSelectedLabel(slices, selected);
    assert r[i].name == slices[i].name && r[j].name == slices[j].name;
  }

  /** A slice's `onPress`: it becomes the selection with the value it carries
      (the signed balance for the balance slice). */
  function PressSlice(slices: seq<Slice>, i: nat): (r: Selection)
    requires i < |slices|
    ensures r.name == Some(slices[i].name)
    ensures r.value == Some(slices[i].pressValue)
  {
    Selection(Some(slices[i].name), Some(slices[i].pressValue))
  }

  /** After new data with a default name, once the arc effect has run for
      the new selection, exactly the slice with that name is highlighted. */
  lemma DefaultSelectionHighlighted(st: ChartState, d: PieData, name: string, k: nat)
    requires k < 5 && Labels[k] == name
    ensures var after := OnPieData(st, Some(d), Some(name));
      var shown := OnSelectedLabel(after.slices, after.selection.name);
      && after.selection.name == Some(name)
      && forall i :: 0 <= i < 5 ==> (Highlighted(shown[i]) <==> i == k)
  {
    LabelsDistinct();
    var after := OnPieData(st, Some(d), Some(name));
    var found := FindByLabel(after.slices, name);
    assert after.slices[k].name == name;
    assert found.Some?;
  }

  /** Pressing a slice of a fresh chart selects it, and the arc effect then
      highlights that slice alone. */
  lemma PressHighlightsPressed(d: PieData, selected: Option<string>, k: nat)
    requires k < 5
    ensures var slices := ConstructSlices(d, selected);
      var shown := OnSelectedLabel(slices, PressSlice(slices, k).name);
      forall i :: 0 <= i < 5 ==> (Highlighted(shown[i]) <==> i == k)
  {
    LabelsDistinct();
  }
}
