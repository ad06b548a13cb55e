/** The total shown under a list: the sum of one numeric field over the items,
    or a value handed in directly. Amounts are integer cents; the currency
    formatting of the shown total is not modelled, so the shown total is the
    amount itself. */
module TotalAmount {
  import opened JsValues

  /** An item's numeric fields; a missing field reads as undefined. */
  type Item = map<string, int>

  /** `b[fieldKey] || 0`: a missing field (or a zero) adds nothing. */
  function FieldOrZero(item: Item, fieldKey: string): int {
    if fieldKey in item then item[fieldKey] else 0
  }

  /** `items.reduce((a, b) => a + (b[fieldKey] || 0), 0)`: a left fold. */
  function SumField(items: seq<Item>, fieldKey: string): int
    decreases |items|
  {
    if |items| == 0 then 0
    else SumField(items[..|items| - 1], fieldKey) + FieldOrZero(items[|items| - 1], fieldKey)
  }

  /** The same sum taken from the front: the reference definition. */
  function SumFromFront(items: seq<Item>, fieldKey: string): int
    decreases |items|
  {
    if |items| == 0 then 0 else FieldOrZero(items[0], fieldKey) + SumFromFront(items[1..], fieldKey)
  }

  /** Summing a concatenation sums the parts. */
  lemma {:induction false} SumFieldAppend(a: seq<Item>, b: seq<Item>, fieldKey: string)
    ensures SumField(a + b, fieldKey) == SumField(a, fieldKey) + SumField(b, fieldKey)
    decreases |b|
  {
    if |b| == 0 {
      assert a + b == a;
    } else {
      assert (a + b)[..|a + b| - 1] == a + b[..|b| - 1];
      SumFieldAppend(a, b[..|b| - 1], fieldKey);
    }
  }

  /** The fold from the back and the fold from the front agree, so the total
      does not depend on the order of the items' contributions. */
  lemma {:induction false} SumFieldFromFront(items: seq<Item>, fieldKey: string)
    ensures SumField(items, fieldKey) == SumFromFront(items, fieldKey)
    decreases |items|
  {
    if |items| > 0 {
      assert items == [items[0]] + items[1..];
      SumFieldAppend([items[0]], items[1..], fieldKey);
      assert [items[0]][..0] == [];
      SumFieldFromFront(items[1..], fieldKey);
    }
  }

  /** Items without the field, or with it at zero, change nothing. */
  lemma {:induction false} SumFieldIgnoresMissing(items: seq<Item>, extra: Item, fieldKey: string)
    requires FieldOrZero(extra, fieldKey) == 0
    ensures SumField(items + [extra], fieldKey) == SumField(items, fieldKey)
  {
    assert (items + [extra])[..|items|] == items;
  }

  /** Non-negative fields give a non-negative total, no larger than the sum
      of any longer list that extends it. */
  lemma {:induction false} SumFieldMonotone(items: seq<Item>, more: seq<Item>, fieldKey: string)
    requires forall i :: 0 <= i < |more| ==> FieldOrZero(more[i], fieldKey) >= 0
    ensures SumField(items, fieldKey) <= SumField(items + more, fieldKey)
    decreases |more|
  {
    SumFieldAppend(items, more, fieldKey);
    SumFieldNonNegative(more, fieldKey);
  }

  lemma {:induction false} SumFieldNonNegative(items: seq<Item>, fieldKey: string)
    requires forall i :: 0 <= i < |items| ==> FieldOrZero(items[i], fieldKey) >= 0
    ensures SumField(items, fieldKey) >= 0
    decreases |items|
  {
    if |items| > 0 {
      SumFieldNonNegative(items[..|items| - 1], fieldKey);
    }
  }

  /** `calcTotalAmount()`: no list, or an empty one, totals zero. */
  function CalcTotalAmount(items: Option<seq<Item>>, fieldKey: string): (r: int)
    ensures items.None? ==> r == 0
    ensures items.Some? ==> r == SumFromFront(items.value, fieldKey)
  {
    if items.Some? && |items.value| > 0 then
      SumFieldFromFront(items.value, fieldKey);
      SumField(items.value, fieldKey)
    else 0
  }

  /** The effect that runs when the items or the value change. With
      `calculateAmount` the total is the sum; otherwise an undefined value
      leaves the total as it was, a null one throws when it is formatted, and
      any other value is shown as given. */
  function OnItemsOrValue(calculateAmount: bool, items: Option<seq<Item>>, value: JsValue, fieldKey: string, total: JsValue): (r: Result<JsValue>)
    ensures calculateAmount ==> r == Ok(Num(CalcTotalAmount(items, fieldKey)))
    ensures !calculateAmount ==> (r.Err? <==> value == Null)
    ensures !calculateAmount && value == Undefined ==> r == Ok(total)
    ensures !calculateAmount && value != Undefined && value != Null ==> r == Ok(value)
  {
    if calculateAmount then Ok(Num(CalcTotalAmount(items, fieldKey)))
    else if value == Undefined then Ok(total)
    else if value == Null then Err(TypeError("Cannot read properties of null (reading 'toLocaleString')"))
    else Ok(value)
  }

  /** The total before any effect has run. */
  const InitialTotal: JsValue := Num(0)
}
