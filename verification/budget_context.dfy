/** The budget context's reducer: four state fields and five actions, each of
    which replaces exactly one field. */
module BudgetContext {
  import opened JsValues

  datatype BudgetState = BudgetState(budget: JsValue, currentMonth: JsValue, errorMessage: JsValue, firstActiveIdx: JsValue)

  /** A dispatched action: its `type` string and its `payload` (undefined when absent). */
  datatype Action = Action(kind: string, payload: JsValue)

  /** `initialState`. */
  const InitialState: BudgetState := BudgetState(Null, Null, Str(""), Num(0))

  /** The state fields, so that "only this field changed" can be said once. */
  datatype Field = BudgetField | MonthField | ErrorField | IndexField

  function Read(s: BudgetState, f: Field): JsValue {
    match f
    case BudgetField => s.budget
    case MonthField => s.currentMonth
    case ErrorField => s.errorMessage
    case IndexField => s.firstActiveIdx
  }

  /** The field an action type targets; unknown types target none. */
  function Target(kind: string): Option<Field> {
    if kind == "SET_BUDGET" then Some(BudgetField)
    else if kind == "SET_MONTH" then Some(MonthField)
    else if kind == "SET_ERROR" || kind == "CLEAR_ERROR" then Some(ErrorField)
    else if kind == "SET_ACTIVE_INDEX" then Some(IndexField)
    else None
  }

  /** `budgetReducer(state, action)`. */
  function BudgetReducer(state: BudgetState, action: Action): (r: BudgetState)
    ensures Target(action.kind).None? ==> r == state
    ensures forall f :: Target(action.kind) != Some(f) ==> Read(r, f) == Read(state, f)
    ensures Target(action.kind).Some? ==>
      Read(r, Target(action.kind).value) == (if action.kind == "CLEAR_ERROR" then Str("") else action.payload)
  {
    match action.kind
    case "SET_BUDGET" => state.(budget := action.payload)
    case "SET_MONTH" => state.(currentMonth := action.payload)
    case "SET_ERROR" => state.(errorMessage := action.payload)
    case "CLEAR_ERROR" => state.(errorMessage := Str(""))
    case "SET_ACTIVE_INDEX" => state.(firstActiveIdx := action.payload)
    case _ => state
  }

  /** Two states that agree on every field are the same state. */
  lemma FieldsDetermineState(s: BudgetState, t: BudgetState)
    requires forall f :: Read(s, f) == Read(t, f)
    ensures s == t
  {
    assert Read(s, BudgetField) == Read(t, BudgetField);
    assert Read(s, MonthField) == Read(t, MonthField);
    assert Read(s, ErrorField) == Read(t, ErrorField);
    assert Read(s, IndexField) == Read(t, IndexField);
  }

  /** The initial state shows no error, so clearing the error on it, as the
      onboarding screen does when it mounts, leaves it exactly as it is; any
      other action on a different field leaves its empty message in place. */
  lemma InitialStateHasNoError(a: Action)
    ensures !Truthy(InitialState.errorMessage)
    ensures BudgetReducer(InitialState, Action("CLEAR_ERROR", a.payload)) == InitialState
    ensures Target(a.kind) != Some(ErrorField) ==> !Truthy(BudgetReducer(InitialState, a).errorMessage)
  {
  }

  /** Actions on different fields commute. */
  lemma DifferentFieldsCommute(s: BudgetState, a: Action, b: Action)
    requires Target(a.kind) != Target(b.kind)
    ensures BudgetReducer(BudgetReducer(s, a), b) == BudgetReducer(BudgetReducer(s, b), a)
  {
    var ab := BudgetReducer(BudgetReducer(s, a), b);
    var ba := BudgetReducer(BudgetReducer(s, b), a);
    forall f
      ensures Read(ab, f) == Read(ba, f)
    {
    }
    FieldsDetermineState(ab, ba);
  }

  /** A second action on the same field overrides the first, and clearing the
      error twice is the same as clearing it once. */
  lemma SameFieldLastWins(s: BudgetState, a: Action, b: Action)
    requires Target(a.kind).Some? && Target(a.kind) == Target(b.kind)
    ensures BudgetReducer(BudgetReducer(s, a), b) == BudgetReducer(s, b)
  {
    var x := BudgetReducer(BudgetReducer(s, a), b);
    var y := BudgetReducer(s, b);
    forall f
      ensures Read(x, f) == Read(y, f)
    {
    }
    FieldsDetermineState(x, y);
  }

  lemma ClearErrorIdempotent(s: BudgetState, payload: JsValue)
    ensures BudgetReducer(BudgetReducer(s, Action("CLEAR_ERROR", payload)), Action("CLEAR_ERROR", payload))
         == BudgetReducer(s, Action("CLEAR_ERROR", payload))
    ensures BudgetReducer(s, Action("CLEAR_ERROR", payload)).errorMessage == Str("")
  {
    SameFieldLastWins(s, Action("CLEAR_ERROR", payload), Action("CLEAR_ERROR", payload));
  }
}
