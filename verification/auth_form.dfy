/** The login/signup form: which fields a form type requires, what a submit
    does to the form's flags, the payload it hands on, the loading guard on
    the button, and which per-field errors are shown. */
module AuthForm {
  import opened JsValues

  datatype Fields = Fields(email: string, password: string, firstName: string, lastName: string)

  /** The form's own state: its four inputs and its two flags. */
  datatype FormState = FormState(fields: Fields, isLoading: bool, hasErrors: bool)

  /** What `onSubmit` receives. */
  datatype Payload =
    | SignupPayload(firstName: string, lastName: string, email: string, password: string)
    | LoginPayload(email: string, password: string)

  /** The outcome of one submit: the new state, whether `clearError` was
      called, and the payload passed to `onSubmit`, if any. */
  datatype Submit = Submit(state: FormState, clearedError: bool, submitted: Option<Payload>)

  const InitialState: FormState := FormState(Fields("", "", "", ""), false, false)

  predicate IsSignup(formType: string) {
    formType == "Signup"
  }

  /** The inputs a form type requires to be non-empty. */
  predicate Complete(formType: string, f: Fields) {
    if IsSignup(formType) then f.firstName != "" && f.lastName != "" && f.email != "" && f.password != ""
    else f.email != "" && f.password != ""
  }

  /** `submitForm()`, up to the call to `onSubmit`. */
  function SubmitForm(formType: string, st: FormState, errorMessage: JsValue): (r: Submit)
    ensures r.clearedError <==> Truthy(errorMessage)
    ensures r.state.fields == st.fields
    ensures r.submitted.Some? <==> Complete(formType, st.fields)
    ensures r.state.hasErrors <==> !Complete(formType, st.fields)
    ensures r.state.isLoading <==> (st.isLoading || Complete(formType, st.fields))
    ensures r.submitted.Some? && IsSignup(formType) ==>
      r.submitted.value == SignupPayload(st.fields.firstName, st.fields.lastName, st.fields.email, st.fields.password)
    ensures r.submitted.Some? && !IsSignup(formType) ==>
      r.submitted.value == LoginPayload(st.fields.email, st.fields.password)
  {
    var cleared := Truthy(errorMessage);
    var f := st.fields;
    var st' := st.(hasErrors := false);
    if IsSignup(formType) then
      if f.firstName == "" || f.lastName == "" || f.email == "" || f.password == "" then
        Submit(st'.(hasErrors := true), cleared, None)
      else
        Submit(st'.(isLoading := true), cleared, Some(SignupPayload(f.firstName, f.lastName, f.email, f.password)))
    else
      if f.email == "" || f.password == "" then
        Submit(st'.(hasErrors := true), cleared, None)
      else
        Submit(st'.(isLoading := true), cleared, Some(LoginPayload(f.email, f.password)))
  }

  /** The button's `onPress`: ignored while loading. */
  function Press(formType: string, st: FormState, errorMessage: JsValue): (r: Submit)
    ensures st.isLoading ==> r == Submit(st, false, None)
    ensures !st.isLoading ==> r == SubmitForm(formType, st, errorMessage)
  {
    if st.isLoading then Submit(st, false, None) else SubmitForm(formType, st, errorMessage)
  }

  /** With no error showing, a press that submitted leaves the form loading
      and calls no `clearError`, so the error message prop stays as it was
      and a second press does nothing. */
  lemma SecondPressIgnored(formType: string, st: FormState, errorMessage: JsValue)
    requires !Truthy(errorMessage)
    requires Press(formType, st, errorMessage).submitted.Some?
    ensures var s := Press(formType, st, errorMessage).state;
      Press(formType, s, errorMessage) == Submit(s, false, None)
  {
  }

  /** The effect that runs when the error message changes: loading stops. */
  function OnErrorMessage(st: FormState): (r: FormState)
    ensures !r.isLoading && r.fields == st.fields && r.hasErrors == st.hasErrors
  {
    st.(isLoading := false)
  }

  /** With an error showing, the press's own `clearError()` turns the prop
      falsy; that change runs the effect, which stops loading while the first
      submit is still pending, and a second press submits again. */
  lemma ClearedErrorReenablesPress(formType: string, st: FormState, errorMessage: JsValue, cleared: JsValue)
    requires Truthy(errorMessage) && !Truthy(cleared)
    requires Press(formType, st, errorMessage).submitted.Some?
    ensures Press(formType, st, errorMessage).clearedError
    ensures var s := OnErrorMessage(Press(formType, st, errorMessage).state);
      Press(formType, s, cleared).submitted == Press(formType, st, errorMessage).submitted
  {
  }

  /** The effect as evidently intended: loading stops when an error arrives,
      and a message that becomes falsy leaves the flag alone. */
  function OnErrorMessageIntended(st: FormState, errorMessage: JsValue): (r: FormState)
    ensures r.fields == st.fields && r.hasErrors == st.hasErrors
    ensures Truthy(errorMessage) ==> !r.isLoading
    ensures !Truthy(errorMessage) ==> r.isLoading == st.isLoading
  {
    if Truthy(errorMessage) then st.(isLoading := false) else st
  }

  /** With the intended effect a pending submit blocks the button whether or
      not an error was showing, until a new error arrives. */
  lemma SecondPressIgnoredIntended(formType: string, st: FormState, errorMessage: JsValue, cleared: JsValue)
    requires !Truthy(cleared)
    requires Press(formType, st, errorMessage).submitted.Some?
    ensures var s := OnErrorMessageIntended(Press(formType, st, errorMessage).state, cleared);
      Press(formType, s, cleared) == Submit(s, false, None)
  {
  }

  /** With the intended effect a new error after a submit re-enables the
      button, and the next press submits the same payload again. */
  lemma NewErrorReenablesIntended(formType: string, st: FormState, errorMessage: JsValue, next: JsValue)
    requires Truthy(next)
    requires Press(formType, st, errorMessage).submitted.Some?
    ensures var s := OnErrorMessageIntended(Press(formType, st, errorMessage).state, next);
      Press(formType, s, next).submitted == Press(formType, st, errorMessage).submitted
  {
  }

  /** The error lines shown under the inputs, in screen order: the name fields
      only exist on the signup form, and a line shows when errors are on and
      its input is empty. */
  function ShownErrors(formType: string, st: FormState): (r: seq<string>)
    ensures forall e :: e in r ==> st.hasErrors
    ensures "Email is required" in r <==> st.hasErrors && st.fields.email == ""
    ensures "Password is required" in r <==> st.hasErrors && st.fields.password == ""
    ensures "First Name is required" in r <==> IsSignup(formType) && st.hasErrors && st.fields.firstName == ""
    ensures "Last Name is required" in r <==> IsSignup(formType) && st.hasErrors && st.fields.lastName == ""
  {
    var f := st.fields;
    var h := st.hasErrors;
    (if IsSignup(formType) && h && f.firstName == "" then ["First Name is required"] else [])
    + (if IsSignup(formType) && h && f.lastName == "" then ["Last Name is required"] else [])
    + (if h && f.email == "" then ["Email is required"] else [])
    + (if h && f.password == "" then ["Password is required"] else [])
  }

  /** After a submit the form shows an error line exactly when nothing was
      submitted: each blocked submit names a missing input, and a complete
      form shows none. */
  lemma SubmitShowsErrorsIffBlocked(formType: string, st: FormState, errorMessage: JsValue)
    ensures var r := SubmitForm(formType, st, errorMessage);
      |ShownErrors(formType, r.state)| > 0 <==> r.submitted.None?
  {
    var r := SubmitForm(formType, st, errorMessage);
    var shown := ShownErrors(formType, r.state);
    if r.submitted.None? {
      var f := st.fields;
      if f.email == "" {
        assert "Email is required" in shown;
      } else if f.password == "" {
        assert "Password is required" in shown;
      } else if f.firstName == "" {
        assert "First Name is required" in shown;
      } else {
        assert "Last Name is required" in shown;
      }
    }
  }

  /** The state the form starts in, and returns to when the screen loses
      focus, shows no errors; submitting it is blocked and names the email
      and password. */
  lemma EmptyFormBlocked(formType: string, errorMessage: JsValue)
    ensures ShownErrors(formType, InitialState) == []
    ensures var r := Press(formType, InitialState, errorMessage);
      r.submitted.None? && "Email is required" in ShownErrors(formType, r.state)
      && "Password is required" in ShownErrors(formType, r.state)
  {
  }
}
