/** The sign-up page's submit handler: required fields, then the password
    confirmation, then a simulated success. */
module RegisterPage {
  import opened Wrappers
  import opened Routing

  datatype RegisterForm = RegisterForm(
    firstName: string, lastName: string, email: string, password: string, confirmPassword: string)

  datatype RegisterState = RegisterState(form: RegisterForm, error: Option<string>, loading: bool)

  const AllRequired := "All fields are required"
  const PasswordsDiffer := "Passwords do not match"
  const Registered := "Registration successful! Please log in."

  /** The required check: the four fields are non-empty; no trimming, and
      the confirmation is not among them. */
  predicate Complete(f: RegisterForm) {
    f.firstName != "" && f.lastName != "" && f.email != "" && f.password != ""
  }

  /** `handleSubmit`. The error is cleared first. The delayed success step
      is folded in: the returned navigation goes to sign-in with the
      success message. */
  function Submit(st: RegisterState): (r: (RegisterState, Option<Navigation>))
    ensures r.0.form == st.form
    ensures r.0.error.None? <==> Complete(st.form) && st.form.password == st.form.confirmPassword
    ensures !Complete(st.form) ==> r.0.error == Some(AllRequired)
    ensures Complete(st.form) && st.form.password != st.form.confirmPassword ==> r.0.error == Some(PasswordsDiffer)
    ensures r.0.error.Some? ==> r.0.loading == st.loading && r.1.None?
    ensures r.0.error.None? ==> r.0.loading && r.1 == Some(Navigation(LoginPath, WithMessage(Registered), false))
  {
    if st.form.firstName == "" || st.form.lastName == "" || st.form.email == "" || st.form.password == "" then
      (st.(error := Some(AllRequired)), None)
    else if st.form.password != st.form.confirmPassword then
      (st.(error := Some(PasswordsDiffer)), None)
    else
      (st.(error := None, loading := true), Some(Navigation(LoginPath, WithMessage(Registered), false)))
  }

  /** The required check does not trim: any four non-empty fields pass it,
      fields of nothing but white space included, and with a matching
      confirmation the form is accepted. */
  lemma BlankFieldsAccepted(st: RegisterState)
    requires st.form.firstName != "" && st.form.lastName != "" && st.form.email != "" && st.form.password != ""
    requires st.form.password == st.form.confirmPassword
    ensures Submit(st).0.error.None?
    ensures Submit(st).1 == Some(Navigation(LoginPath, WithMessage(Registered), false))
  {
  }

  /** The outcome depends on the form alone, not on an earlier error or the
      loading flag, so resubmitting an unchanged form repeats it. */
  lemma SubmitDependsOnlyOnForm(st1: RegisterState, st2: RegisterState)
    requires st1.form == st2.form
    ensures Submit(st1).0.error == Submit(st2).0.error
    ensures Submit(st1).1 == Submit(st2).1
    ensures Submit(st1).0.error.Some? ==> Submit(Submit(st1).0).0 == Submit(st1).0
  {
  }

  /** An empty confirmation is reported as a mismatch, not as a missing
      field. */
  lemma EmptyConfirmationIsMismatch(st: RegisterState)
    requires Complete(st.form) && st.form.confirmPassword == ""
    ensures Submit(st).0.error == Some(PasswordsDiffer)
  {
  }
}
