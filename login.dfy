/** The login page: its schema, default values and submit handler. */
module Login {
  import opened Wrappers
  import opened Forms

  datatype LoginForm = LoginForm(email: string, password: string)

  /** The form's default values. */
  const DefaultValues := LoginForm("", "")

  const PasswordTooShort := "Password must be at least 6 characters."

  const SubmittedToast := Toast("Login Submitted (Mock)", "In a real app, this would log you in!")

  /** `loginSchema`'s issues, in the order zod reports them; `isEmail` is zod's email-format check. */
  function LoginIssues(isEmail: string -> bool, form: LoginForm): (r: seq<Issue>)
    ensures r == [] <==> isEmail(form.email) && |form.email| >= 1 && |form.password| >= 6
  {
    EmailIssues(isEmail, form.email)
    + MinLength("password", form.password, 6, PasswordTooShort)
  }

  /** The message each field shows: an empty email and a short password are always reported. */
  lemma LoginFieldErrors(isEmail: string -> bool, form: LoginForm)
    ensures var issues := LoginIssues(isEmail, form);
            && FirstError(issues, "email")
               == (if !isEmail(form.email) then Some(InvalidEmail)
                   else if form.email == [] then Some(EmailRequired)
                   else None)
            && FirstError(issues, "password")
               == (if |form.password| < 6 then Some(PasswordTooShort) else None)
  {
    var e := EmailIssues(isEmail, form.email);
    var p := MinLength("password", form.password, 6, PasswordTooShort);
    FirstErrorAppend(e, p, "email");
    FirstErrorAppend(e, p, "password");
    EmailFieldError(isEmail, form.email);
  }

  /** The default values never validate, whatever the email check accepts. */
  lemma DefaultValuesRejected(isEmail: string -> bool)
    ensures LoginIssues(isEmail, DefaultValues) != []
    ensures FirstError(LoginIssues(isEmail, DefaultValues), "email").Some?
    ensures FirstError(LoginIssues(isEmail, DefaultValues), "password") == Some(PasswordTooShort)
  {
    LoginFieldErrors(isEmail, DefaultValues);
  }

  /**
   * `form.handleSubmit(onSubmit)`: `onSubmit` runs only on a valid form, and
   * then only logs and shows the mock toast; no authentication state exists.
   */
  function Submit(isEmail: string -> bool, form: LoginForm): (r: SubmitOutcome)
    ensures r.Notified? <==> isEmail(form.email) && |form.email| >= 1 && |form.password| >= 6
    ensures r.Notified? ==> r.toast == SubmittedToast
    ensures r.Rejected? ==> r.issues != [] && r.issues == LoginIssues(isEmail, form)
  {
    var issues := LoginIssues(isEmail, form);
    if issues == [] then Notified(SubmittedToast) else Rejected(issues)
  }
}
