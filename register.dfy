/** The registration page: its schema with the password-match refinement, default values and submit handler. */
module Register {
  import opened Wrappers
  import opened Forms

  datatype RegisterForm = RegisterForm(fullName: string, email: string, password: string, confirmPassword: string)

  /** The form's default values. */
  const DefaultValues := RegisterForm("", "", "", "")

  const NameTooShort := "Full name must be at least 2 characters."
  const PasswordTooShort := "Password must be at least 6 characters."
  const ConfirmRequired := "Please confirm your password."
  const PasswordsDiffer := "Passwords do not match."

  const SubmittedToast :=
    Toast("Registration Submitted (Mock)", "Your account would be created in a real application.")

  /** The refinement: a mismatch is reported on the `confirmPassword` path. */
  function MatchIssues(form: RegisterForm): (r: seq<Issue>)
    ensures r == [] <==> form.password == form.confirmPassword
    ensures forall i :: 0 <= i < |r| ==> r[i] == Issue("confirmPassword", PasswordsDiffer)
  {
    if form.password == form.confirmPassword then [] else [Issue("confirmPassword", PasswordsDiffer)]
  }

  /**
   * `registerSchema`'s issues in the order zod reports them: the field checks in
   * declaration order, then the refinement, which runs even when a length check
   * failed because such failures do not abort the object's parse.
   */
  function RegisterIssues(isEmail: string -> bool, form: RegisterForm): (r: seq<Issue>)
    ensures r == [] <==>
            && |form.fullName| >= 2
            && isEmail(form.email) && |form.email| >= 1
            && |form.password| >= 6
            && |form.confirmPassword| >= 1
            && form.password == form.confirmPassword
  {
    MinLength("fullName", form.fullName, 2, NameTooShort)
    + EmailIssues(isEmail, form.email)
    + MinLength("password", form.password, 6, PasswordTooShort)
    + MinLength("confirmPassword", form.confirmPassword, 1, ConfirmRequired)
    + MatchIssues(form)
  }

  /** The first issue on `path` when no issue before or after `own` is on `path`. */
  lemma FirstErrorAmong(before: seq<Issue>, own: seq<Issue>, after: seq<Issue>, path: string)
    requires forall i :: 0 <= i < |before| ==> before[i].path != path
    requires forall i :: 0 <= i < |after| ==> after[i].path != path
    ensures FirstError(before + own + after, path) == FirstError(own, path)
  {
    FirstErrorAppend(before + own, after, path);
    FirstErrorAppend(before, own, path);
  }

  /*
   * The message each field shows (the four lemmas below). The mismatch is never
   * shown on `password`; on `confirmPassword` the required message takes
   * precedence over it.
   */

  lemma FullNameError(isEmail: string -> bool, form: RegisterForm)
    ensures FirstError(RegisterIssues(isEmail, form), "fullName")
         == if |form.fullName| < 2 then Some(NameTooShort) else None
  {
    var a := MinLength("fullName", form.fullName, 2, NameTooShort);
    var rest := EmailIssues(isEmail, form.email)
      + MinLength("password", form.password, 6, PasswordTooShort)
      + MinLength("confirmPassword", form.confirmPassword, 1, ConfirmRequired)
      + MatchIssues(form);
    assert RegisterIssues(isEmail, form) == [] + a + rest;
    FirstErrorAmong([], a, rest, "fullName");
  }

  lemma EmailError(isEmail: string -> bool, form: RegisterForm)
    ensures FirstError(RegisterIssues(isEmail, form), "email")
         == if !isEmail(form.email) then Some(InvalidEmail)
            else if form.email == [] then Some(EmailRequired)
            else None
  {
    var a := MinLength("fullName", form.fullName, 2, NameTooShort);
    var b := EmailIssues(isEmail, form.email);
    var rest := MinLength("password", form.password, 6, PasswordTooShort)
      + MinLength("confirmPassword", form.confirmPassword, 1, ConfirmRequired)
      + MatchIssues(form);
    assert RegisterIssues(isEmail, form) == a + b + rest;
    FirstErrorAmong(a, b, rest, "email");
    EmailFieldError(isEmail, form.email);
  }

  lemma PasswordError(isEmail: string -> bool, form: RegisterForm)
    ensures FirstError(RegisterIssues(isEmail, form), "password")
         == if |form.password| < 6 then Some(PasswordTooShort) else None
  {
    var before := MinLength("fullName", form.fullName, 2, NameTooShort) + EmailIssues(isEmail, form.email);
    var c := MinLength("password", form.password, 6, PasswordTooShort);
    var rest := MinLength("confirmPassword", form.confirmPassword, 1, ConfirmRequired) + MatchIssues(form);
    assert RegisterIssues(isEmail, form) == before + c + rest;
    FirstErrorAmong(before, c, rest, "password");
  }

  lemma ConfirmPasswordError(isEmail: string -> bool, form: RegisterForm)
    ensures FirstError(RegisterIssues(isEmail, form), "confirmPassword")
         == if form.confirmPassword == [] then Some(ConfirmRequired)
            else if form.password != form.confirmPassword then Some(PasswordsDiffer)
            else None
  {
    var before := MinLength("fullName", form.fullName, 2, NameTooShort)
      + EmailIssues(isEmail, form.email)
      + MinLength("password", form.password, 6, PasswordTooShort);
    var d := MinLength("confirmPassword", form.confirmPassword, 1, ConfirmRequired);
    var e := MatchIssues(form);
    assert RegisterIssues(isEmail, form) == before + (d + e) + [];
    FirstErrorAmong(before, d + e, [], "confirmPassword");
    FirstErrorAppend(d, e, "confirmPassword");
  }

  /** An accepted registration has matching passwords of at least six characters. */
  lemma AcceptedPasswordsMatch(isEmail: string -> bool, form: RegisterForm)
    requires RegisterIssues(isEmail, form) == []
    ensures form.password == form.confirmPassword
    ensures |form.password| >= 6 && |form.confirmPassword| >= 6
  {
  }

  /** The default values never validate, whatever the email check accepts. */
  lemma DefaultValuesRejected(isEmail: string -> bool)
    ensures RegisterIssues(isEmail, DefaultValues) != []
    ensures FirstError(RegisterIssues(isEmail, DefaultValues), "fullName") == Some(NameTooShort)
    ensures FirstError(RegisterIssues(isEmail, DefaultValues), "password") == Some(PasswordTooShort)
    ensures FirstError(RegisterIssues(isEmail, DefaultValues), "confirmPassword") == Some(ConfirmRequired)
  {
    FullNameError(isEmail, DefaultValues);
    PasswordError(isEmail, DefaultValues);
    ConfirmPasswordError(isEmail, DefaultValues);
  }

  /**
   * `form.handleSubmit(onSubmit)`: `onSubmit` runs only on a valid form, and
   * then only logs and shows the mock toast; no account is created.
   */
  function Submit(isEmail: string -> bool, form: RegisterForm): (r: SubmitOutcome)
    ensures r.Notified? ==> form.password == form.confirmPassword && |form.password| >= 6
    ensures r.Notified? <==> RegisterIssues(isEmail, form) == []
    ensures r.Notified? ==> r.toast == SubmittedToast
    ensures r.Rejected? ==> r.issues != [] && r.issues == RegisterIssues(isEmail, form)
  {
    var issues := RegisterIssues(isEmail, form);
    if issues == [] then Notified(SubmittedToast) else Rejected(issues)
  }
}
