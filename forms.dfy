/**
 * What the zod schemas and the react-hook-form resolver do with a submitted
 * form: each failed check is an issue on a field path, issues come in the
 * order the schema declares its checks, and a field shows the message of its
 * first issue.
 */
module Forms {
  import opened Wrappers

  /** One validation issue: the field path it is reported on, and its message. */
  datatype Issue = Issue(path: string, message: string)

  /** A notification shown by the page. */
  datatype Toast = Toast(title: string, description: string)

  /**
   * The effect of `form.handleSubmit(onSubmit)` on a page whose `onSubmit` only
   * logs and notifies: either the issues are shown and `onSubmit` does not run,
   * or `onSubmit` runs and shows its toast.
   */
  datatype SubmitOutcome = Rejected(issues: seq<Issue>) | Notified(toast: Toast)

  /** A string field's `.min(n, message)`. */
  function MinLength(path: string, value: string, n: nat, message: string): (r: seq<Issue>)
    ensures r == [] <==> |value| >= n
    ensures forall i :: 0 <= i < |r| ==> r[i] == Issue(path, message)
  {
    if |value| < n then [Issue(path, message)] else []
  }

  const InvalidEmail := "Invalid email address."
  const EmailRequired := "Email is required."

  /**
   * `z.string().email("Invalid email address.").min(1, "Email is required.")`
   * on the `email` path. `isEmail` is zod's email-format check; both checks run.
   */
  function EmailIssues(isEmail: string -> bool, email: string): (r: seq<Issue>)
    ensures r == [] <==> isEmail(email) && |email| >= 1
    ensures forall i :: 0 <= i < |r| ==> r[i].path == "email"
  {
    (if isEmail(email) then [] else [Issue("email", InvalidEmail)])
    + MinLength("email", email, 1, EmailRequired)
  }

  /** The message shown under field `path`: that of the first issue reported on it. */
  function FirstError(issues: seq<Issue>, path: string): (r: Option<string>)
    ensures r.None? <==> forall i :: 0 <= i < |issues| ==> issues[i].path != path
    ensures r.Some? ==> Issue(path, r.value) in issues
    decreases |issues|
  {
    if issues == [] then None
    else if issues[0].path == path then Some(issues[0].message)
    else FirstError(issues[1..], path)
  }

  /** The shown message is that of an issue on `path` with no issue on `path` before it. */
  lemma {:induction false} FirstErrorIsFirst(issues: seq<Issue>, path: string)
    requires FirstError(issues, path).Some?
    ensures exists i :: 0 <= i < |issues| && issues[i] == Issue(path, FirstError(issues, path).value) &&
                        forall j :: 0 <= j < i ==> issues[j].path != path
    decreases |issues|
  {
    if issues[0].path == path {
      assert issues[0] == Issue(path, FirstError(issues, path).value);
    } else {
      FirstErrorIsFirst(issues[1..], path);
      var i :| 0 <= i < |issues| - 1 && issues[1..][i] == Issue(path, FirstError(issues[1..], path).value) &&
               forall j :: 0 <= j < i ==> issues[1..][j].path != path;
      assert issues[i + 1] == Issue(path, FirstError(issues, path).value);
    }
  }

  /** The first issue on a path in `a + b` is the first in `a`, or else the first in `b`. */
  lemma {:induction false} FirstErrorAppend(a: seq<Issue>, b: seq<Issue>, path: string)
    ensures FirstError(a + b, path) == if FirstError(a, path).Some? then FirstError(a, path) else FirstError(b, path)
    decreases |a|
  {
    if a == [] {
      assert a + b == b;
    } else {
      assert (a + b)[0] == a[0];
      assert (a + b)[1..] == a[1..] + b;
      FirstErrorAppend(a[1..], b, path);
    }
  }

  /** The email field shows the format message first, then the required message. */
  lemma EmailFieldError(isEmail: string -> bool, email: string)
    ensures FirstError(EmailIssues(isEmail, email), "email")
         == if !isEmail(email) then Some(InvalidEmail)
            else if email == [] then Some(EmailRequired)
            else None
  {
    FirstErrorAppend(if isEmail(email) then [] else [Issue("email", InvalidEmail)],
                     MinLength("email", email, 1, EmailRequired), "email");
  }
}
