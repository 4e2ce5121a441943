/** The slice of zod the two auth forms use, and how the form shows its
    result. A schema turns the submitted values into a list of issues, each
    on a field path; string checks do not stop at the first failure, so a
    field can collect several issues. The form accepts the values when the
    list is empty, and shows under each field the first issue on its path. */
module Zod {
  import opened JsValues

  datatype Issue = Issue(path: string, message: string)

  /** `z.string().min(n, { message })` on field `path`: the check fails when
      the value is shorter than n. */
  function MinLength(path: string, value: string, n: nat, message: string): (issues: seq<Issue>)
    ensures issues == [] <==> |value| >= n
    ensures forall i :: 0 <= i < |issues| ==> issues[i] == Issue(path, message)
  {
    if |value| < n then [Issue(path, message)] else []
  }

  /** The email field shared by both forms: required, then a valid address.
      The address syntax is the abstract predicate `isEmail`. */
  function EmailIssues(email: string, isEmail: string -> bool): (issues: seq<Issue>)
    ensures issues == [] <==> email != "" && isEmail(email)
    ensures forall i :: 0 <= i < |issues| ==> issues[i].path == "email"
  {
    MinLength("email", email, 1, "Email is required")
      + (if isEmail(email) then [] else [Issue("email", "Must be a valid email address")])
  }

  /** The message the form shows under field `path`: the first issue on it. */
  function FirstError(issues: seq<Issue>, path: string): (r: Option<string>)
    ensures r.None? <==> forall i :: 0 <= i < |issues| ==> issues[i].path != path
    ensures r.Some? ==> exists i :: 0 <= i < |issues| && issues[i] == Issue(path, r.value)
                                    && forall j :: 0 <= j < i ==> issues[j].path != path
  {
    if issues == [] then None
    else if issues[0].path == path then Some(issues[0].message)
    else FirstError(issues[1..], path)
  }

  /** Issues on a field come first from the earlier checks: the first error
      of a concatenation is that of the left part when it has one. */
  lemma {:induction false} FirstErrorAppend(a: seq<Issue>, b: seq<Issue>, path: string)
    ensures FirstError(a + b, path) == if FirstError(a, path).Some? then FirstError(a, path) else FirstError(b, path)
  {
    if a != [] {
      assert (a + b)[1..] == a[1..] + b;
      FirstErrorAppend(a[1..], b, path);
    } else {
      assert a + b == b;
    }
  }

  /** The form shows no message under any field exactly when the schema
      reported no issue at all. */
  lemma NothingShownIffNoIssues(issues: seq<Issue>)
    ensures issues == [] <==> forall path :: FirstError(issues, path).None?
  {
    if issues != [] {
      assert FirstError(issues, issues[0].path).Some?;
    }
  }

  /** The first of two candidate messages that is present. */
  function Pick(first: Option<string>, second: Option<string>): Option<string>
  {
    if first.Some? then first else second
  }

  /** The message shown for the email field is decided by the email checks
      alone, the required check before the format check. */
  lemma ShownEmailMessage(email: string, isEmail: string -> bool)
    ensures FirstError(EmailIssues(email, isEmail), "email") ==
              if email == "" then Some("Email is required")
              else if !isEmail(email) then Some("Must be a valid email address")
              else None
  {
    FirstErrorAppend(MinLength("email", email, 1, "Email is required"),
                     if isEmail(email) then [] else [Issue("email", "Must be a valid email address")], "email");
  }
}
