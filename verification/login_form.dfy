/** The validation schema of the login form: an email and a password,
    nothing else. */
module LoginForm {
  import opened JsValues
  import opened Zod

  datatype Values = Values(email: string, password: string)

  const Defaults := Values("", "")

  function Issues(v: Values, isEmail: string -> bool): (issues: seq<Issue>)
    ensures forall i :: 0 <= i < |issues| ==> issues[i].path in {"email", "password"}
    ensures |issues| <= 3
  {
    EmailIssues(v.email, isEmail)
      + MinLength("password", v.password, 6, "Password must be at least 6 characters")
  }

  /** Accepted values show no error under any field. */
  predicate Accepts(v: Values, isEmail: string -> bool)
    ensures Accepts(v, isEmail) <==> forall path :: FirstError(Issues(v, isEmail), path).None?
  {
    NothingShownIffNoIssues(Issues(v, isEmail));
    Issues(v, isEmail) == []
  }

  /** A valid email with a password of at least six characters is accepted,
      and nothing else is. */
  lemma AcceptsIffAllRulesHold(v: Values, isEmail: string -> bool)
    ensures Accepts(v, isEmail) <==> v.email != "" && isEmail(v.email) && |v.password| >= 6
  {
  }

  /** The empty defaults the form starts with are never accepted. */
  lemma DefaultsRejected(isEmail: string -> bool)
    ensures !Accepts(Defaults, isEmail)
  {
    assert Issues(Defaults, isEmail)[0] == Issue("email", "Email is required");
  }

  lemma ShownEmailError(v: Values, isEmail: string -> bool)
    ensures FirstError(Issues(v, isEmail), "email") ==
              if v.email == "" then Some("Email is required")
              else if !isEmail(v.email) then Some("Must be a valid email address")
              else None
  {
    var password := MinLength("password", v.password, 6, "Password must be at least 6 characters");
    FirstErrorAppend(EmailIssues(v.email, isEmail), password, "email");
    ShownEmailMessage(v.email, isEmail);
  }

  lemma ShownPasswordError(v: Values, isEmail: string -> bool)
    ensures FirstError(Issues(v, isEmail), "password") ==
              if |v.password| < 6 then Some("Password must be at least 6 characters") else None
  {
    var password := MinLength("password", v.password, 6, "Password must be at least 6 characters");
    FirstErrorAppend(EmailIssues(v.email, isEmail), password, "password");
  }
}
