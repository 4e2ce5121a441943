/** The validation schema of the registration form: name, email, password
    and its confirmation, plus the refinement that the two passwords agree,
    reported on the confirmPassword field. */
module RegisterForm {
  import opened JsValues
  import opened Zod

  datatype Values = Values(name: string, email: string, password: string, confirmPassword: string)

  const Defaults := Values("", "", "", "")

  /** The issues in the order the schema produces them: the field checks in
      field order, then the refinement. */
  function Issues(v: Values, isEmail: string -> bool): (issues: seq<Issue>)
    ensures forall i :: 0 <= i < |issues| ==> issues[i].path in {"name", "email", "password", "confirmPassword"}
    ensures |issues| <= 6
  {
    MinLength("name", v.name, 2, "Name must be at least 2 characters")
      + EmailIssues(v.email, isEmail)
      + MinLength("password", v.password, 6, "Password must be at least 6 characters")
      + MinLength("confirmPassword", v.confirmPassword, 1, "Please confirm your password")
      + Refinement(v)
  }

  /** `.refine(password === confirmPassword)`, reported on confirmPassword. */
  function Refinement(v: Values): (issues: seq<Issue>)
    ensures issues == [] <==> v.password == v.confirmPassword
    ensures forall i :: 0 <= i < |issues| ==> issues[i].path == "confirmPassword"
  {
    if v.password == v.confirmPassword then [] else [Issue("confirmPassword", "Passwords do not match")]
  }

  /** Accepted values show no error under any field. */
  predicate Accepts(v: Values, isEmail: string -> bool)
    ensures Accepts(v, isEmail) <==> forall path :: FirstError(Issues(v, isEmail), path).None?
  {
    NothingShownIffNoIssues(Issues(v, isEmail));
    Issues(v, isEmail) == []
  }

  /** The values pass exactly when every rule holds. */
  lemma AcceptsIffAllRulesHold(v: Values, isEmail: string -> bool)
    ensures Accepts(v, isEmail) <==>
              && |v.name| >= 2
              && v.email != "" && isEmail(v.email)
              && |v.password| >= 6
              && |v.confirmPassword| >= 1
              && v.password == v.confirmPassword
  {
  }

  /** The empty defaults the form starts with are never accepted. */
  lemma DefaultsRejected(isEmail: string -> bool)
    ensures !Accepts(Defaults, isEmail)
  {
    assert Issues(Defaults, isEmail)[0] == Issue("name", "Name must be at least 2 characters");
  }

  /** The first error on a path is looked for in the checks in turn. */
  lemma {:induction false} FirstErrorByCheck(v: Values, isEmail: string -> bool, path: string)
    ensures FirstError(Issues(v, isEmail), path) ==
      Pick(FirstError(MinLength("name", v.name, 2, "Name must be at least 2 characters"), path),
      Pick(FirstError(EmailIssues(v.email, isEmail), path),
      Pick(FirstError(MinLength("password", v.password, 6, "Password must be at least 6 characters"), path),
      Pick(FirstError(MinLength("confirmPassword", v.confirmPassword, 1, "Please confirm your password"), path),
           FirstError(Refinement(v), path)))))
  {
    var name := MinLength("name", v.name, 2, "Name must be at least 2 characters");
    var email := EmailIssues(v.email, isEmail);
    var password := MinLength("password", v.password, 6, "Password must be at least 6 characters");
    var confirm := MinLength("confirmPassword", v.confirmPassword, 1, "Please confirm your password");
    FirstErrorAppend(name + email + password + confirm, Refinement(v), path);
    FirstErrorAppend(name + email + password, confirm, path);
    FirstErrorAppend(name + email, password, path);
    FirstErrorAppend(name, email, path);
  }

  lemma ShownNameError(v: Values, isEmail: string -> bool)
    ensures FirstError(Issues(v, isEmail), "name") ==
              if |v.name| < 2 then Some("Name must be at least 2 characters") else None
  {
    FirstErrorByCheck(v, isEmail, "name");
  }

  lemma ShownEmailError(v: Values, isEmail: string -> bool)
    ensures FirstError(Issues(v, isEmail), "email") ==
              if v.email == "" then Some("Email is required")
              else if !isEmail(v.email) then Some("Must be a valid email address")
              else None
  {
    FirstErrorByCheck(v, isEmail, "email");
    ShownEmailMessage(v.email, isEmail);
  }

  lemma ShownPasswordError(v: Values, isEmail: string -> bool)
    ensures FirstError(Issues(v, isEmail), "password") ==
              if |v.password| < 6 then Some("Password must be at least 6 characters") else None
  {
    FirstErrorByCheck(v, isEmail, "password");
  }

  /** An empty confirmation is reported as such; a mismatch is reported on
      the confirmPassword field. */
  lemma ShownConfirmError(v: Values, isEmail: string -> bool)
    ensures FirstError(Issues(v, isEmail), "confirmPassword") ==
              if v.confirmPassword == "" then Some("Please confirm your password")
              else if v.password != v.confirmPassword then Some("Passwords do not match")
              else None
  {
    FirstErrorByCheck(v, isEmail, "confirmPassword");
  }
}
