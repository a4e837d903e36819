/** The sign-up form's checks: `canSubmit` gates the create button, `validationMessage` explains the first
    failing check once every field has been filled in. */
module CreateAccount {
  import opened Wrappers
  import opened SwiftText

  datatype AccountForm = AccountForm(fullName: string, email: string, password: string, confirmPassword: string,
                                     agreed: bool)

  const MinPasswordLength: nat := 6

  const InvalidEmail: string := "Please enter a valid email address."
  const ShortPassword: string := "Password should be at least 6 characters."
  const PasswordMismatch: string := "Passwords don't match."
  const TermsRequired: string := "Please agree to the Terms & Privacy Policy to continue."

  function TrimmedName(f: AccountForm): string {
    SwiftTrim(f.fullName)
  }

  function TrimmedEmail(f: AccountForm): string {
    SwiftTrim(f.email)
  }

  predicate EmailLooksValid(f: AccountForm) {
    '@' in TrimmedEmail(f) && '.' in TrimmedEmail(f) && ' ' !in TrimmedEmail(f)
  }

  /** Neither password is trimmed. */
  predicate PasswordsMatch(f: AccountForm) {
    f.password != [] && f.password == f.confirmPassword
  }

  predicate PasswordLooksValid(f: AccountForm) {
    |f.password| >= MinPasswordLength
  }

  predicate CanSubmit(f: AccountForm) {
    TrimmedName(f) != [] && EmailLooksValid(f) && PasswordLooksValid(f) && PasswordsMatch(f) && f.agreed
  }

  /** Some field is still empty: then no message is shown yet. */
  predicate Incomplete(f: AccountForm) {
    TrimmedName(f) == [] || TrimmedEmail(f) == [] || f.password == [] || f.confirmPassword == []
  }

  /** `validationMessage`: nothing while the form is incomplete, else the first failing check. */
  function ValidationMessage(f: AccountForm): (r: Option<string>)
    ensures Incomplete(f) ==> r.None?
    ensures !Incomplete(f) && !EmailLooksValid(f) ==> r == Some(InvalidEmail)
    ensures !Incomplete(f) && EmailLooksValid(f) && !PasswordLooksValid(f) ==> r == Some(ShortPassword)
    ensures !Incomplete(f) && EmailLooksValid(f) && PasswordLooksValid(f) && !PasswordsMatch(f) ==>
      r == Some(PasswordMismatch)
    ensures !Incomplete(f) && EmailLooksValid(f) && PasswordLooksValid(f) && PasswordsMatch(f) && !f.agreed ==>
      r == Some(TermsRequired)
  {
    if Incomplete(f) then None
    else if !EmailLooksValid(f) then Some(InvalidEmail)
    else if !PasswordLooksValid(f) then Some(ShortPassword)
    else if !PasswordsMatch(f) then Some(PasswordMismatch)
    else if !f.agreed then Some(TermsRequired)
    else None
  }

  /** A submittable form shows no message; a complete form shows none only when it is submittable. */
  lemma MessageMatchesSubmit(f: AccountForm)
    ensures CanSubmit(f) ==> ValidationMessage(f).None?
    ensures !Incomplete(f) ==> (ValidationMessage(f).None? <==> CanSubmit(f))
  {
  }

  /** Passwords are compared untrimmed: a trailing space on the confirmation makes them differ. */
  lemma MatchNeedsNoTrim(f: AccountForm)
    requires f.password == f.confirmPassword && f.password != []
    ensures PasswordsMatch(f)
    ensures PasswordsMatch(f.(confirmPassword := f.confirmPassword + " ")) == false
  {
    assert |f.confirmPassword + " "| != |f.password|;
  }

  /** `attemptCreate`: shows the "Coming soon" alert, and only for a submittable form. */
  function AttemptCreate(f: AccountForm, showComingSoon: bool): (r: bool)
    ensures r == (showComingSoon || CanSubmit(f))
  {
    if !CanSubmit(f) then showComingSoon else true
  }
}
