/**
 * `validateRegistration` (service/userService.js): a chain of checks, each
 * returning its own message when it fails, over the password, its
 * confirmation, the trimmed lower-cased username and email, the email
 * format, and finally whether the username or the email is already taken.
 */
module Users {
  import opened Wrappers
  import Text

  /** A stored user, with the normal forms the lookups match on. */
  datatype UserDoc = UserDoc(usernameNormal: string, email: string)

  /** The fields of a registration request; a missing field is `None`. */
  datatype Registration = Registration(
    username: Option<string>,
    email: Option<string>,
    password: Option<string>,
    passwordConfirm: Option<string>)

  const PasswordTooShort := "Password is too short."
  const PasswordMismatch := "Password and confirmation do not match."
  const UsernameBlank := "Username cannot be blank."
  const EmailBlank := "Email cannot be blank."
  const EmailInvalid := "Invalid email format."
  const UsernameInUse := "Username already in use."
  const EmailInUse := "Email already in use."

  /** The shortest password accepted. */
  const MinPasswordLength := 8

  predicate PasswordLongEnough(req: Registration) {
    !Text.Falsy(req.password) && |req.password.value| >= MinPasswordLength
  }

  predicate ConfirmationMatches(req: Registration) {
    !Text.Falsy(req.passwordConfirm) && req.password == req.passwordConfirm
  }

  predicate UsernameGiven(req: Registration) {
    !Text.Falsy(req.username) && Text.Normalize(req.username.value) != []
  }

  predicate EmailGiven(req: Registration) {
    !Text.Falsy(req.email) && Text.Normalize(req.email.value) != []
  }

  /** `getByUsername(tlUsername)` finds a user. */
  predicate UsernameTaken(users: seq<UserDoc>, username: string) {
    exists u :: u in users && u.usernameNormal == Text.Normalize(username)
  }

  /** `getByEmail(tlEmail)` finds a user. */
  predicate EmailTaken(users: seq<UserDoc>, email: string) {
    exists u :: u in users && u.email == Text.Normalize(email)
  }

  /**
   * `validateRegistration`; `validEmail` stands for the email regular
   * expression, applied to the trimmed, lower-cased email.
   */
  function ValidateRegistration(users: seq<UserDoc>, req: Registration, validEmail: string -> bool): Result<()> {
    if !PasswordLongEnough(req) then Failure(PasswordTooShort)
    else if !ConfirmationMatches(req) then Failure(PasswordMismatch)
    else if Text.Falsy(req.username) then Failure(UsernameBlank)
    else if Text.Normalize(req.username.value) == [] then Failure(UsernameBlank)
    else if Text.Falsy(req.email) then Failure(EmailBlank)
    else if Text.Normalize(req.email.value) == [] then Failure(EmailBlank)
    else if !validEmail(Text.Normalize(req.email.value)) then Failure(EmailInvalid)
    else if UsernameTaken(users, req.username.value) then Failure(UsernameInUse)
    else if EmailTaken(users, req.email.value) then Failure(EmailInUse)
    else Success(())
  }

  /**
   * Each message is returned exactly when its check is the first to fail:
   * every earlier check passed and this one did not.
   */
  lemma ValidateRegistrationFirstFailure(users: seq<UserDoc>, req: Registration, validEmail: string -> bool)
    ensures ValidateRegistration(users, req, validEmail) == Failure(PasswordTooShort) <==> !PasswordLongEnough(req)
    ensures ValidateRegistration(users, req, validEmail) == Failure(PasswordMismatch) <==>
      PasswordLongEnough(req) && !ConfirmationMatches(req)
    ensures ValidateRegistration(users, req, validEmail) == Failure(UsernameBlank) <==>
      PasswordLongEnough(req) && ConfirmationMatches(req) && !UsernameGiven(req)
    ensures ValidateRegistration(users, req, validEmail) == Failure(EmailBlank) <==>
      PasswordLongEnough(req) && ConfirmationMatches(req) && UsernameGiven(req) && !EmailGiven(req)
    ensures ValidateRegistration(users, req, validEmail) == Failure(EmailInvalid) <==>
      (PasswordLongEnough(req) && ConfirmationMatches(req) && UsernameGiven(req) && EmailGiven(req) &&
       !validEmail(Text.Normalize(req.email.value)))
    ensures ValidateRegistration(users, req, validEmail) == Failure(UsernameInUse) <==>
      (PasswordLongEnough(req) && ConfirmationMatches(req) && UsernameGiven(req) && EmailGiven(req) &&
       validEmail(Text.Normalize(req.email.value)) && UsernameTaken(users, req.username.value))
    ensures ValidateRegistration(users, req, validEmail) == Failure(EmailInUse) <==>
      (PasswordLongEnough(req) && ConfirmationMatches(req) && UsernameGiven(req) && EmailGiven(req) &&
       validEmail(Text.Normalize(req.email.value)) && !UsernameTaken(users, req.username.value) &&
       EmailTaken(users, req.email.value))
  {
    EmptyNormalizesEmpty();
  }

  /** Registration is accepted exactly when every check passes. */
  lemma ValidateRegistrationSucceeds(users: seq<UserDoc>, req: Registration, validEmail: string -> bool)
    ensures ValidateRegistration(users, req, validEmail).Success? <==>
      && PasswordLongEnough(req) && ConfirmationMatches(req) && UsernameGiven(req) && EmailGiven(req)
      && validEmail(Text.Normalize(req.email.value))
      && !UsernameTaken(users, req.username.value) && !EmailTaken(users, req.email.value)
  {
    EmptyNormalizesEmpty();
  }

  lemma EmptyNormalizesEmpty()
    ensures Text.Normalize("") == []
  {
  }

  /** A username that differs from a stored one only in case and surrounding white space is taken. */
  lemma UsernameVariantTaken(users: seq<UserDoc>, u: UserDoc, name: string, pre: string, post: string)
    requires u in users && u.usernameNormal == Text.Normalize(name)
    requires Text.AllSpace(pre) && Text.AllSpace(post)
    ensures UsernameTaken(users, pre + Text.ToUpper(name) + post)
  {
    Text.VariantNormalizes(name, pre, post);
  }

  /** The uniqueness lookups are reached only after every format check has passed. */
  lemma InUseOnlyAfterFormat(users: seq<UserDoc>, req: Registration, validEmail: string -> bool)
    requires ValidateRegistration(users, req, validEmail) in {Failure(UsernameInUse), Failure(EmailInUse), Success(())}
    ensures PasswordLongEnough(req) && ConfirmationMatches(req) && UsernameGiven(req) && EmailGiven(req)
    ensures validEmail(Text.Normalize(req.email.value))
  {
    EmptyNormalizesEmpty();
  }
}
