/** RegisterRequest and its field constraints. Every field is nullable; as in Bean Validation, only
    `@NotBlank` rejects a null value, the size, format and pattern constraints let it through. */
module RegisterRequests {
  import opened Wrappers
  import opened Constraints

  datatype RegisterRequest = RegisterRequest(
    username: Option<string>,
    email: Option<string>,
    password: Option<string>,
    passwordConfirmation: Option<string>)

  /** One failed constraint of a registration request. */
  datatype Violation =
    | UsernameRequired | UsernameSize
    | EmailRequired | EmailFormat | EmailTooLong
    | PasswordRequired | PasswordSize | PasswordPattern
    | ConfirmationRequired
    | PasswordsDoNotMatch

  /** The message attached to each constraint. */
  function Message(v: Violation): string {
    match v
    case UsernameRequired => "Username is required"
    case UsernameSize => "Username must be between 3 and 30 characters"
    case EmailRequired => "Email is required"
    case EmailFormat => "Invalid email format"
    case EmailTooLong => "Email too long"
    case PasswordRequired => "Password is required"
    case PasswordSize => "Password must be between 8 and 64 characters"
    case PasswordPattern => "Password must contain uppercase, lowercase, number, and special character"
    case ConfirmationRequired => "Password confirmation is required"
    case PasswordsDoNotMatch => "Passwords do not match"
  }

  predicate IsLower(c: char) { 'a' <= c <= 'z' }
  predicate IsUpper(c: char) { 'A' <= c <= 'Z' }
  predicate IsDigit(c: char) { '0' <= c <= '9' }
  predicate IsSpecial(c: char) { c in "@$!%*?&" }

  /** The character class `[A-Za-z\d@$!%*?&]`. */
  predicate IsAllowed(c: char) { IsLower(c) || IsUpper(c) || IsDigit(c) || IsSpecial(c) }

  /** The password pattern: one lower-case letter, one upper-case letter, one digit and one special
      character somewhere (the four look-aheads), and nothing outside the allowed class. */
  predicate MatchesPasswordPattern(s: string): (r: bool)
    ensures r ==> |s| >= 4
    ensures r ==> forall i :: 0 <= i < |s| ==> IsAllowed(s[i])
  {
    && (exists i :: 0 <= i < |s| && IsLower(s[i]))
    && (exists i :: 0 <= i < |s| && IsUpper(s[i]))
    && (exists i :: 0 <= i < |s| && IsDigit(s[i]))
    && (exists i :: 0 <= i < |s| && IsSpecial(s[i]))
    && |s| > 0
    && forall i :: 0 <= i < |s| ==> IsAllowed(s[i])
  }

  /** Whether the constraint behind a field violation fails on the request. */
  predicate Fails(req: RegisterRequest, isEmail: string -> bool, v: Violation) {
    match v
    case UsernameRequired => !NotBlank(req.username)
    case UsernameSize => !SizeWithin(req.username, 3, 30)
    case EmailRequired => !NotBlank(req.email)
    case EmailFormat => req.email.Some? && !isEmail(req.email.value)
    case EmailTooLong => !SizeWithin(req.email, 0, 255)
    case PasswordRequired => !NotBlank(req.password)
    case PasswordSize => !SizeWithin(req.password, 8, 64)
    case PasswordPattern => req.password.Some? && !MatchesPasswordPattern(req.password.value)
    case ConfirmationRequired => !NotBlank(req.passwordConfirmation)
    case PasswordsDoNotMatch => false
  }

  /** The violations a field can raise; the password match is checked on the whole request. */
  const FieldConstraints: seq<Violation> := [
    UsernameRequired, UsernameSize, EmailRequired, EmailFormat, EmailTooLong,
    PasswordRequired, PasswordSize, PasswordPattern, ConfirmationRequired]

  /** The constraints declared on the fields, given the `@Email` check as a predicate. */
  function FieldViolations(req: RegisterRequest, isEmail: string -> bool): (r: set<Violation>)
    ensures PasswordsDoNotMatch !in r
    ensures UsernameRequired in r <==> !NotBlank(req.username)
    ensures EmailRequired in r <==> !NotBlank(req.email)
    ensures PasswordRequired in r <==> !NotBlank(req.password)
    ensures ConfirmationRequired in r <==> !NotBlank(req.passwordConfirmation)
    ensures UsernameSize in r <==> req.username.Some? && !(3 <= |req.username.value| <= 30)
    ensures EmailFormat in r <==> req.email.Some? && !isEmail(req.email.value)
    ensures EmailTooLong in r <==> req.email.Some? && |req.email.value| > 255
    ensures PasswordSize in r <==> req.password.Some? && !(8 <= |req.password.value| <= 64)
    ensures PasswordPattern in r <==> req.password.Some? && !MatchesPasswordPattern(req.password.value)
  {
    set v | v in FieldConstraints && Fails(req, isEmail, v)
  }

  /** What a request without field violations guarantees about its password: present, 8 to 64
      characters, one of each required class, and only allowed characters. */
  lemma FieldValidPassword(req: RegisterRequest, isEmail: string -> bool)
    requires FieldViolations(req, isEmail) == {}
    ensures req.username.Some? && 3 <= |req.username.value| <= 30
    ensures req.email.Some? && isEmail(req.email.value) && |req.email.value| <= 255
    ensures req.passwordConfirmation.Some?
    ensures req.password.Some? && 8 <= |req.password.value| <= 64
    ensures forall i :: 0 <= i < |req.password.value| ==> IsAllowed(req.password.value[i])
    ensures exists i :: 0 <= i < |req.password.value| && IsSpecial(req.password.value[i])
  {
  }

  /** A password with a character outside the allowed class fails the pattern. */
  lemma ForeignCharacterRejected(s: string, k: nat)
    requires k < |s| && !IsAllowed(s[k])
    ensures !MatchesPasswordPattern(s)
  {
  }
}
