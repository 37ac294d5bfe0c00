/** UserValidator (uniqueness against the user table) and PasswordMatchesValidator (the class-level
    constraint of RegisterRequest). */
module Validators {
  import opened Wrappers
  import opened Users
  import opened Errors
  import opened Constraints
  import opened RegisterRequests

  /** `validateUniqueFields`: the email is checked first, so a request whose email and username are
      both taken reports the email. The user table is only read. */
  function ValidateUniqueFields(users: seq<User>, email: string, username: string): (r: Outcome<Error>)
    ensures r.Pass? <==> forall u :: u in users ==> u.email != email && u.username != username
    ensures ExistsByEmail(users, email) ==> r == Fail(DuplicateResource("Email already in use: " + email))
    ensures !ExistsByEmail(users, email) && ExistsByUsername(users, username) ==>
              r == Fail(DuplicateResource("Username already in use: " + username))
  {
    if ExistsByEmail(users, email) then Fail(DuplicateResource("Email already in use: " + email))
    else if ExistsByUsername(users, username) then Fail(DuplicateResource("Username already in use: " + username))
    else Pass
  }

  /** Adding a user that passed the uniqueness check keeps emails and usernames unique. */
  lemma UniqueFieldsKept(users: seq<User>, u: User)
    requires UniqueEmails(users) && UniqueUsernames(users)
    requires ValidateUniqueFields(users, u.email, u.username).Pass?
    ensures UniqueEmails(users + [u]) && UniqueUsernames(users + [u])
  {
  }

  /** `isValid` of the password-match constraint: both present and equal. */
  function PasswordMatches(req: RegisterRequest): (r: bool)
    ensures req.password.None? || req.passwordConfirmation.None? ==> !r
    ensures r <==> req.password.Some? && req.password == req.passwordConfirmation
  {
    if req.password.None? || req.passwordConfirmation.None? then false
    else req.password.value == req.passwordConfirmation.value
  }

  /** The match constraint does not depend on which field holds which value. */
  lemma PasswordMatchesSymmetric(req: RegisterRequest)
    ensures PasswordMatches(req) == PasswordMatches(req.(password := req.passwordConfirmation, passwordConfirmation := req.password))
  {
  }

  /** All constraint violations of a registration request: the field constraints and the class-level one. */
  function Violations(req: RegisterRequest, isEmail: string -> bool): (r: set<Violation>)
    ensures PasswordsDoNotMatch in r <==> !PasswordMatches(req)
    ensures r - {PasswordsDoNotMatch} == FieldViolations(req, isEmail)
  {
    FieldViolations(req, isEmail) + (if PasswordMatches(req) then {} else {PasswordsDoNotMatch})
  }

  /** "Test@1234" and "CorrectPassword12!" satisfy every password rule. */
  lemma SamplePasswordsAccepted()
    ensures MatchesPasswordPattern("Test@1234") && 8 <= |"Test@1234"| <= 64
    ensures MatchesPasswordPattern("CorrectPassword12!") && 8 <= |"CorrectPassword12!"| <= 64
  {
    var a := "Test@1234";
    assert IsUpper(a[0]) && IsLower(a[1]) && IsSpecial(a[4]) && IsDigit(a[5]);
    var b := "CorrectPassword12!";
    assert IsUpper(b[0]) && IsLower(b[1]) && IsDigit(b[15]) && IsSpecial(b[17]);
  }

  /** A six-character password that meets the pattern is rejected for its length alone. */
  lemma ShortPasswordRejected(isEmail: string -> bool)
    requires isEmail("test@test.fr")
    ensures Violations(RegisterRequest(Some("test"), Some("test@test.fr"), Some("Weak1!"), Some("Weak1!")), isEmail) == {PasswordSize}
    ensures Message(PasswordSize) == "Password must be between 8 and 64 characters"
  {
    var w := "Weak1!";
    assert IsUpper(w[0]) && IsLower(w[1]) && IsDigit(w[4]) && IsSpecial(w[5]);
    assert NotBlank(Some("test")) by { assert "test"[0] > ' '; }
    assert NotBlank(Some("test@test.fr")) by { assert "test@test.fr"[0] > ' '; }
    assert NotBlank(Some(w)) by { assert w[0] > ' '; }
  }

  /** A password without a special character is rejected for the pattern alone. */
  lemma NoSpecialCharacterRejected(isEmail: string -> bool)
    requires isEmail("test@test.fr")
    ensures Violations(RegisterRequest(Some("test"), Some("test@test.fr"),
                                       Some("WithoutSpecialCharacter123"), Some("WithoutSpecialCharacter123")), isEmail)
            == {PasswordPattern}
  {
    var p := "WithoutSpecialCharacter123";
    assert !IsSpecial(p[0]);
    assert !(exists i :: 0 <= i < |p| && IsSpecial(p[i]));
    assert NotBlank(Some("test")) by { assert "test"[0] > ' '; }
    assert NotBlank(Some("test@test.fr")) by { assert "test@test.fr"[0] > ' '; }
    assert NotBlank(Some(p)) by { assert p[0] > ' '; }
  }

  /** A well-formed request whose confirmation differs is rejected by the match constraint alone. */
  lemma MismatchRejected(isEmail: string -> bool)
    requires isEmail("test@test.fr")
    ensures Violations(RegisterRequest(Some("test"), Some("test@test.fr"),
                                       Some("CorrectPassword12!"), Some("DifferentPassword12!")), isEmail)
            == {PasswordsDoNotMatch}
  {
    SamplePasswordsAccepted();
    assert "CorrectPassword12!" != "DifferentPassword12!" by { assert "CorrectPassword12!"[0] != "DifferentPassword12!"[0]; }
    assert NotBlank(Some("test")) by { assert "test"[0] > ' '; }
    assert NotBlank(Some("test@test.fr")) by { assert "test@test.fr"[0] > ' '; }
    assert NotBlank(Some("CorrectPassword12!")) by { assert "CorrectPassword12!"[0] > ' '; }
    assert NotBlank(Some("DifferentPassword12!")) by { assert "DifferentPassword12!"[0] > ' '; }
  }
}
