/** AuthService: login, registration, refresh-token rotation and logout over the user table and
    the refresh-token ledger. The clock reading, the random token string, and the password
    encoder's `encode` and `matches` are parameters. */
module Auth {
  import opened Wrappers
  import opened Users
  import opened Errors
  import opened Jwt
  import opened RefreshTokens
  import opened RegisterRequests
  import opened Validators

  /** The response of login, register and refresh. */
  datatype AuthResponse = AuthResponse(token: AccessToken, refreshToken: string, username: string, expiresAt: int)

  /** The credential check: a user with that email exists and the encoder accepts the password
      against the stored hash. */
  function CredentialsAccepted(users: seq<User>, email: string, password: string, matches: (string, string) -> bool): (r: bool)
    ensures r ==> exists u :: u in users && u.email == email && matches(password, u.passwordHash)
    ensures !ExistsByEmail(users, email) ==> !r
  {
    var found := FindByEmail(users, email);
    found.Some? && matches(password, found.value.passwordHash)
  }

  /** With unique emails the check accepts exactly when the stored user with that email has a
      hash the encoder accepts. */
  lemma CredentialsAcceptedUnique(users: seq<User>, email: string, password: string, matches: (string, string) -> bool)
    requires UniqueEmails(users)
    ensures CredentialsAccepted(users, email, password, matches) <==>
              exists u :: u in users && u.email == email && matches(password, u.passwordHash)
  {
    if u :| u in users && u.email == email && matches(password, u.passwordHash) {
      FindByEmailOfStored(users, u);
    }
  }

  /** `UserFactory.createUser`: the request's names, the encoded password and the given role;
      the id is assigned when the user is saved. */
  function CreateUser(username: string, email: string, password: string, role: Role, encode: string -> string): User {
    User(0, username, email, encode(password), role)
  }

  class AuthService {
    const users: UserRepository
    const refreshTokens: RefreshTokenService
    /** `jwt.expiration`, in milliseconds. */
    const jwtExpirationMs: int

    /** The two services share the user table; emails and usernames are unique; every ledger
        entry belongs to a stored user. */
    ghost predicate Valid()
      reads this, users, refreshTokens
    {
      && refreshTokens.userRepository == users
      && users.Valid() && refreshTokens.Valid()
      && UniqueEmails(users.users) && UniqueUsernames(users.users)
      && forall t :: t in refreshTokens.ledger ==> refreshTokens.ledger[t].user in users.users
    }

    constructor (users: UserRepository, refreshTokens: RefreshTokenService, jwtExpirationMs: int)
      requires users.Valid() && users.users == []
      requires refreshTokens.Valid() && refreshTokens.ledger == map[] && refreshTokens.userRepository == users
      ensures Valid()
      ensures this.users == users && this.refreshTokens == refreshTokens && this.jwtExpirationMs == jwtExpirationMs
    {
      this.users := users;
      this.refreshTokens := refreshTokens;
      this.jwtExpirationMs := jwtExpirationMs;
    }

    /** A token issued by a rotation belongs to a stored user, so the ledger invariant survives it. */
    lemma RotationKeepsOwnersStored(ledger: Ledger, tok: RefreshToken)
      requires tok.token !in ledger && tok.user in users.users
      requires forall t :: t in ledger ==> ledger[t].user in users.users
      ensures forall t :: t in Rotated(ledger, tok) ==> Rotated(ledger, tok)[t].user in users.users
    {
    }

    /** `authenticate`: failed credentials change nothing; otherwise an access token is issued and the
        user's refresh token is always replaced by a new one. */
    method Authenticate(email: string, password: string, matches: (string, string) -> bool, now: int, newToken: string)
      returns (r: Result<AuthResponse, Error>)
      requires Valid() && newToken !in refreshTokens.ledger
      modifies refreshTokens
      ensures Valid()
      ensures !CredentialsAccepted(users.users, email, password, matches) ==>
                r == Failure(BadCredentials) && refreshTokens.ledger == old(refreshTokens.ledger)
      ensures CredentialsAccepted(users.users, email, password, matches) ==>
                var issued := RefreshToken(newToken, FindByEmail(users.users, email).value, now + refreshTokens.durationMs);
                && r == Success(AuthResponse(GenerateToken(email, now, jwtExpirationMs), newToken, email, ExtractExpirationTime(GenerateToken(email, now, jwtExpirationMs))))
                && refreshTokens.ledger == Rotated(old(refreshTokens.ledger), issued)
    {
      if !CredentialsAccepted(users.users, email, password, matches) {
        return Failure(BadCredentials);
      }
      var jwtToken := GenerateToken(email, now, jwtExpirationMs);
      var expiresAt := ExtractExpirationTime(jwtToken);
      ghost var before := refreshTokens.ledger;
      var refreshToken := refreshTokens.CreateRefreshToken(email, now, newToken);
      RotationKeepsOwnersStored(before, refreshToken.value);
      r := Success(AuthResponse(jwtToken, refreshToken.value.token, email, expiresAt));
    }

    /** `register`: a taken email or username fails first and adds nothing; otherwise a USER-role user
        is stored and given exactly one refresh token. */
    method Register(req: RegisterRequest, encode: string -> string, now: int, newToken: string)
      returns (r: Result<AuthResponse, Error>)
      requires Valid() && newToken !in refreshTokens.ledger
      requires req.username.Some? && req.email.Some? && req.password.Some?
      modifies users, refreshTokens
      ensures Valid()
      ensures var check := ValidateUniqueFields(old(users.users), req.email.value, req.username.value);
              && (check.Fail? ==> r == Failure(check.error) && users.users == old(users.users)
                                  && refreshTokens.ledger == old(refreshTokens.ledger))
              && (check.Pass? ==> r.Success?)
      ensures r.Success? ==>
                var user := User(|old(users.users)| + 1, req.username.value, req.email.value, encode(req.password.value), UserRole);
                && users.users == old(users.users) + [user]
                && refreshTokens.ledger == old(refreshTokens.ledger)[newToken := RefreshToken(newToken, user, now + refreshTokens.durationMs)]
                && TokensOf(refreshTokens.ledger, user.id) == {newToken}
                && r.value == AuthResponse(GenerateToken(user.email, now, jwtExpirationMs), newToken, user.email, ExtractExpirationTime(GenerateToken(user.email, now, jwtExpirationMs)))
    {
      var check := ValidateUniqueFields(users.users, req.email.value, req.username.value);
      if check.Fail? {
        return Failure(check.error);
      }
      var user := CreateUser(req.username.value, req.email.value, req.password.value, UserRole, encode);
      ghost var before := users.users;
      var saved := users.Save(user);
      UniqueFieldsKept(before, saved);
      FindByEmailAppend(before, saved, saved.email);
      NewUserHasNoToken(before, saved);
      var jwtToken := GenerateToken(saved.email, now, jwtExpirationMs);
      ghost var ledgerBefore := refreshTokens.ledger;
      var refreshToken := refreshTokens.CreateRefreshToken(saved.email, now, newToken);
      RotationKeepsOwnersStored(ledgerBefore, refreshToken.value);
      RotatedLeavesOneToken(ledgerBefore, refreshToken.value);
      var expiresAt := ExtractExpirationTime(jwtToken);
      r := Success(AuthResponse(jwtToken, refreshToken.value.token, saved.email, expiresAt));
    }

    /** A user just appended under the next id owns no ledger entry yet. */
    lemma NewUserHasNoToken(before: seq<User>, saved: User)
      requires Valid() && users.users == before + [saved] && saved.id == |before| + 1
      requires forall t :: t in refreshTokens.ledger ==> refreshTokens.ledger[t].user in before
      ensures WithoutUser(refreshTokens.ledger, saved.id) == refreshTokens.ledger
    {
      forall t | t in refreshTokens.ledger ensures refreshTokens.ledger[t].user.id != saved.id {
        var i :| 0 <= i < |before| && before[i] == refreshTokens.ledger[t].user;
        assert users.users[i] == before[i];
      }
    }

    /** `refresh`: an unknown token fails and changes nothing; an expired one is deleted and fails;
        otherwise the used token is deleted and a different one is issued to the same user. */
    method Refresh(token: string, now: int, newToken: string) returns (r: Result<AuthResponse, Error>)
      requires Valid() && newToken !in refreshTokens.ledger
      modifies refreshTokens
      ensures Valid()
      ensures token !in old(refreshTokens.ledger) ==> r == Failure(InvalidToken) && refreshTokens.ledger == old(refreshTokens.ledger)
      ensures token in old(refreshTokens.ledger) && old(refreshTokens.ledger)[token].expiryDate < now ==>
                r == Failure(RefreshTokenExpired) && refreshTokens.ledger == old(refreshTokens.ledger) - {token}
      ensures token in old(refreshTokens.ledger) && now <= old(refreshTokens.ledger)[token].expiryDate ==>
                var user := old(refreshTokens.ledger)[token].user;
                && refreshTokens.ledger == (old(refreshTokens.ledger) - {token})[newToken := RefreshToken(newToken, user, now + refreshTokens.durationMs)]
                && r == Success(AuthResponse(GenerateToken(user.email, now, jwtExpirationMs), newToken, user.email, ExtractExpirationTime(GenerateToken(user.email, now, jwtExpirationMs))))
      ensures r.Success? ==> token !in refreshTokens.ledger && r.value.refreshToken != token
    {
      var found := refreshTokens.FindByToken(token);
      if found.None? {
        return Failure(InvalidToken);
      }
      var oldRefreshToken := found.value;
      var verified := refreshTokens.VerifyExpiration(oldRefreshToken, now);
      if verified.Failure? {
        return Failure(verified.error);
      }
      var user := oldRefreshToken.user;
      ghost var ledgerBefore := refreshTokens.ledger;
      refreshTokens.DeleteByToken(token);
      RemovingOnlyToken(ledgerBefore, token);
      FindByEmailOfStored(users.users, user);
      ghost var afterDelete := refreshTokens.ledger;
      var newRefreshToken := refreshTokens.CreateRefreshToken(user.email, now, newToken);
      RotationKeepsOwnersStored(afterDelete, newRefreshToken.value);
      var jwtToken := GenerateToken(user.email, now, jwtExpirationMs);
      var expiresAt := ExtractExpirationTime(jwtToken);
      r := Success(AuthResponse(jwtToken, newRefreshToken.value.token, user.email, expiresAt));
    }

    /** `logout`: removes that token, and only it; an unknown token is not an error. */
    method Logout(token: string)
      requires Valid()
      modifies refreshTokens
      ensures Valid()
      ensures refreshTokens.ledger == old(refreshTokens.ledger) - {token}
    {
      refreshTokens.DeleteByToken(token);
    }
  }
}
