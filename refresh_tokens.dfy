/** RefreshTokenService: the refresh-token ledger, which keeps at most one token per user. */
module RefreshTokens {
  import opened Wrappers
  import opened Users
  import opened Errors

  /** A stored refresh token: an opaque string, its owner, and its expiry instant (milliseconds). */
  datatype RefreshToken = RefreshToken(token: string, user: User, expiryDate: int)

  /** The ledger, keyed by token string. */
  type Ledger = map<string, RefreshToken>

  /** Each entry is stored under its own token string. */
  ghost predicate KeyedByToken(ledger: Ledger) {
    forall t :: t in ledger ==> ledger[t].token == t
  }

  /** The one-active-token policy: no two entries belong to the same user. */
  ghost predicate AtMostOnePerUser(ledger: Ledger) {
    forall t1, t2 :: t1 in ledger && t2 in ledger && ledger[t1].user.id == ledger[t2].user.id ==> t1 == t2
  }

  /** The token strings held by one user. */
  function TokensOf(ledger: Ledger, userId: int): set<string> {
    set t | t in ledger && ledger[t].user.id == userId
  }

  /** The ledger without the entries of one user. */
  function WithoutUser(ledger: Ledger, userId: int): Ledger {
    map t | t in ledger && ledger[t].user.id != userId :: ledger[t]
  }

  /** The ledger after `createRefreshToken` has issued `tok`: the owner's old entry is gone and `tok` is in. */
  function Rotated(ledger: Ledger, tok: RefreshToken): (r: Ledger)
    ensures tok.token in r && r[tok.token] == tok
    ensures forall t :: t in r && t != tok.token ==> t in ledger && r[t] == ledger[t] && ledger[t].user.id != tok.user.id
    ensures forall t :: t in ledger && ledger[t].user.id != tok.user.id ==> t in r
  {
    WithoutUser(ledger, tok.user.id)[tok.token := tok]
  }

  /** After a rotation the owner holds exactly the new token. */
  lemma RotatedLeavesOneToken(ledger: Ledger, tok: RefreshToken)
    ensures TokensOf(Rotated(ledger, tok), tok.user.id) == {tok.token}
  {
  }

  /** A rotation with a fresh token string leaves every other user's entry as it was, and adds nothing else. */
  lemma RotatedKeepsOthers(ledger: Ledger, tok: RefreshToken)
    requires tok.token !in ledger
    ensures forall t :: t in ledger && ledger[t].user.id != tok.user.id ==> t in Rotated(ledger, tok) && Rotated(ledger, tok)[t] == ledger[t]
    ensures forall t :: t in Rotated(ledger, tok) ==> t == tok.token || (t in ledger && Rotated(ledger, tok)[t] == ledger[t])
  {
  }

  /** A rotation with a fresh token string keeps the ledger's invariants. */
  lemma RotatedValid(ledger: Ledger, tok: RefreshToken)
    requires KeyedByToken(ledger) && AtMostOnePerUser(ledger) && tok.token !in ledger
    ensures KeyedByToken(Rotated(ledger, tok)) && AtMostOnePerUser(Rotated(ledger, tok))
  {
  }

  /** Two rotations for the same user in a row: only the second token remains. */
  lemma RotatedTwice(ledger: Ledger, first: RefreshToken, second: RefreshToken)
    requires first.user.id == second.user.id && first.token != second.token
    ensures TokensOf(Rotated(Rotated(ledger, first), second), second.user.id) == {second.token}
    ensures first.token !in Rotated(Rotated(ledger, first), second)
  {
    RotatedLeavesOneToken(Rotated(ledger, first), second);
  }

  /** Removing a user's only token leaves nothing of that user to remove. */
  lemma RemovingOnlyToken(ledger: Ledger, token: string)
    requires AtMostOnePerUser(ledger) && token in ledger
    ensures WithoutUser(ledger - {token}, ledger[token].user.id) == ledger - {token}
  {
  }

  class RefreshTokenService {
    /** `jwt.refresh-token.expiration`, in milliseconds. */
    const durationMs: int
    const userRepository: UserRepository
    var ledger: Ledger

    ghost predicate Valid()
      reads this
    {
      KeyedByToken(ledger) && AtMostOnePerUser(ledger)
    }

    constructor (durationMs: int, userRepository: UserRepository)
      ensures Valid() && ledger == map[]
      ensures this.durationMs == durationMs && this.userRepository == userRepository
    {
      this.durationMs := durationMs;
      this.userRepository := userRepository;
      ledger := map[];
    }

    /** `createRefreshToken`: an unknown email fails and changes nothing; otherwise the user's existing
        token is deleted and a new one, expiring `durationMs` after `now`, is stored under `newToken`
        (the random UUID, which is not yet in the ledger). */
    method CreateRefreshToken(userEmail: string, now: int, newToken: string) returns (r: Result<RefreshToken, Error>)
      requires Valid() && newToken !in ledger
      modifies this
      ensures Valid()
      ensures r.Failure? <==> FindByEmail(userRepository.users, userEmail).None?
      ensures r.Failure? ==> r.error == EntityNotFound && ledger == old(ledger)
      ensures r.Success? ==> r.value == RefreshToken(newToken, FindByEmail(userRepository.users, userEmail).value, now + durationMs)
      ensures r.Success? ==> ledger == Rotated(old(ledger), r.value)
    {
      var found := FindByEmail(userRepository.users, userEmail);
      if found.None? {
        return Failure(EntityNotFound);
      }
      var user := found.value;
      if exists t :: t in ledger && ledger[t].user.id == user.id {
        var existing :| existing in ledger && ledger[existing].user.id == user.id;
        ledger := ledger - {existing};
      }
      assert ledger == WithoutUser(old(ledger), user.id);
      var refreshToken := RefreshToken(newToken, user, now + durationMs);
      RotatedValid(old(ledger), refreshToken);
      ledger := ledger[newToken := refreshToken];
      r := Success(refreshToken);
    }

    /** `verifyExpiration`: a token whose expiry is strictly before `now` is deleted and rejected;
        otherwise it is returned and the ledger is untouched (expiry equal to `now` still passes). */
    method VerifyExpiration(refreshToken: RefreshToken, now: int) returns (r: Result<RefreshToken, Error>)
      requires Valid()
      modifies this
      ensures Valid()
      ensures refreshToken.expiryDate < now ==> r == Failure(RefreshTokenExpired) && ledger == old(ledger) - {refreshToken.token}
      ensures now <= refreshToken.expiryDate ==> r == Success(refreshToken) && ledger == old(ledger)
    {
      if refreshToken.expiryDate < now {
        ledger := ledger - {refreshToken.token};
        return Failure(RefreshTokenExpired);
      }
      r := Success(refreshToken);
    }

    /** `findByToken`: a read-only lookup. */
    function FindByToken(token: string): (r: Option<RefreshToken>)
      reads this
      requires Valid()
      ensures r.Some? <==> token in ledger
      ensures r.Some? ==> r.value.token == token && r.value == ledger[token]
    {
      if token in ledger then Some(ledger[token]) else None
    }

    /** `deleteByToken`: removes the entry with that token string, if any. */
    method DeleteByToken(token: string)
      requires Valid()
      modifies this
      ensures Valid()
      ensures ledger == old(ledger) - {token}
    {
      ledger := ledger - {token};
    }
  }
}
