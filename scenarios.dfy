/** End-to-end flows, stated against the services' contracts alone. */
module Scenarios {
  import opened Wrappers
  import opened Users
  import opened TaskEntity
  import opened Errors
  import opened TaskRequests
  import opened TaskService
  import opened RefreshTokens
  import opened RegisterRequests
  import opened Validators
  import opened Auth

  /** Register, then log in with the same credentials: the refresh token handed out at
      registration can no longer be used. */
  method RegisterThenLogin(auth: AuthService, username: string, email: string, password: string,
                           encode: string -> string, matches: (string, string) -> bool,
                           now: int, first: string, second: string, third: string)
    returns (refreshed: Result<AuthResponse, Error>)
    requires auth.Valid()
    requires first !in auth.refreshTokens.ledger && second !in auth.refreshTokens.ledger && third !in auth.refreshTokens.ledger
    requires first != second && second != third && first != third
    requires ValidateUniqueFields(auth.users.users, email, username).Pass?
    requires matches(password, encode(password))
    modifies auth.users, auth.refreshTokens
    ensures refreshed == Failure(InvalidToken)
  {
    var registered := auth.Register(RegisterRequest(Some(username), Some(email), Some(password), Some(password)), encode, now, first);
    assert registered.value.refreshToken == first;
    assert FindByEmail(auth.users.users, email).Some? by {
      assert auth.users.users[|auth.users.users| - 1].email == email;
    }
    var loggedIn := auth.Authenticate(email, password, matches, now, second);
    assert first !in auth.refreshTokens.ledger by {
      RotatedLeavesOneToken(old(auth.refreshTokens.ledger)[first := RefreshToken(first, FindByEmail(auth.users.users, email).value, now + auth.refreshTokens.durationMs)],
                            RefreshToken(second, FindByEmail(auth.users.users, email).value, now + auth.refreshTokens.durationMs));
    }
    refreshed := auth.Refresh(first, now, third);
  }

  /** A refresh token is single-use: the second refresh with it fails as an unknown token. */
  method RefreshTwice(auth: AuthService, token: string, now: int, first: string, second: string)
    returns (again: Result<AuthResponse, Error>)
    requires auth.Valid() && token in auth.refreshTokens.ledger && now <= auth.refreshTokens.ledger[token].expiryDate
    requires first !in auth.refreshTokens.ledger && second !in auth.refreshTokens.ledger && first != second
    modifies auth.refreshTokens
    ensures again == Failure(InvalidToken)
  {
    var once := auth.Refresh(token, now, first);
    assert once.Success?;
    again := auth.Refresh(token, now, second);
  }

  /** Refreshing after the token's lifetime fails as expired, and the token is gone afterwards. */
  method RefreshAfterExpiry(auth: AuthService, token: string, now: int, newToken: string)
    returns (r: Result<AuthResponse, Error>, lookup: Option<RefreshToken>)
    requires auth.Valid() && token in auth.refreshTokens.ledger && auth.refreshTokens.ledger[token].expiryDate < now
    requires newToken !in auth.refreshTokens.ledger
    modifies auth.refreshTokens
    ensures r == Failure(RefreshTokenExpired) && lookup == None
  {
    r := auth.Refresh(token, now, newToken);
    lookup := auth.refreshTokens.FindByToken(token);
  }

  /** A task created by one user and assigned to another: the assignee may start it but not send it back. */
  method AssigneeMovesTask(service: TaskService, creator: User, assignee: User, clock: int)
    returns (started: Result<TaskMapper.TaskResponse, Error>, reverted: Result<TaskMapper.TaskResponse, Error>)
    requires service.Valid() && assignee in service.users.users && creator.id != assignee.id
    modifies service
    ensures started.Success? && started.value.status == "IN_PROGRESS"
    ensures reverted == Failure(InvalidTransition(InProgress, Some(Todo)))
  {
    FindByIdOfStored(service.users.users, assignee);
    var created := service.CreateTask(creator, CreateTaskRequest(Some("Task"), None, Some(assignee.id)), clock, clock);
    var id := service.nextId - 1;
    assert AssigneeId(service.rows[id]) == Some(assignee.id);
    started := service.UpdateTaskStatus(assignee, id, Some(InProgress), clock);
    reverted := service.UpdateTaskStatus(assignee, id, Some(Todo), clock);
  }

  /** A stored user is found by its id. */
  lemma FindByIdOfStored(users: seq<User>, u: User)
    requires u in users
    ensures FindById(users, u.id).Some?
  {
  }

  /** Deleting one's own task makes it unknown: a later read reports not-found. */
  method DeleteThenRead(service: TaskService, owner: User, taskId: nat) returns (read: Result<TaskMapper.TaskResponse, Error>)
    requires service.Valid() && taskId in service.rows && service.rows[taskId].createdBy.id == owner.id
    modifies service
    ensures read == Failure(TaskNotFound(taskId))
  {
    var deleted := service.DeleteTask(owner, taskId);
    read := service.GetTaskById(taskId, owner);
  }
}
