# securetask: authentication, refresh-token rotation and task access control in Dafny

This project models the core of securetask, a Spring Boot task manager. The core has three parts:

- **Authentication.** Login checks credentials against the user table, registration stores a new USER-role user, and both issue an access token (reduced to its claims) together with a refresh token.
- **Refresh-token ledger.** It keeps at most one live refresh token per user.
  - Every login, registration and refresh rotates the user's token.
  - A refresh token is single-use.
  - An expired refresh token is deleted when it is presented (as written; the surrounding transaction undoes it).
- **Task service.** Every read, update, status change and delete first passes the ownership check.
  - ADMIN and MANAGER bypass the check.
  - Anyone else must be the creator or the assignee.
  - Status changes follow the workflow TODO → IN_PROGRESS → DONE, and DONE is terminal.

How the pieces are modelled:

- **Stores.**
  - The user table is a `UserRepository` class over a `seq<User>`, with ids assigned in insertion order.
  - The refresh-token ledger is a `map` from token string to record, held by `RefreshTokenService`.
  - The tasks table is a `map` from id to a `TaskData` row, held by `TaskService`.
- **Managed task objects.**
  - Loading a task hands out a fresh `Task` object.
  - The service changes that object through its fields, as the mapper's setters do.
  - Saving writes the object's snapshot back.
- **Failure before save.** An operation that fails before it saves leaves the tables unchanged. This is what the transactional rollback gives in the source.
- **Flush.** `save` on a loaded task does not write by itself. At commit, a task whose fields changed is stamped by the update hook and written back. The responses of `updateTask` and `updateTaskStatus` are built before that, so they carry the update stamp the task had when loaded.
- **Errors.** Exceptions are constructors of `Errors.Error`, returned in a `Result` or `Outcome`.
- **Environment as parameters.** These are passed in explicitly:
  - the acting user;
  - clock readings;
  - the random token string;
  - the password encoder's `encode` and `matches`;
  - the `@Email` check.

Modules:

| Module | Content |
|---|---|
| `Wrappers` | Option, Result, Outcome |
| `Users` | users, lookups, user table |
| `TaskEntity` | enums, `TaskData`, class `Task` with its persistence hooks |
| `Errors` | the exceptions |
| `TaskWorkflow` | transition table and ownership check |
| `Constraints` | Bean Validation `@NotBlank` and `@Size` with their null semantics |
| `TaskRequests` | task request records |
| `TaskMapper` | partial update and response |
| `TaskService` | task service |
| `Jwt` | access-token claims |
| `RefreshTokens` | ledger and its service |
| `RegisterRequests` | registration constraints |
| `Validators` | uniqueness and password-match validators |
| `Auth` | authentication service |
| `Scenarios` | end-to-end flows |

Four behaviours of the code worth knowing, each of which the model keeps:

- **Expiry at exactly `now`.**
  - `verifyExpiration` rejects a token only when its expiry is strictly before `now` (`isBefore`).
  - A token that expires exactly at `now` is still accepted.
- **The general update always checks the transition.**
  - `UpdateTaskRequest.status` is `@NotNull`, and `updateTask` validates the transition whenever a status is given.
  - So a validated general update always runs the transition check.
  - Re-sending the current status is rejected (`ValidUpdateAlwaysChecksTransition`).
- **Password mismatch.**
  - A registration whose password and confirmation differ is rejected by the class-level `@PasswordMatches` constraint on the request.
  - `register` itself does not check it.
  - The model states it as a violation of the request (`Validators.Violations`).
- **The `username` field of the auth response.**
  - `register` and `refresh` return the user's email in this field.
  - `authenticate` returns the authenticated principal's name there.
  - The controller tests expect the username.
  - The model returns the email in all three, which is the login identifier the principal is looked up by.

## Model

| member | source | states |
|---|---|---|
| Users.FindByEmail | backend/src/main/java/com/securetask/DAO/UserDAO.java:24-26 | a user is found iff some stored user has that email, and the one found is stored and has that email |
| Users.FindById | backend/src/main/java/com/securetask/DAO/UserDAO.java:28-30 | a user is found iff some stored user has that id, and the one found is stored and has that id |
| Users.FindByEmailOfStored | backend/src/main/java/com/securetask/DAO/UserDAO.java:24-26 | with unique emails, looking a stored user up by its email returns exactly that user |
| Users.FindByEmailAppend | backend/src/main/java/com/securetask/DAO/UserDAO.java:48-50 | after saving a user with a new email, lookups of that email find it and all other lookups are unchanged |
| Users.UserRepository.Save | backend/src/main/java/com/securetask/DAO/UserDAO.java:48-50 | the saved user gets the next identity and is appended; ids stay equal to insertion positions |
| Constraints.NotBlankIsTrimNonEmpty | backend/src/main/java/com/securetask/DTO/requests/CreateTaskRequest.java:7 | a present string passes `@NotBlank` iff trimming the characters up to U+0020 from both ends leaves something; one made only of such characters fails |
| TaskEntity.StatusName | backend/src/main/java/com/securetask/Entitity/Task.java:78-80 | the rendered status name parses back to the same status |
| TaskEntity.PriorityName | backend/src/main/java/com/securetask/Entitity/Task.java:82-84 | the rendered priority name parses back to the same priority |
| TaskEntity.Task.Build | backend/src/main/java/com/securetask/Service/impl/TaskServiceImpl.java:112-118 | the built task has the given title, description, status, assignee and creator; id, priority, due date and timestamps are absent |
| TaskEntity.Task.Load | backend/src/main/java/com/securetask/Service/impl/TaskServiceImpl.java:182-183 | the loaded object's fields are exactly the stored row |
| TaskEntity.Task.OnCreate | backend/src/main/java/com/securetask/Entitity/Task.java:67-71 | the persist hook sets both timestamps from two clock readings and changes no other field |
| TaskEntity.Task.OnUpdate | backend/src/main/java/com/securetask/Entitity/Task.java:73-76 | the update hook sets only `updatedAt`; `createdAt` is never touched |
| TaskWorkflow.TransitionAllowed | backend/src/main/java/com/securetask/Service/impl/TaskServiceImpl.java:204-208 | a transition is allowed iff it advances the status exactly one step along TODO, IN_PROGRESS, DONE |
| TaskWorkflow.ValidateStatusTransition | backend/src/main/java/com/securetask/Service/impl/TaskServiceImpl.java:202-215 | passes iff the target is present and allowed; otherwise fails with the (current, requested) pair; always fails from DONE and for a same-status request |
| TaskWorkflow.IsPermitted | backend/src/main/java/com/securetask/Service/impl/TaskServiceImpl.java:188-196 | access is denied iff the actor has role USER and is neither the creator nor the assignee |
| TaskWorkflow.AccessOfCreatorAndAssignee | backend/src/main/java/com/securetask/Service/impl/TaskServiceImpl.java:188-196 | the creator, the assignee, an ADMIN and a MANAGER may access a task; any other USER may not |
| TaskWorkflow.RunAdvancesRank | backend/src/main/java/com/securetask/Service/impl/TaskServiceImpl.java:204-208 | along any chain of allowed transitions, each step advances the status by exactly one position |
| TaskWorkflow.RunIsShort | backend/src/main/java/com/securetask/Service/impl/TaskServiceImpl.java:204-208 | the workflow has no cycles: a chain visits at most three statuses, and from DONE it goes nowhere |
| TaskRequests.ValidCreateRequest | backend/src/main/java/com/securetask/DTO/requests/CreateTaskRequest.java:6-17 | a valid create request has a title of 1 to 255 characters; an empty title is rejected |
| TaskRequests.ValidUpdateRequest | backend/src/main/java/com/securetask/DTO/requests/UpdateTaskRequest.java:12-26 | a valid update request has a status and a title of 1 to 255 characters |
| TaskRequests.CreateAssigneeOptional | backend/src/main/java/com/securetask/DTO/requests/CreateTaskRequest.java:16 | the assignee id, including null, never affects whether a create request is valid |
| TaskRequests.UpdateOptionalFields | backend/src/main/java/com/securetask/DTO/requests/UpdateTaskRequest.java:23-25 | priority, due date and assignee id never affect whether an update request is valid |
| TaskMapper.ApplyUpdate | backend/src/main/java/com/securetask/Mapper/TaskMapper.java:27-36 | each of title, description, priority and due date given in the request overwrites the current value; every other field is kept |
| TaskMapper.ApplyUpdateKeepsNullFields | backend/src/main/java/com/securetask/Mapper/TaskMapper.java:29-32 | a field left null in the request keeps its current value |
| TaskMapper.ApplyUpdateIdempotent | backend/src/main/java/com/securetask/Mapper/TaskMapper.java:27-36 | applying the same update twice equals applying it once |
| TaskMapper.UpdateFromRequest | backend/src/main/java/com/securetask/Mapper/TaskMapper.java:27-36 | changes the given task object in place to the partial update of its old state, and returns that same object |
| TaskMapper.ToResponse | backend/src/main/java/com/securetask/Mapper/TaskMapper.java:38-52 | id, title, description, due date and timestamps are copied; the status and priority are their enum names and read back to the stored values; a missing priority or assignee gives null; users become ids |
| TaskService.UpdatedRow | backend/src/main/java/com/securetask/Service/impl/TaskServiceImpl.java:127-140 | the update fails iff the assignee is unknown or the requested transition is not allowed; an unknown assignee is reported first; with the assignee absent or found, a disallowed or same-status transition fails with the (current, requested) pair; on success title, description, priority and due date are those of the partial update, the status is the requested one, the assignee is the one looked up, and id, creator and both timestamps are kept |
| TaskService.Flushed | backend/src/main/java/com/securetask/Entitity/Task.java:73-76 | an unchanged task leaves its row as loaded; a changed one is written with only `updatedAt` replaced by the clock reading |
| TaskService.ValidUpdateAlwaysChecksTransition | backend/src/main/java/com/securetask/Service/impl/TaskServiceImpl.java:137-140 | for a validated update request, success implies an allowed transition and, conversely, a known or absent assignee with an allowed transition succeeds; re-sending the current status or updating a DONE task fails |
| TaskService.AssignedResponses | backend/src/main/java/com/securetask/Service/impl/TaskServiceImpl.java:45-48 | every task assigned to the user gives a response in the set, and every response in the set is that of such a task |
| TaskService.CreatedResponses | backend/src/main/java/com/securetask/Service/impl/TaskServiceImpl.java:58-61 | every task the user created gives a response in the set, and every response in the set is that of such a task |
| TaskService.TaskService.Lookup | backend/src/main/java/com/securetask/Service/impl/TaskServiceImpl.java:180-199 | a missing task fails with not-found before access is decided; an existing task is returned iff the ownership check permits, else access is denied |
| TaskService.TaskService.FindTaskByIdWithOwnershipCheck | backend/src/main/java/com/securetask/Service/impl/TaskServiceImpl.java:180-199 | returns the lookup's error, or a fresh task object holding the stored row |
| TaskService.TaskService.Persist | backend/src/main/java/com/securetask/Service/impl/TaskServiceImpl.java:120 | a new task is stored under the next, previously unused id, stamped by the persist hook |
| TaskService.TaskService.Flush | backend/src/main/java/com/securetask/Entitity/Task.java:73-76 | at commit, a loaded task that changed is stamped by the update hook and its row overwritten; an unchanged one is left alone; nothing else changes |
| TaskService.TaskService.GetTaskById | backend/src/main/java/com/securetask/Service/impl/TaskServiceImpl.java:92-97 | the response of the stored task, or the lookup's not-found or access-denied error |
| TaskService.TaskService.CreateTask | backend/src/main/java/com/securetask/Service/impl/TaskServiceImpl.java:99-121 | fails iff an assignee id is given and unknown, and then stores nothing; otherwise stores a TODO task created by the actor under a new id |
| TaskService.TaskService.UpdateTask | backend/src/main/java/com/securetask/Service/impl/TaskServiceImpl.java:123-143 | a failed lookup or update leaves the table unchanged; otherwise only this task's row changes, to the flushed updated row, and the response is that of the updated task before the flush |
| TaskService.TaskService.UpdateTaskStatus | backend/src/main/java/com/securetask/Service/impl/TaskServiceImpl.java:145-154 | after the lookup, a rejected transition leaves the table unchanged; an allowed one changes only the status and `updatedAt` of that row, and the response shows the new status with the previous stamp |
| TaskService.TaskService.DeleteTask | backend/src/main/java/com/securetask/Service/impl/TaskServiceImpl.java:156-162 | the row is removed iff the lookup succeeds; otherwise the table is unchanged |
| TaskService.TaskService.TasksAssignedToUser | backend/src/main/java/com/securetask/Service/impl/TaskServiceImpl.java:38-49 | fails with user-not-found iff no user has that id; otherwise the responses of the tasks assigned to that user |
| TaskService.TaskService.TasksCreatedByUser | backend/src/main/java/com/securetask/Service/impl/TaskServiceImpl.java:51-62 | fails with user-not-found iff no user has that id; otherwise the responses of the tasks that user created |
| TaskService.TaskService.TasksAssignedToAuthUser | backend/src/main/java/com/securetask/Service/impl/TaskServiceImpl.java:68-76 | only tasks assigned to the actor; for a stored actor, equal to the per-user listing |
| TaskService.TaskService.TasksCreatedByAuthUser | backend/src/main/java/com/securetask/Service/impl/TaskServiceImpl.java:78-86 | only tasks the actor created; for a stored actor, equal to the per-user listing |
| Jwt.EpochSeconds | backend/src/main/java/com/securetask/Service/auth/JwtTokenService.java:32-33 | a millisecond instant becomes whole seconds, truncated toward zero: the last second at or before a non-negative instant |
| Jwt.ExtractExpirationTime | backend/src/main/java/com/securetask/Service/auth/JwtTokenService.java:41-46 | the extracted expiry is a whole number of seconds in milliseconds, and encoding it again as a NumericDate gives back the `exp` claim |
| Jwt.GenerateToken | backend/src/main/java/com/securetask/Service/auth/JwtTokenService.java:27-39 | the subject is the authenticated name and the scope ROLE_USER; the extracted expiry is a whole second, at most `ttl` after now and less than one second before it; the issue time is now's second |
| RefreshTokens.Rotated | backend/src/main/java/com/securetask/Service/auth/RefreshTokenService.java:40-51 | the new token is stored under its string; every other entry was already in the ledger, unchanged, and belongs to another user; every other user's entry is kept |
| RefreshTokens.RotatedLeavesOneToken | backend/src/main/java/com/securetask/Service/auth/RefreshTokenService.java:40-51 | after a rotation the owner holds exactly the new token |
| RefreshTokens.RotatedKeepsOthers | backend/src/main/java/com/securetask/Service/auth/RefreshTokenService.java:40-51 | a rotation keeps every other user's entries and adds only the new token |
| RefreshTokens.RotatedValid | backend/src/main/java/com/securetask/Service/auth/RefreshTokenService.java:40-44 | a rotation keeps the ledger keyed by token and at most one token per user |
| RefreshTokens.RotatedTwice | backend/src/main/java/com/securetask/Service/auth/RefreshTokenService.java:35-52 | after two rotations for one user, only the second token remains and the first is gone |
| RefreshTokens.RemovingOnlyToken | backend/src/main/java/com/securetask/Service/auth/AuthService.java:84-86 | once a user's token is deleted, that user has no token left |
| RefreshTokens.RefreshTokenService.CreateRefreshToken | backend/src/main/java/com/securetask/Service/auth/RefreshTokenService.java:35-52 | fails iff the email is unknown, and then changes nothing; otherwise issues a token expiring `durationMs` after now and rotates the ledger |
| RefreshTokens.RefreshTokenService.VerifyExpiration | backend/src/main/java/com/securetask/Service/auth/RefreshTokenService.java:54-61 | an expiry strictly before now deletes the token and fails; otherwise the token is returned and the ledger is untouched |
| RefreshTokens.RefreshTokenService.FindByToken | backend/src/main/java/com/securetask/Service/auth/RefreshTokenService.java:63-66 | a record is found iff the token is in the ledger, and it is the record stored under it |
| RefreshTokens.RefreshTokenService.DeleteByToken | backend/src/main/java/com/securetask/Service/auth/RefreshTokenService.java:69-72 | removes that token's entry and only it |
| RegisterRequests.MatchesPasswordPattern | backend/src/main/java/com/securetask/DTO/requests/RegisterRequest.java:32-35 | a matching password has at least four characters (one of each required class) and only characters of the allowed class |
| RegisterRequests.FieldViolations | backend/src/main/java/com/securetask/DTO/requests/RegisterRequest.java:19-40 | each field violation is reported iff its constraint fails: the four `@NotBlank` ones iff the field is null or blank, the size, format and pattern ones only for a present value outside the bound; the password match is never a field violation |
| RegisterRequests.FieldValidPassword | backend/src/main/java/com/securetask/DTO/requests/RegisterRequest.java:19-40 | a request without field violations has a username of 3 to 30 characters, a valid email of at most 255, a confirmation, and a password of 8 to 64 allowed characters including a special character |
| RegisterRequests.ForeignCharacterRejected | backend/src/main/java/com/securetask/DTO/requests/RegisterRequest.java:32-35 | a password with a character outside the allowed class fails the pattern |
| Validators.ValidateUniqueFields | src/main/java/com/securetask/Validator/UserValidator.java:16-24 | passes iff no stored user has the email or the username; a taken email is reported before a taken username, with the source's messages |
| Validators.UniqueFieldsKept | src/main/java/com/securetask/Validator/UserValidator.java:16-24 | adding a user that passed the check keeps emails and usernames unique |
| Validators.PasswordMatches | backend/src/main/java/com/securetask/Validator/PasswordMatchesValidator.java:12-17 | holds iff both the password and the confirmation are present and equal |
| Validators.PasswordMatchesSymmetric | backend/src/main/java/com/securetask/Validator/PasswordMatchesValidator.java:12-17 | swapping the password and the confirmation does not change the outcome |
| Validators.Violations | backend/src/main/java/com/securetask/DTO/requests/RegisterRequest.java:13 | the mismatch violation is present iff the passwords do not match; the other violations are exactly the field violations |
| Validators.SamplePasswordsAccepted | backend/src/test/java/com/securetask/Authentication/AuthControllerMockMvcTest.java:37-52 | "Test@1234" and "CorrectPassword12!" meet the length and pattern rules |
| Validators.ShortPasswordRejected | backend/src/test/java/com/securetask/Authentication/AuthControllerMockMvcTest.java:72-85 | "Weak1!" is rejected for its length alone |
| Validators.NoSpecialCharacterRejected | backend/src/test/java/com/securetask/Authentication/AuthControllerMockMvcTest.java:88-98 | a password without a special character is rejected for the pattern alone |
| Validators.MismatchRejected | backend/src/test/java/com/securetask/Authentication/AuthControllerMockMvcTest.java:102-113 | a well-formed request with a different confirmation is rejected for the mismatch alone |
| Auth.CredentialsAccepted | backend/src/main/java/com/securetask/Service/auth/AuthService.java:42-45 | accepted credentials belong to a stored user with that email whose hash the encoder accepts; an unknown email is always rejected |
| Auth.CredentialsAcceptedUnique | backend/src/main/java/com/securetask/Service/auth/AuthService.java:42-45 | with unique emails, the credentials are accepted iff some stored user with that email has a hash the encoder accepts |
| Auth.AuthService.RotationKeepsOwnersStored | backend/src/main/java/com/securetask/Service/auth/RefreshTokenService.java:35-52 | a rotation for a stored user keeps every ledger entry owned by a stored user |
| Auth.AuthService.Authenticate | backend/src/main/java/com/securetask/Service/auth/AuthService.java:41-52 | bad credentials fail and change nothing; otherwise an access token is issued for the email and the user's refresh token is rotated unconditionally |
| Auth.AuthService.Register | backend/src/main/java/com/securetask/Service/auth/AuthService.java:54-72 | a taken email or username fails and stores nothing; otherwise a USER-role user with the encoded password is appended and holds exactly the one new refresh token |
| Auth.AuthService.NewUserHasNoToken | backend/src/main/java/com/securetask/Service/auth/AuthService.java:58-68 | a newly saved user owns no refresh token before its first one is issued |
| Auth.AuthService.Refresh | backend/src/main/java/com/securetask/Service/auth/AuthService.java:75-98 | an unknown token fails and changes nothing; an expired one is deleted and fails; otherwise the used token is deleted and a different one is issued to the same user |
| Auth.AuthService.Logout | backend/src/main/java/com/securetask/Service/auth/AuthService.java:101-105 | removes that refresh token, and only it |
| Scenarios.RegisterThenLogin | backend/src/main/java/com/securetask/Service/auth/RefreshTokenService.java:40-44 | after register then login, the refresh token from registration is rejected as unknown |
| Scenarios.RefreshTwice | backend/src/main/java/com/securetask/Service/auth/AuthService.java:84-86 | a refresh token is single-use: a second refresh with it fails as an unknown token |
| Scenarios.RefreshAfterExpiry | backend/src/main/java/com/securetask/Service/auth/RefreshTokenService.java:54-61 | refreshing an expired token fails as expired, and the token is then not found |
| Scenarios.AssigneeMovesTask | backend/src/main/java/com/securetask/Service/impl/TaskServiceImpl.java:145-154 | the assignee of a task created by another user may start it (status IN_PROGRESS) but not move it back to TODO |
| Scenarios.FindByIdOfStored | backend/src/main/java/com/securetask/DAO/UserDAO.java:28-30 | a stored user is found by its id |
| Scenarios.DeleteThenRead | backend/src/test/java/com/securetask/Tasks/TaskControllerMockMvcTest.java:345-358 | after an owner deletes a task, reading it reports not-found |

## Left out

- Signing and decoding of access tokens. An access token is its claim set, and `ExtractExpirationTime` reads the `exp` claim directly, in whole seconds.
- The issuer claim is not modelled.
- The authentication manager's internals, such as account-status checks and the user-details service. A login succeeds iff a user has that email and the encoder's `matches` accepts the password against the stored hash.
- The password encoder is a pair of parameters (`encode` and `matches`).
- The `@Email` format check is a predicate parameter, since the regular expression belongs to the validation library.
- The random refresh-token string is a parameter. It is required not to be in the ledger, which is what a random UUID gives in practice.
- The clock: each operation takes one reading, except the persist hook, which takes the two readings the source makes. No ordering between readings is assumed. `generateToken` reads the clock twice, for the issue and expiry instants; the model uses one reading for both.
- The access-token lifetime and the refresh-token lifetime are plain integers in milliseconds. They are not bounded to the width of a Java `long`, so overflow is not modelled.
- Resolving the acting user from the security context is out of scope. The acting user is passed in, so "Authenticated user not found" is not modelled.
- The JWT subject and the response's username field are the user's email. The user-details principal class is not part of this model.
- Transactions, optimistic locking (`@Version`) and concurrent rotations are not modelled. Of the flush, only the update hook of a changed task at commit is modelled; the refresh-token repository's explicit `flush` has no visible effect in a sequential model.
  - Operations are sequential.
  - "A failure leaves the store unchanged" follows from saving only at the end.
  - The deletion `verifyExpiration` makes before it throws is modelled as it is written. A surrounding transaction's rollback of that deletion is not modelled.
- `TaskDAO` and the Spring Data repositories are the maps and sequences themselves.
- Listing order is not modelled: the listings return sets of responses, not ordered lists.
- The no-argument `Task` constructor and the builder's field default are not modelled. `createTask` sets TODO explicitly, and the model has no null status.
- `TaskMapper.toEntity` and `UserMapper` are not used by the modelled operations.
- Controllers, HTTP status codes and the global exception handler are outside the core. This includes the "field: message" rendering of validation errors.
- The duplicated auth classes under the top-level `src/` tree are not modelled. `UserValidator` and `UserFactory` are the exceptions, because `register` uses them.
- Auth.AuthService.Register: requires the username, email and password to be present. Bean validation rejects a null one before the service runs.
- TaskService.TaskService.CreateTask: requires the title to be present, for the same reason.
- Java string lengths count UTF-16 code units. The model counts Dafny characters.
- `@NotBlank` trims characters up to U+0020. Other Unicode whitespace is not treated specially.
- Auth.CreateUser: has no contract of its own. It is the user-factory step inside `Register`, whose contract states the stored user.
