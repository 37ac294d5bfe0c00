/** The exceptions the core raises, one constructor per failure the source distinguishes. */
module Errors {
  import opened Wrappers
  import opened TaskEntity

  datatype Error =
      /** `RessourceNotFoundException("Task not found: " + id)` */
    | TaskNotFound(taskId: nat)
      /** `RessourceNotFoundException` for an unknown assignee; createTask names the id, updateTask does not */
    | AssigneeNotFound(assigneeId: Option<int>)
      /** `RessourceNotFoundException("User not found: " + id)` from the per-user task listings */
    | UserNotFound(userId: int)
      /** `AccessDeniedException` from the ownership check */
    | AccessDenied
      /** `BadRequestException("Invalid transition: " + current + " -> " + next)` */
    | InvalidTransition(current: Status, next: Option<Status>)
      /** `DuplicateResourceException` from the uniqueness validator */
    | DuplicateResource(message: string)
      /** `EntityNotFoundException("User not found")` from createRefreshToken */
    | EntityNotFound
      /** `RefreshTokenExpiredException` */
    | RefreshTokenExpired
      /** `InvalidTokenException("Invalid refresh token")` */
    | InvalidToken
      /** the credential check's `BadCredentialsException` */
    | BadCredentials
}
