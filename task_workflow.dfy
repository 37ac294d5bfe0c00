/** The two pure decisions inside TaskServiceImpl: the status state machine and the ownership check. */
module TaskWorkflow {
  import opened Wrappers
  import opened Users
  import opened TaskEntity
  import opened Errors

  /** Position of a status along the workflow, an independent description of the transition table. */
  function Rank(s: Status): nat {
    match s
    case Todo => 0
    case InProgress => 1
    case Done => 2
  }

  /** The transition table: TODO may only move to IN_PROGRESS, IN_PROGRESS only to DONE, DONE nowhere. */
  function TransitionAllowed(current: Status, next: Status): (r: bool)
    ensures r <==> Rank(next) == Rank(current) + 1
  {
    match current
    case Todo => next == InProgress
    case InProgress => next == Done
    case Done => false
  }

  /** `validateStatusTransition`: passes exactly the allowed moves; a missing target status fails too. */
  function ValidateStatusTransition(current: Status, next: Option<Status>): (r: Outcome<Error>)
    ensures r.Pass? <==> next.Some? && TransitionAllowed(current, next.value)
    ensures r.Fail? ==> r.error == InvalidTransition(current, next)
    ensures current == Done ==> r.Fail?
    ensures next == Some(current) ==> r.Fail?
  {
    if next.Some? && TransitionAllowed(current, next.value) then Pass
    else Fail(InvalidTransition(current, next))
  }

  /** The ownership check: ADMIN and MANAGER bypass it; otherwise the acting user must be
      the creator or the assignee. */
  function IsPermitted(role: Role, actingId: int, creatorId: int, assigneeId: Option<int>): (r: bool)
    ensures !r <==> role == UserRole && actingId != creatorId && assigneeId != Some(actingId)
  {
    var isAdminOrManager := role == AdminRole || role == ManagerRole;
    var isOwnerOrAssignee := creatorId == actingId || (assigneeId.Some? && assigneeId.value == actingId);
    isAdminOrManager || isOwnerOrAssignee
  }

  /** The ownership check applied to a stored task. */
  function Permitted(actor: User, t: TaskData): bool {
    IsPermitted(actor.role, actor.id, t.createdBy.id, AssigneeId(t))
  }

  /** The access cases of a task created by one user and assigned to another. */
  lemma AccessOfCreatorAndAssignee(t: TaskData, creator: User, assignee: User, other: User, privileged: User)
    requires t.createdBy.id == creator.id && t.assignee == Some(assignee)
    requires other.role == UserRole && other.id != creator.id && other.id != assignee.id
    requires privileged.role in {AdminRole, ManagerRole}
    ensures Permitted(creator, t) && Permitted(assignee, t) && Permitted(privileged, t)
    ensures !Permitted(other, t)
  {
  }

  /** A sequence of statuses where each step is an allowed transition. */
  ghost predicate IsRun(run: seq<Status>) {
    forall i :: 0 < i < |run| ==> TransitionAllowed(run[i - 1], run[i])
  }

  /** Along a run, every step advances the rank by exactly one. */
  lemma {:induction false} RunAdvancesRank(run: seq<Status>)
    requires IsRun(run) && |run| > 0
    ensures Rank(run[|run| - 1]) == Rank(run[0]) + |run| - 1
  {
    if |run| > 1 {
      var prefix := run[..|run| - 1];
      assert IsRun(prefix) by {
        forall i | 0 < i < |prefix| ensures TransitionAllowed(prefix[i - 1], prefix[i]) {
          assert prefix[i - 1] == run[i - 1] && prefix[i] == run[i];
        }
      }
      RunAdvancesRank(prefix);
      assert TransitionAllowed(run[|run| - 2], run[|run| - 1]);
    }
  }

  /** The workflow has no cycles: a run visits at most three statuses, and one that starts in
      DONE goes nowhere. */
  lemma RunIsShort(run: seq<Status>)
    requires IsRun(run) && |run| > 0
    ensures |run| <= 3 - Rank(run[0])
    ensures run[0] == Done ==> |run| == 1
  {
    RunAdvancesRank(run);
  }
}
