/** TaskServiceImpl: task operations guarded by the ownership check and the status workflow.
    The tasks table is a map from id to row; findById hands out a fresh managed Task object,
    the operations change that object through its setters, and save (for a new task) or the
    commit-time flush (for a loaded one) writes it back. An operation that fails before that
    leaves the table as it was. */
module TaskService {
  import opened Wrappers
  import opened Users
  import opened TaskEntity
  import opened Errors
  import opened TaskWorkflow
  import opened TaskRequests
  import opened TaskMapper

  /** The state of the task object `updateTask` hands to save, or the error it raises: fields from
      the request, then the assignee lookup, then the transition check against the status held
      before. The update stamp is not set here; it is set when the change is flushed. */
  function UpdatedRow(row: TaskData, req: UpdateTaskRequest, users: seq<User>): (r: Result<TaskData, Error>)
    ensures req.assigneeId.Some? && FindById(users, req.assigneeId.value).None? ==> r == Failure(AssigneeNotFound(None))
    ensures req.status.Some? && !TransitionAllowed(row.status, req.status.value) ==> r.Failure?
    ensures r.Failure? <==> (req.assigneeId.Some? && FindById(users, req.assigneeId.value).None?)
                            || (req.status.Some? && !TransitionAllowed(row.status, req.status.value))
    ensures r.Failure? && r.error != AssigneeNotFound(None) ==>
              r.error == InvalidTransition(row.status, req.status) && (req.assigneeId.None? || FindById(users, req.assigneeId.value).Some?)
    ensures req.status == Some(row.status) ==> r.Failure?
    ensures (req.assigneeId.None? || FindById(users, req.assigneeId.value).Some?) && req.status.Some? && !TransitionAllowed(row.status, req.status.value) ==>
              r == Failure(InvalidTransition(row.status, req.status))
    ensures r.Success? ==> req.assigneeId.None? || FindById(users, req.assigneeId.value).Some?
    ensures r.Success? && req.status.Some? ==> TransitionAllowed(row.status, req.status.value) && r.value.status == req.status.value
    ensures r.Success? && req.status.None? ==> r.value.status == row.status
    ensures r.Success? ==>
              var edited := ApplyUpdate(row, req);
              && r.value.title == edited.title && r.value.description == edited.description
              && r.value.priority == edited.priority && r.value.dueDate == edited.dueDate
    ensures r.Success? ==> r.value.id == row.id && r.value.createdBy == row.createdBy
                           && r.value.createdAt == row.createdAt && r.value.updatedAt == row.updatedAt
    ensures r.Success? ==> r.value.assignee == if req.assigneeId.Some? then FindById(users, req.assigneeId.value) else row.assignee
  {
    var t := ApplyUpdate(row, req);
    if req.assigneeId.Some? && FindById(users, req.assigneeId.value).None? then Failure(AssigneeNotFound(None))
    else
      var t' := if req.assigneeId.Some? then t.(assignee := FindById(users, req.assigneeId.value)) else t;
      var check := if req.status.Some? then ValidateStatusTransition(t'.status, req.status) else Pass;
      if check.Fail? then Failure(check.error)
      else
        Success(if req.status.Some? then t'.(status := req.status.value) else t')
  }

  /** A request that passed validation always carries a status, so it always runs the transition
      check: re-sending the current status, or any status on a DONE task, is rejected. */
  lemma ValidUpdateAlwaysChecksTransition(row: TaskData, req: UpdateTaskRequest, users: seq<User>)
    requires ValidUpdateRequest(req)
    ensures UpdatedRow(row, req, users).Success? ==> TransitionAllowed(row.status, req.status.value)
    ensures req.status == Some(row.status) || row.status == Done ==> UpdatedRow(row, req, users).Failure?
    ensures (req.assigneeId.None? || FindById(users, req.assigneeId.value).Some?) && TransitionAllowed(row.status, req.status.value) ==>
              UpdatedRow(row, req, users).Success?
  {
  }

  /** The row the commit-time flush leaves for a loaded task: unchanged when the object is not
      dirty; otherwise the object's state, stamped by the update hook. */
  function Flushed(loaded: TaskData, current: TaskData, clock: int): (r: TaskData)
    ensures current == loaded ==> r == loaded
    ensures current != loaded ==> r.updatedAt == Some(clock)
    ensures r.(updatedAt := current.updatedAt) == current
  {
    if current == loaded then loaded else current.(updatedAt := Some(clock))
  }

  /** `findAllByAssigneeId` mapped through `toResponse`: the responses of exactly the tasks assigned
      to that user. */
  function AssignedResponses(rows: map<nat, TaskData>, userId: int): (r: set<TaskResponse>)
    ensures forall resp :: resp in r ==> resp.assigneeId == Some(userId)
    ensures forall k :: k in rows && AssigneeId(rows[k]) == Some(userId) ==> ToResponse(rows[k]) in r
    ensures forall resp :: resp in r ==> exists k :: k in rows && AssigneeId(rows[k]) == Some(userId) && resp == ToResponse(rows[k])
  {
    set k | k in rows && AssigneeId(rows[k]) == Some(userId) :: ToResponse(rows[k])
  }

  /** `findAllByCreatedById` mapped through `toResponse`: the responses of exactly the tasks that
      user created. */
  function CreatedResponses(rows: map<nat, TaskData>, userId: int): (r: set<TaskResponse>)
    ensures forall resp :: resp in r ==> resp.createdByUserId == userId
    ensures forall k :: k in rows && rows[k].createdBy.id == userId ==> ToResponse(rows[k]) in r
    ensures forall resp :: resp in r ==> exists k :: k in rows && rows[k].createdBy.id == userId && resp == ToResponse(rows[k])
  {
    set k | k in rows && rows[k].createdBy.id == userId :: ToResponse(rows[k])
  }

  class TaskService {
    const users: UserRepository
    var rows: map<nat, TaskData>
    var nextId: nat

    /** Every row is stored under its own id, and ids are below the next one to hand out. */
    ghost predicate Valid()
      reads this
    {
      forall k :: k in rows ==> rows[k].id == Some(k) && k < nextId
    }

    constructor (users: UserRepository)
      ensures Valid() && this.users == users && rows == map[] && nextId == 1
    {
      this.users := users;
      rows := map[];
      nextId := 1;
    }

    /** findById then the ownership check, as a value: a missing task is reported before access is decided. */
    function Lookup(taskId: nat, actor: User): (r: Result<TaskData, Error>)
      reads this
      ensures taskId !in rows ==> r == Failure(TaskNotFound(taskId))
      ensures taskId in rows ==> (r.Success? <==> Permitted(actor, rows[taskId]))
      ensures taskId in rows && r.Failure? ==> r.error == AccessDenied
      ensures r.Success? ==> taskId in rows && r.value == rows[taskId]
    {
      if taskId !in rows then Failure(TaskNotFound(taskId))
      else if !Permitted(actor, rows[taskId]) then Failure(AccessDenied)
      else Success(rows[taskId])
    }

    /** `findTaskByIdWithOwnershipCheck`: loads the row, then applies the ownership check. */
    method FindTaskByIdWithOwnershipCheck(taskId: nat, actor: User) returns (r: Result<Task, Error>)
      ensures Lookup(taskId, actor).Failure? ==> r == Failure(Lookup(taskId, actor).error)
      ensures Lookup(taskId, actor).Success? ==> r.Success? && fresh(r.value) && r.value.Snapshot() == rows[taskId]
    {
      if taskId !in rows {
        return Failure(TaskNotFound(taskId));
      }
      var task := new Task.Load(rows[taskId]);
      if !Permitted(actor, task.Snapshot()) {
        return Failure(AccessDenied);
      }
      r := Success(task);
    }

    /** `save` of a new task: it receives the next identity and the persist hook stamps it. */
    method Persist(task: Task, firstReading: int, secondReading: int) returns (id: nat)
      requires Valid() && task.id.None?
      modifies this, task
      ensures Valid() && nextId == old(nextId) + 1
      ensures id == old(nextId) && id !in old(rows)
      ensures task.Snapshot() == old(task.Snapshot()).(id := Some(id), createdAt := Some(firstReading), updatedAt := Some(secondReading))
      ensures rows == old(rows)[id := task.Snapshot()]
    {
      id := nextId;
      task.id := Some(id);
      task.OnCreate(firstReading, secondReading);
      rows := rows[id := task.Snapshot()];
      nextId := nextId + 1;
    }

    /** The commit-time flush of a loaded task. `save` on a loaded task writes nothing by itself;
        at commit a task whose fields differ from the loaded row is stamped by the update hook and
        its row is overwritten, and an unchanged task is left alone. */
    method Flush(task: Task, loaded: TaskData, reading: int)
      requires Valid() && task.id.Some? && task.id.value in rows && rows[task.id.value] == loaded
      modifies this, task
      ensures Valid() && nextId == old(nextId)
      ensures task.Snapshot() == Flushed(loaded, old(task.Snapshot()), reading)
      ensures rows == old(rows)[task.id.value := task.Snapshot()]
    {
      if task.Snapshot() != loaded {
        task.OnUpdate(reading);
        rows := rows[task.id.value := task.Snapshot()];
      }
    }

    /** `getTaskById`: the response for that id, after the not-found and ownership checks. */
    method GetTaskById(taskId: nat, actor: User) returns (r: Result<TaskResponse, Error>)
      ensures Lookup(taskId, actor).Failure? ==> r == Failure(Lookup(taskId, actor).error)
      ensures Lookup(taskId, actor).Success? ==> r == Success(ToResponse(rows[taskId]))
    {
      var found := FindTaskByIdWithOwnershipCheck(taskId, actor);
      if found.Failure? {
        return Failure(found.error);
      }
      r := Success(ToResponse(found.value.Snapshot()));
    }

    /** `createTask`: an unknown assignee id fails and saves nothing; otherwise a TODO task created
        by the acting user is stored under a new id. */
    method CreateTask(actor: User, req: CreateTaskRequest, firstReading: int, secondReading: int) returns (r: Result<TaskResponse, Error>)
      requires Valid() && req.title.Some?
      modifies this
      ensures Valid()
      ensures r.Failure? <==> req.assigneeId.Some? && FindById(users.users, req.assigneeId.value).None?
      ensures r.Failure? ==> r.error == AssigneeNotFound(req.assigneeId) && rows == old(rows) && nextId == old(nextId)
      ensures r.Success? ==>
        var id := old(nextId);
        var assignee := if req.assigneeId.Some? then FindById(users.users, req.assigneeId.value) else None;
        && id !in old(rows) && nextId == id + 1
        && rows == old(rows)[id := TaskData(Some(id), req.title.value, req.description, Todo, None, None,
                                            assignee, actor, Some(firstReading), Some(secondReading))]
        && r.value == ToResponse(rows[id])
    {
      var assignee: Option<User> := None;
      if req.assigneeId.Some? {
        assignee := FindById(users.users, req.assigneeId.value);
        if assignee.None? {
          return Failure(AssigneeNotFound(req.assigneeId));
        }
      }
      var task := new Task.Build(req.title.value, req.description, Todo, assignee, actor);
      var id := Persist(task, firstReading, secondReading);
      r := Success(ToResponse(task.Snapshot()));
    }

    /** `updateTask`: ownership check, partial update, assignee lookup, transition check, save.
        Any failure leaves the table unchanged. The response is built before the commit-time
        flush, so it carries the update stamp the task had when loaded. */
    method UpdateTask(actor: User, taskId: nat, req: UpdateTaskRequest, clock: int) returns (r: Result<TaskResponse, Error>)
      requires Valid()
      modifies this
      ensures Valid() && nextId == old(nextId)
      ensures old(Lookup(taskId, actor)).Failure? ==> r == Failure(old(Lookup(taskId, actor)).error) && rows == old(rows)
      ensures old(Lookup(taskId, actor)).Success? ==>
        var u := UpdatedRow(old(rows)[taskId], req, users.users);
        && (u.Failure? ==> r == Failure(u.error) && rows == old(rows))
        && (u.Success? ==> rows == old(rows)[taskId := Flushed(old(rows)[taskId], u.value, clock)]
                           && r == Success(ToResponse(u.value)))
    {
      var found := FindTaskByIdWithOwnershipCheck(taskId, actor);
      if found.Failure? {
        return Failure(found.error);
      }
      var task := found.value;
      var loaded := task.Snapshot();
      task := UpdateFromRequest(req, task);
      if req.assigneeId.Some? {
        var newAssignee := FindById(users.users, req.assigneeId.value);
        if newAssignee.None? {
          return Failure(AssigneeNotFound(None));
        }
        task.assignee := newAssignee;
      }
      if req.status.Some? {
        var check := ValidateStatusTransition(task.status, req.status);
        if check.Fail? {
          return Failure(check.error);
        }
        task.status := req.status.value;
      }
      r := Success(ToResponse(task.Snapshot()));
      Flush(task, loaded, clock);
    }

    /** `updateTaskStatus`: ownership check, transition check, then only the status (and, at the
        commit-time flush, the update stamp) changes. A rejected transition leaves the table
        unchanged. The response is built before the flush. */
    method UpdateTaskStatus(actor: User, taskId: nat, newStatus: Option<Status>, clock: int) returns (r: Result<TaskResponse, Error>)
      requires Valid()
      modifies this
      ensures Valid() && nextId == old(nextId)
      ensures old(Lookup(taskId, actor)).Failure? ==> r == Failure(old(Lookup(taskId, actor)).error) && rows == old(rows)
      ensures old(Lookup(taskId, actor)).Success? ==>
        var row := old(rows)[taskId];
        var check := ValidateStatusTransition(row.status, newStatus);
        && (check.Fail? ==> r == Failure(check.error) && rows == old(rows))
        && (check.Pass? ==> rows == old(rows)[taskId := row.(status := newStatus.value, updatedAt := Some(clock))]
                            && r == Success(ToResponse(row.(status := newStatus.value))))
    {
      var found := FindTaskByIdWithOwnershipCheck(taskId, actor);
      if found.Failure? {
        return Failure(found.error);
      }
      var task := found.value;
      var loaded := task.Snapshot();
      var check := ValidateStatusTransition(task.status, newStatus);
      if check.Fail? {
        return Failure(check.error);
      }
      task.status := newStatus.value;
      r := Success(ToResponse(task.Snapshot()));
      Flush(task, loaded, clock);
    }

    /** `deleteTask`: the row goes only once the ownership check has passed. */
    method DeleteTask(actor: User, taskId: nat) returns (r: Outcome<Error>)
      requires Valid()
      modifies this
      ensures Valid() && nextId == old(nextId)
      ensures old(Lookup(taskId, actor)).Failure? ==> r == Fail(old(Lookup(taskId, actor)).error) && rows == old(rows)
      ensures old(Lookup(taskId, actor)).Success? ==> r == Pass && rows == old(rows) - {taskId}
    {
      var found := FindTaskByIdWithOwnershipCheck(taskId, actor);
      if found.Failure? {
        return Fail(found.error);
      }
      rows := rows - {taskId};
      r := Pass;
    }

    /** `getAllTasksAssignedToUser`: an unknown user id fails; otherwise the responses of exactly
        the tasks assigned to that user. */
    function TasksAssignedToUser(userId: int): (r: Result<set<TaskResponse>, Error>)
      reads this, users
      ensures !ExistsById(users.users, userId) <==> r == Failure(UserNotFound(userId))
      ensures r.Success? ==> r.value == AssignedResponses(rows, userId)
    {
      if !ExistsById(users.users, userId) then Failure(UserNotFound(userId))
      else Success(AssignedResponses(rows, userId))
    }

    /** `getAllTasksCreatedByUser`: an unknown user id fails; otherwise the responses of exactly
        the tasks that user created. */
    function TasksCreatedByUser(userId: int): (r: Result<set<TaskResponse>, Error>)
      reads this, users
      ensures !ExistsById(users.users, userId) <==> r == Failure(UserNotFound(userId))
      ensures r.Success? ==> r.value == CreatedResponses(rows, userId)
    {
      if !ExistsById(users.users, userId) then Failure(UserNotFound(userId))
      else Success(CreatedResponses(rows, userId))
    }

    /** `getAllTasksAssignedToAuthUser`: the acting user's assigned tasks, with no existence check;
        for a stored user it agrees with the per-user listing. */
    function TasksAssignedToAuthUser(actor: User): (r: set<TaskResponse>)
      reads this, users
      ensures ExistsById(users.users, actor.id) ==> TasksAssignedToUser(actor.id) == Success(r)
      ensures forall resp :: resp in r ==> resp.assigneeId == Some(actor.id)
    {
      AssignedResponses(rows, actor.id)
    }

    /** `getAllTasksCreatedByAuthUser`: the acting user's own tasks, with no existence check;
        for a stored user it agrees with the per-user listing. */
    function TasksCreatedByAuthUser(actor: User): (r: set<TaskResponse>)
      reads this, users
      ensures ExistsById(users.users, actor.id) ==> TasksCreatedByUser(actor.id) == Success(r)
      ensures forall resp :: resp in r ==> resp.createdByUserId == actor.id
    {
      CreatedResponses(rows, actor.id)
    }
  }
}
