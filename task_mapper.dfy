/** TaskMapper: the partial in-place update from a request, and the response record. */
module TaskMapper {
  import opened Wrappers
  import opened TaskEntity
  import opened TaskRequests

  /** The response record; enum values are rendered by name and user references by id. */
  datatype TaskResponse = TaskResponse(
    id: Option<nat>,
    title: string,
    description: Option<string>,
    status: string,
    priority: Option<string>,
    dueDate: Option<int>,
    assigneeId: Option<int>,
    createdByUserId: int,
    createdAt: Option<int>,
    updatedAt: Option<int>)

  /** What `updateFromRequest` does to a task's fields: each of title, description, priority and
      due date given in the request overwrites the stored value; nothing else changes. */
  function ApplyUpdate(t: TaskData, req: UpdateTaskRequest): (r: TaskData)
    ensures r.(title := t.title, description := t.description, priority := t.priority, dueDate := t.dueDate) == t
    ensures req.title.Some? ==> r.title == req.title.value
    ensures req.description.Some? ==> r.description == req.description
    ensures req.priority.Some? ==> r.priority == req.priority
    ensures req.dueDate.Some? ==> r.dueDate == req.dueDate
  {
    t.(title := if req.title.Some? then req.title.value else t.title,
       description := if req.description.Some? then req.description else t.description,
       priority := if req.priority.Some? then req.priority else t.priority,
       dueDate := if req.dueDate.Some? then req.dueDate else t.dueDate)
  }

  /** A field left null in the request keeps its current value. */
  lemma ApplyUpdateKeepsNullFields(t: TaskData, req: UpdateTaskRequest)
    ensures req.title.None? ==> ApplyUpdate(t, req).title == t.title
    ensures req.description.None? ==> ApplyUpdate(t, req).description == t.description
    ensures req.priority.None? ==> ApplyUpdate(t, req).priority == t.priority
    ensures req.dueDate.None? ==> ApplyUpdate(t, req).dueDate == t.dueDate
  {
  }

  /** Applying the same request twice is the same as applying it once. */
  lemma ApplyUpdateIdempotent(t: TaskData, req: UpdateTaskRequest)
    ensures ApplyUpdate(ApplyUpdate(t, req), req) == ApplyUpdate(t, req)
  {
  }

  /** `updateFromRequest`: conditional setters on the given task, which it returns. */
  method UpdateFromRequest(request: UpdateTaskRequest, task: Task) returns (r: Task)
    modifies task
    ensures r == task
    ensures task.Snapshot() == ApplyUpdate(old(task.Snapshot()), request)
  {
    if request.title.Some? { task.title := request.title.value; }
    if request.description.Some? { task.description := request.description; }
    if request.priority.Some? { task.priority := request.priority; }
    if request.dueDate.Some? { task.dueDate := request.dueDate; }
    r := task;
  }

  /** `toResponse`: the status and the priority are rendered by their enum names (and can be read
      back), a missing priority or assignee gives a null field, and user references become ids. */
  function ToResponse(t: TaskData): (r: TaskResponse)
    ensures r.id == t.id && r.title == t.title && r.description == t.description && r.dueDate == t.dueDate
    ensures StatusFromName(r.status) == Some(t.status)
    ensures r.priority.None? <==> t.priority.None?
    ensures t.priority.Some? ==>
              r.priority == Some(PriorityName(t.priority.value)) && PriorityFromName(r.priority.value) == t.priority
    ensures r.assigneeId.None? <==> t.assignee.None?
    ensures t.assignee.Some? ==> r.assigneeId == Some(t.assignee.value.id)
    ensures r.createdByUserId == t.createdBy.id
    ensures r.createdAt == t.createdAt && r.updatedAt == t.updatedAt
  {
    TaskResponse(
      t.id,
      t.title,
      t.description,
      StatusName(t.status),
      if t.priority.Some? then Some(PriorityName(t.priority.value)) else None,
      t.dueDate,
      if t.assignee.Some? then Some(t.assignee.value.id) else None,
      t.createdBy.id,
      t.createdAt,
      t.updatedAt)
  }
}
