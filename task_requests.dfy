/** The request records of the task endpoints and the constraints their fields carry. */
module TaskRequests {
  import opened Wrappers
  import opened TaskEntity
  import opened Constraints

  datatype CreateTaskRequest = CreateTaskRequest(title: Option<string>, description: Option<string>, assigneeId: Option<int>)

  datatype UpdateTaskRequest = UpdateTaskRequest(
    title: Option<string>,
    description: Option<string>,
    status: Option<Status>,
    priority: Option<Priority>,
    dueDate: Option<int>,
    assigneeId: Option<int>)

  const MaxTitleLength := 255
  const MaxDescriptionLength := 5000

  /** A create request passes validation: a non-blank title of at most 255 characters and a
      description, when given, of at most 5000. The assignee id is unconstrained. */
  predicate ValidCreateRequest(req: CreateTaskRequest)
    ensures ValidCreateRequest(req) ==> req.title.Some? && 0 < |req.title.value| <= MaxTitleLength
    ensures req.title == Some("") ==> !ValidCreateRequest(req)
  {
    && NotBlank(req.title)
    && SizeWithin(req.title, 0, MaxTitleLength)
    && SizeWithin(req.description, 0, MaxDescriptionLength)
  }

  /** An update request passes validation: the same title and description rules, and a status
      that must be present. Priority, due date and assignee id are optional. */
  predicate ValidUpdateRequest(req: UpdateTaskRequest)
    ensures ValidUpdateRequest(req) ==> req.status.Some? && req.title.Some? && 0 < |req.title.value| <= MaxTitleLength
  {
    && NotBlank(req.title)
    && SizeWithin(req.title, 0, MaxTitleLength)
    && SizeWithin(req.description, 0, MaxDescriptionLength)
    && req.status.Some?
  }

  /** The assignee id never decides whether a create request is valid; a null one is accepted. */
  lemma CreateAssigneeOptional(req: CreateTaskRequest, assigneeId: Option<int>)
    ensures ValidCreateRequest(req) <==> ValidCreateRequest(req.(assigneeId := assigneeId))
  {
  }

  /** Priority, due date and assignee id never decide whether an update request is valid. */
  lemma UpdateOptionalFields(req: UpdateTaskRequest, priority: Option<Priority>, dueDate: Option<int>, assigneeId: Option<int>)
    ensures ValidUpdateRequest(req) <==> ValidUpdateRequest(req.(priority := priority, dueDate := dueDate, assigneeId := assigneeId))
  {
  }
}
