/** The Task entity: its enums, its persisted row, and the mutable object the services work on. */
module TaskEntity {
  import opened Wrappers
  import opened Users

  datatype Status = Todo | InProgress | Done

  datatype Priority = Low | Medium | High

  /** The enum constant's name, as `toString()` renders it. */
  function StatusName(s: Status): (r: string)
    ensures StatusFromName(r) == Some(s)
  {
    match s
    case Todo => "TODO"
    case InProgress => "IN_PROGRESS"
    case Done => "DONE"
  }

  /** The enum constant's name, as `toString()` renders it. */
  function PriorityName(p: Priority): (r: string)
    ensures PriorityFromName(r) == Some(p)
  {
    match p
    case Low => "LOW"
    case Medium => "MEDIUM"
    case High => "HIGH"
  }

  /** `valueOf`: the constant with that name, if any. */
  function StatusFromName(name: string): Option<Status> {
    if name == "TODO" then Some(Todo)
    else if name == "IN_PROGRESS" then Some(InProgress)
    else if name == "DONE" then Some(Done)
    else None
  }

  /** `valueOf`: the constant with that name, if any. */
  function PriorityFromName(name: string): Option<Priority> {
    if name == "LOW" then Some(Low)
    else if name == "MEDIUM" then Some(Medium)
    else if name == "HIGH" then Some(High)
    else None
  }

  /** A task's field values: what the tasks table holds for one row, and the state of one Task object.
      `id` is absent until the row is first saved; the timestamps until the persist hook has run. */
  datatype TaskData = TaskData(
    id: Option<nat>,
    title: string,
    description: Option<string>,
    status: Status,
    priority: Option<Priority>,
    dueDate: Option<int>,
    assignee: Option<User>,
    createdBy: User,
    createdAt: Option<int>,
    updatedAt: Option<int>)

  /** The assignee's id, absent when there is no assignee. */
  function AssigneeId(t: TaskData): Option<int> {
    if t.assignee.Some? then Some(t.assignee.value.id) else None
  }

  /** The mutable Task entity. Its setters are plain field assignments. */
  class Task {
    var id: Option<nat>
    var title: string
    var description: Option<string>
    var status: Status
    var priority: Option<Priority>
    var dueDate: Option<int>
    var assignee: Option<User>
    var createdBy: User
    var createdAt: Option<int>
    var updatedAt: Option<int>

    /** The object's current field values. */
    function Snapshot(): TaskData
      reads this
    {
      TaskData(id, title, description, status, priority, dueDate, assignee, createdBy, createdAt, updatedAt)
    }

    /** `Task.builder()...build()` with the fields createTask sets; everything else starts absent. */
    constructor Build(title: string, description: Option<string>, status: Status, assignee: Option<User>, createdBy: User)
      ensures Snapshot() == TaskData(None, title, description, status, None, None, assignee, createdBy, None, None)
    {
      this.id := None;
      this.title := title;
      this.description := description;
      this.status := status;
      this.priority := None;
      this.dueDate := None;
      this.assignee := assignee;
      this.createdBy := createdBy;
      this.createdAt := None;
      this.updatedAt := None;
    }

    /** The repository loading a stored row into a managed object. */
    constructor Load(row: TaskData)
      ensures Snapshot() == row
    {
      id := row.id;
      title := row.title;
      description := row.description;
      status := row.status;
      priority := row.priority;
      dueDate := row.dueDate;
      assignee := row.assignee;
      createdBy := row.createdBy;
      createdAt := row.createdAt;
      updatedAt := row.updatedAt;
    }

    /** The persist hook: both timestamps come from the clock, which the source reads twice. */
    method OnCreate(firstReading: int, secondReading: int)
      modifies this
      ensures Snapshot() == old(Snapshot()).(createdAt := Some(firstReading), updatedAt := Some(secondReading))
    {
      createdAt := Some(firstReading);
      updatedAt := Some(secondReading);
    }

    /** The update hook: only `updatedAt` moves; `createdAt` and every other field stay as they were. */
    method OnUpdate(reading: int)
      modifies this
      ensures Snapshot() == old(Snapshot()).(updatedAt := Some(reading))
      ensures createdAt == old(createdAt)
    {
      updatedAt := Some(reading);
    }
  }
}
