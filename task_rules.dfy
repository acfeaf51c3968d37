/** The task rules of app/services/task_service.py. */
module TaskRules {
  import opened Records
  import opened Tables

  const OWNER_NOT_FOUND := "Task owner not found"
  const TEAM_NOT_FOUND := "Team not found"
  const TASK_NOT_FOUND := "Task not found"
  const NEEDS_OWNER_OR_TEAM := "Task must have either an owner or a team"
  const NOT_BOTH := "Task cannot have both owner and team"

  /** create_task: the owner must exist, then a team, if one is named, must
      exist. Owner and team are both stored; exclusivity is not enforced. */
  function CreateTask(db: Db, data: TaskCreate): (r: Reply<Task>)
    requires WellFormed(db)
    // the owner is checked before the team
    ensures data.ownerId !in db.users ==> r == Reply(BadRequest(OWNER_NOT_FOUND), db)
    ensures data.ownerId in db.users && data.teamId.Some? && data.teamId.value !in db.teams ==>
              r == Reply(BadRequest(TEAM_NOT_FOUND), db)
    ensures r.outcome.Ok? <==>
              data.ownerId in db.users && (data.teamId.Some? ==> data.teamId.value in db.teams)
    ensures r.outcome.Ok? ==>
              var t := r.outcome.value;
              t.id !in db.tasks
              && t.title == data.title && t.description == data.description
              && t.status == StatusRequested(data) && t.dueDate == data.dueDate
              && t.ownerId == data.ownerId && t.teamId == data.teamId
              && r.db.tasks.Keys == db.tasks.Keys + {t.id} && r.db.tasks[t.id] == t
              && (forall id :: id in db.tasks ==> r.db.tasks[id] == db.tasks[id])
              && r.db.users == db.users && r.db.teams == db.teams && r.db.members == db.members
  {
    if data.ownerId !in db.users then
      Reply(BadRequest(OWNER_NOT_FOUND), db)
    else if data.teamId.Some? && data.teamId.value !in db.teams then
      Reply(BadRequest(TEAM_NOT_FOUND), db)
    else
      var t := Task(db.nextTaskId, data.title, data.description, StatusRequested(data), data.dueDate,
                    data.ownerId, data.teamId);
      Reply(Ok(t), db.(tasks := db.tasks[t.id := t], nextTaskId := db.nextTaskId + 1))
  }

  function GetAllTasks(db: Db): (r: map<int, Task>)
    ensures forall id :: id in r <==> id in db.tasks
    ensures forall id :: id in r ==> r[id] == db.tasks[id]
  {
    db.tasks
  }

  function GetTaskById(db: Db, taskId: int): (r: Outcome<Task>)
    ensures r.Ok? <==> taskId in db.tasks
    ensures r.Ok? ==> r.value == db.tasks[taskId]
    ensures !r.Ok? ==> r == NotFound(TASK_NOT_FOUND)
  {
    if taskId in db.tasks then Ok(db.tasks[taskId]) else NotFound(TASK_NOT_FOUND)
  }

  // ---- update_task ----

  /** The owner update_task checks: the value sent for `owner_id`, null
      included, else the current one. */
  function CheckedOwner(t: Task, data: TaskUpdate): (owner: Option<int>)
  {
    if data.ownerId.Given? then data.ownerId.value else Some(t.ownerId)
  }

  /** The team update_task checks: the value sent for `team_id`, null
      included, else the current one. */
  function CheckedTeam(t: Task, data: TaskUpdate): (team: Option<int>)
  {
    if data.teamId.Given? then data.teamId.value else t.teamId
  }

  /** The ownership check, run only when `owner_id` or `team_id` is sent:
      the detail of the refusal, if any. */
  function OwnershipRefusal(t: Task, data: TaskUpdate): (e: Option<string>)
    ensures e.Some? <==>
              (data.ownerId.Given? || data.teamId.Given?)
              && (CheckedOwner(t, data).Some? <==> CheckedTeam(t, data).Some?)
    ensures e == Some(NEEDS_OWNER_OR_TEAM) <==>
              (data.ownerId.Given? || data.teamId.Given?)
              && CheckedOwner(t, data).None? && CheckedTeam(t, data).None?
    ensures e == Some(NOT_BOTH) <==>
              (data.ownerId.Given? || data.teamId.Given?)
              && CheckedOwner(t, data).Some? && CheckedTeam(t, data).Some?
  {
    if !(data.ownerId.Given? || data.teamId.Given?) then None
    else
      var owner, team := CheckedOwner(t, data), CheckedTeam(t, data);
      if owner.None? && team.None? then Some(NEEDS_OWNER_OR_TEAM)
      else if owner.Some? && team.Some? then Some(NOT_BOTH)
      else None
  }

  /** A field value sent and not null overrides `current`. */
  function Override<T>(f: Field<Option<T>>, current: T): (v: T)
  {
    if f.Given? && f.value.Some? then f.value.value else current
  }

  function OverrideOptional<T>(f: Field<Option<T>>, current: Option<T>): (v: Option<T>)
  {
    if f.Given? && f.value.Some? then f.value else current
  }

  /** The reference definition of the write step: every key sent with a
      non-null value is written, everything else keeps its value. */
  function Patched(t: Task, data: TaskUpdate): (t': Task)
  {
    t.(title := Override(data.title, t.title),
       description := OverrideOptional(data.description, t.description),
       status := Override(data.status, t.status),
       dueDate := OverrideOptional(data.dueDate, t.dueDate),
       ownerId := Override(data.ownerId, t.ownerId),
       teamId := OverrideOptional(data.teamId, t.teamId))
  }

  /** One (field, value) pair of `model_dump(exclude_unset=True)`. */
  datatype TaskField =
    | Title(title: Option<string>)
    | Description(description: Option<string>)
    | Status(status: Option<string>)
    | DueDate(dueDate: Option<DateTime>)
    | OwnerId(ownerId: Option<int>)
    | TeamId(teamId: Option<int>)

  /** The pair for each key the client sent, or nothing. */
  function TitleItem(data: TaskUpdate): (s: seq<TaskField>)
  {
    if data.title.Given? then [Title(data.title.value)] else []
  }

  function DescriptionItem(data: TaskUpdate): (s: seq<TaskField>)
  {
    if data.description.Given? then [Description(data.description.value)] else []
  }

  function StatusItem(data: TaskUpdate): (s: seq<TaskField>)
  {
    if data.status.Given? then [Status(data.status.value)] else []
  }

  function DueDateItem(data: TaskUpdate): (s: seq<TaskField>)
  {
    if data.dueDate.Given? then [DueDate(data.dueDate.value)] else []
  }

  function OwnerIdItem(data: TaskUpdate): (s: seq<TaskField>)
  {
    if data.ownerId.Given? then [OwnerId(data.ownerId.value)] else []
  }

  function TeamIdItem(data: TaskUpdate): (s: seq<TaskField>)
  {
    if data.teamId.Given? then [TeamId(data.teamId.value)] else []
  }

  /** The keys the client sent, in the schema's field order. */
  function Items(data: TaskUpdate): (s: seq<TaskField>)
    ensures |s| <= 6
  {
    TitleItem(data) + DescriptionItem(data) + StatusItem(data) + DueDateItem(data)
    + OwnerIdItem(data) + TeamIdItem(data)
  }

  /** `value is not None` for one pair. */
  predicate HasValue(f: TaskField)
  {
    match f
    case Title(v) => v.Some?
    case Description(v) => v.Some?
    case Status(v) => v.Some?
    case DueDate(v) => v.Some?
    case OwnerId(v) => v.Some?
    case TeamId(v) => v.Some?
  }

  /** `setattr(task, field, value)`. */
  function SetAttr(t: Task, f: TaskField): (t': Task)
    requires HasValue(f)
  {
    match f
    case Title(v) => t.(title := v.value)
    case Description(v) => t.(description := v)
    case Status(v) => t.(status := v.value)
    case DueDate(v) => t.(dueDate := v)
    case OwnerId(v) => t.(ownerId := v.value)
    case TeamId(v) => t.(teamId := v)
  }

  /** One turn of the write loop. */
  function Step(t: Task, f: TaskField): (t': Task)
  {
    if HasValue(f) then SetAttr(t, f) else t
  }

  /** The write loop run over the pairs `s`, in order. */
  function Run(t: Task, s: seq<TaskField>): (t': Task)
  {
    if s == [] then t else Step(Run(t, s[..|s| - 1]), s[|s| - 1])
  }

  /** Running the loop one pair further. */
  lemma {:induction false} RunSnoc(t: Task, s: seq<TaskField>, f: TaskField)
    ensures Run(t, s + [f]) == Step(Run(t, s), f)
  {
    assert (s + [f])[..|s + [f]| - 1] == s;
  }

  lemma RunAppendTitle(t: Task, s: seq<TaskField>, data: TaskUpdate)
    ensures Run(t, s + TitleItem(data)) == Run(t, s).(title := Override(data.title, Run(t, s).title))
  {
    if data.title.Given? { RunSnoc(t, s, Title(data.title.value)); } else { assert s + [] == s; }
  }

  lemma RunAppendDescription(t: Task, s: seq<TaskField>, data: TaskUpdate)
    ensures Run(t, s + DescriptionItem(data)) ==
            Run(t, s).(description := OverrideOptional(data.description, Run(t, s).description))
  {
    if data.description.Given? { RunSnoc(t, s, Description(data.description.value)); } else { assert s + [] == s; }
  }

  lemma RunAppendStatus(t: Task, s: seq<TaskField>, data: TaskUpdate)
    ensures Run(t, s + StatusItem(data)) == Run(t, s).(status := Override(data.status, Run(t, s).status))
  {
    if data.status.Given? { RunSnoc(t, s, Status(data.status.value)); } else { assert s + [] == s; }
  }

  lemma RunAppendDueDate(t: Task, s: seq<TaskField>, data: TaskUpdate)
    ensures Run(t, s + DueDateItem(data)) ==
            Run(t, s).(dueDate := OverrideOptional(data.dueDate, Run(t, s).dueDate))
  {
    if data.dueDate.Given? { RunSnoc(t, s, DueDate(data.dueDate.value)); } else { assert s + [] == s; }
  }

  lemma RunAppendOwnerId(t: Task, s: seq<TaskField>, data: TaskUpdate)
    ensures Run(t, s + OwnerIdItem(data)) == Run(t, s).(ownerId := Override(data.ownerId, Run(t, s).ownerId))
  {
    if data.ownerId.Given? { RunSnoc(t, s, OwnerId(data.ownerId.value)); } else { assert s + [] == s; }
  }

  lemma RunAppendTeamId(t: Task, s: seq<TaskField>, data: TaskUpdate)
    ensures Run(t, s + TeamIdItem(data)) == Run(t, s).(teamId := OverrideOptional(data.teamId, Run(t, s).teamId))
  {
    if data.teamId.Given? { RunSnoc(t, s, TeamId(data.teamId.value)); } else { assert s + [] == s; }
  }

  /** Running the loop over the sent keys gives the reference definition. */
  lemma {:induction false} RunItemsIsPatched(t: Task, data: TaskUpdate)
    ensures Run(t, Items(data)) == Patched(t, data)
  {
    var s1 := TitleItem(data);
    var s2 := s1 + DescriptionItem(data);
    var s3 := s2 + StatusItem(data);
    var s4 := s3 + DueDateItem(data);
    var s5 := s4 + OwnerIdItem(data);
    assert [] + s1 == s1;
    RunAppendTitle(t, [], data);
    RunAppendDescription(t, s1, data);
    RunAppendStatus(t, s2, data);
    RunAppendDueDate(t, s3, data);
    RunAppendOwnerId(t, s4, data);
    RunAppendTeamId(t, s5, data);
  }

  /** update_task's write step: `for field, value in update_data.items():
      if value is not None: setattr(task, field, value)`. */
  method ApplyUpdate(task: Task, data: TaskUpdate) returns (r: Task)
    ensures r == Patched(task, data)
  {
    var items := Items(data);
    r := task;
    var i := 0;
    while i < |items|
      invariant 0 <= i <= |items|
      invariant r == Run(task, items[..i])
    {
      if HasValue(items[i]) {
        r := SetAttr(r, items[i]);
      }
      assert items[..i + 1][..i] == items[..i];
      i := i + 1;
    }
    assert items[..i] == items;
    RunItemsIsPatched(task, data);
  }

  /** update_task. */
  function UpdateTask(db: Db, taskId: int, data: TaskUpdate): (r: Reply<Task>)
    ensures taskId !in db.tasks ==> r == Reply(NotFound(TASK_NOT_FOUND), db)
    ensures taskId in db.tasks && OwnershipRefusal(db.tasks[taskId], data).Some? ==>
              r == Reply(BadRequest(OwnershipRefusal(db.tasks[taskId], data).value), db)
    // the check is skipped when neither key is sent
    ensures taskId in db.tasks && !data.ownerId.Given? && !data.teamId.Given? ==> r.outcome.Ok?
    ensures r.outcome.Ok? <==> taskId in db.tasks && OwnershipRefusal(db.tasks[taskId], data).None?
    ensures r.outcome.Ok? ==>
              r.outcome.value == Patched(db.tasks[taskId], data)
              && r.db == db.(tasks := db.tasks[taskId := r.outcome.value])
  {
    if taskId !in db.tasks then
      Reply(NotFound(TASK_NOT_FOUND), db)
    else
      var t := db.tasks[taskId];
      var refusal := OwnershipRefusal(t, data);
      if refusal.Some? then
        Reply(BadRequest(refusal.value), db)
      else
        var t' := Patched(t, data);
        Reply(Ok(t'), db.(tasks := db.tasks[taskId := t']))
  }

  /** delete_task: no cascade, nothing refers to a task. */
  function DeleteTask(db: Db, taskId: int): (r: Reply<bool>)
    ensures r.outcome.Ok? <==> taskId in db.tasks
    ensures !r.outcome.Ok? ==> r == Reply(NotFound(TASK_NOT_FOUND), db)
    ensures r.outcome.Ok? ==>
              r.outcome.value && r.db == db.(tasks := db.tasks - {taskId})
  {
    if taskId !in db.tasks then Reply(NotFound(TASK_NOT_FOUND), db)
    else Reply(Ok(true), db.(tasks := db.tasks - {taskId}))
  }

  function TasksByOwner(db: Db, owner: int): (r: map<int, Task>)
    ensures forall id :: id in r <==> id in db.tasks && db.tasks[id].ownerId == owner
    ensures forall id :: id in r ==> r[id] == db.tasks[id]
  {
    map id | id in db.tasks && db.tasks[id].ownerId == owner :: db.tasks[id]
  }

  function TasksByTeam(db: Db, team: int): (r: map<int, Task>)
    ensures forall id :: id in r <==> id in db.tasks && db.tasks[id].teamId == Some(team)
    ensures forall id :: id in r ==> r[id] == db.tasks[id]
  {
    map id | id in db.tasks && db.tasks[id].teamId == Some(team) :: db.tasks[id]
  }

  function TasksByStatus(db: Db, status: string): (r: map<int, Task>)
    ensures forall id :: id in r <==> id in db.tasks && db.tasks[id].status == status
    ensures forall id :: id in r ==> r[id] == db.tasks[id]
  {
    map id | id in db.tasks && db.tasks[id].status == status :: db.tasks[id]
  }

  // ---- properties ----

  /** create_task stores a task with both an owner and a team when both are sent. */
  lemma CreateTaskKeepsOwnerAndTeam(db: Db, data: TaskCreate)
    requires WellFormed(db)
    requires data.ownerId in db.users && data.teamId.Some? && data.teamId.value in db.teams
    ensures var r := CreateTask(db, data);
            r.outcome.Ok? && r.outcome.value.ownerId == data.ownerId && r.outcome.value.teamId == data.teamId
  {
  }

  /** A new task whose status is not sent is "pending". */
  lemma CreateTaskDefaultsToPending(db: Db, data: TaskCreate)
    requires WellFormed(db) && data.status.Unset?
    ensures CreateTask(db, data).outcome.Ok? ==> CreateTask(db, data).outcome.value.status == "pending"
  {
  }

  /** Sending `owner_id: null` with a team passes the check, yet the null is
      never written: the task ends up with both an owner and a team. */
  lemma UpdateTaskCanLeaveOwnerAndTeam(db: Db, taskId: int, team: int, data: TaskUpdate)
    requires taskId in db.tasks && db.tasks[taskId].teamId.None?
    requires data.ownerId == Given(None) && data.teamId == Given(Some(team))
    ensures var r := UpdateTask(db, taskId, data);
            r.outcome.Ok? && r.outcome.value.ownerId == db.tasks[taskId].ownerId
            && r.outcome.value.teamId == Some(team)
  {
  }

  /** Sending a team while the task keeps its owner is refused ("cannot have both"). */
  lemma UpdateTaskRefusesTeamBesideOwner(db: Db, taskId: int, team: int, data: TaskUpdate)
    requires taskId in db.tasks
    requires data.teamId == Given(Some(team)) && (data.ownerId.Unset? || data.ownerId.value.Some?)
    ensures UpdateTask(db, taskId, data) == Reply(BadRequest(NOT_BOTH), db)
  {
  }

  /** Re-sending a non-null owner for a task that already has a team, with
      `team_id` left out, is refused the same way: the current team counts. */
  lemma TeamedTaskOwnerResent(db: Db, taskId: int, owner: int, data: TaskUpdate)
    requires taskId in db.tasks && db.tasks[taskId].teamId.Some?
    requires data.ownerId == Given(Some(owner)) && data.teamId.Unset?
    ensures UpdateTask(db, taskId, data) == Reply(BadRequest(NOT_BOTH), db)
  {
  }

  /** A key sent as null never clears the field. */
  lemma UpdateTaskNeverClears(db: Db, taskId: int, data: TaskUpdate)
    requires taskId in db.tasks && UpdateTask(db, taskId, data).outcome.Ok?
    ensures var t, t' := db.tasks[taskId], UpdateTask(db, taskId, data).outcome.value;
            t'.id == t.id
            && (t.description.Some? ==> t'.description.Some?)
            && (t.dueDate.Some? ==> t'.dueDate.Some?)
            && (t.teamId.Some? ==> t'.teamId.Some?)
  {
  }

  lemma CreateTaskKeepsInvariants(db: Db, data: TaskCreate)
    requires WellFormed(db)
    ensures WellFormed(CreateTask(db, data).db)
    ensures Linked(db) ==> Linked(CreateTask(db, data).db)
  {
  }

  lemma UpdateTaskKeepsWellFormed(db: Db, taskId: int, data: TaskUpdate)
    requires WellFormed(db)
    ensures WellFormed(UpdateTask(db, taskId, data).db)
  {
  }

  /** update_task writes owner and team ids it never looks up; links survive
      only when the ids it writes exist. */
  lemma UpdateTaskKeepsLinkedWhenTargetsExist(db: Db, taskId: int, data: TaskUpdate)
    requires WellFormed(db) && Linked(db)
    requires data.ownerId.Given? && data.ownerId.value.Some? ==> data.ownerId.value.value in db.users
    requires data.teamId.Given? && data.teamId.value.Some? ==> data.teamId.value.value in db.teams
    ensures Linked(UpdateTask(db, taskId, data).db)
  {
  }

  /** A concrete store where update_task leaves a task owned by a user that does not exist. */
  lemma UpdateTaskCanDangle()
    ensures var db := Db(map[], map[], map[], map[1 := Task(1, "t", None, "pending", None, 5, None)], 1, 1, 1, 2);
            var r := UpdateTask(db, 1, TaskUpdate(Unset, Unset, Unset, Unset, Given(Some(9)), Unset));
            r.outcome.Ok? && r.outcome.value.ownerId == 9 && 9 !in r.db.users
  {
  }

  lemma DeleteTaskKeepsInvariants(db: Db, taskId: int)
    requires WellFormed(db)
    ensures WellFormed(DeleteTask(db, taskId).db)
    ensures Linked(db) ==> Linked(DeleteTask(db, taskId).db)
  {
  }

  /** The new task shows up under its owner, and nothing else moves there. */
  lemma CreateTaskListedUnderOwner(db: Db, data: TaskCreate)
    requires WellFormed(db) && CreateTask(db, data).outcome.Ok?
    ensures var r := CreateTask(db, data);
            TasksByOwner(r.db, data.ownerId) == TasksByOwner(db, data.ownerId)[r.outcome.value.id := r.outcome.value]
  {
  }

  /** delete_task removes the task from every listing and nothing else. */
  lemma DeleteTaskUnlists(db: Db, taskId: int, owner: int, team: int, status: string)
    requires taskId in db.tasks
    ensures var db' := DeleteTask(db, taskId).db;
            TasksByOwner(db', owner) == TasksByOwner(db, owner) - {taskId}
            && TasksByTeam(db', team) == TasksByTeam(db, team) - {taskId}
            && TasksByStatus(db', status) == TasksByStatus(db, status) - {taskId}
  {
  }
}
