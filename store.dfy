/** The services as the application runs them: one store object whose four
    tables and id counters every mutating call updates in place, check by
    check. Each method is proved to do what its rule function in MemberRules,
    TeamRules, UserRules or TaskRules says; the reads are those modules'
    functions applied to State(). */
module Service {
  import opened Passwords
  import opened Records
  import opened Tables
  import MemberRules
  import TeamRules
  import UserRules
  import TaskRules

  class Store {
    var users: map<int, User>
    var teams: map<int, Team>
    var members: map<int, Membership>
    var tasks: map<int, Task>
    var nextUserId: int
    var nextTeamId: int
    var nextMemberId: int
    var nextTaskId: int

    /** The tables as a value. */
    function State(): Db
      reads this
    {
      Db(users, teams, members, tasks, nextUserId, nextTeamId, nextMemberId, nextTaskId)
    }

    ghost predicate Valid()
      reads this
    {
      WellFormed(State())
    }

    constructor ()
      ensures Valid() && Linked(State()) && State() == Empty()
    {
      users, teams, members, tasks := map[], map[], map[], map[];
      nextUserId, nextTeamId, nextMemberId, nextTaskId := 1, 1, 1, 1;
      EmptyIsWellFormedAndLinked();
    }

    /** `query(TeamMember).filter(team_id == team, user_id == user).first()`. */
    method FindMembership(team: int, user: int) returns (row: Option<int>)
      requires Valid()
      ensures row == MembershipRow(State(), team, user)
    {
      if exists id :: id in members && members[id].teamId == team && members[id].userId == user {
        var id :| id in members && members[id].teamId == team && members[id].userId == user;
        row := Some(id);
      } else {
        row := None;
      }
    }

    // ---- team_member_service ----

    method AddMember(teamId: int, actor: int, data: MembershipCreate) returns (r: Outcome<Membership>)
      requires Valid()
      modifies this
      ensures Valid()
      ensures Reply(r, State()) == MemberRules.AddMember(old(State()), teamId, actor, data)
    {
      if teamId !in teams {
        return NotFound(MemberRules.TEAM_NOT_FOUND);
      }
      var actorRow := FindMembership(teamId, actor);
      if actorRow.None? || !members[actorRow.value].isModerator {
        return Forbidden(MemberRules.ONLY_MODERATORS_ADD);
      }
      if data.userId !in users {
        return NotFound(MemberRules.USER_NOT_FOUND);
      }
      var existing := FindMembership(teamId, data.userId);
      if existing.Some? {
        return BadRequest(MemberRules.ALREADY_IN_TEAM);
      }
      var m := Membership(nextMemberId, teamId, data.userId, IsModeratorRequested(data));
      members := members[m.id := m];
      nextMemberId := nextMemberId + 1;
      r := Ok(m);
      MemberRules.AddMemberKeepsWellFormed(old(State()), teamId, actor, data);
    }

    method RemoveMember(teamId: int, actor: int, user: int) returns (r: Outcome<bool>)
      requires Valid()
      modifies this
      ensures Valid()
      ensures Reply(r, State()) == MemberRules.RemoveMember(old(State()), teamId, actor, user)
    {
      var actorRow := FindMembership(teamId, actor);
      if actorRow.None? || !members[actorRow.value].isModerator {
        return Forbidden(MemberRules.ONLY_MODERATORS_REMOVE);
      }
      var row := FindMembership(teamId, user);
      if row.None? {
        return NotFound(MemberRules.MEMBER_NOT_IN_TEAM);
      }
      members := members - {row.value};
      r := Ok(true);
      MemberRules.RemoveMemberKeepsInvariants(old(State()), teamId, actor, user);
    }

    method UpdateMemberRole(teamId: int, actor: int, user: int, data: MembershipUpdate)
      returns (r: Outcome<Membership>)
      requires Valid()
      modifies this
      ensures Valid()
      ensures Reply(r, State()) == MemberRules.UpdateMemberRole(old(State()), teamId, actor, user, data)
    {
      var actorRow := FindMembership(teamId, actor);
      if actorRow.None? || !members[actorRow.value].isModerator {
        return Forbidden(MemberRules.ONLY_MODERATORS_ROLES);
      }
      var row := FindMembership(teamId, user);
      if row.None? {
        return NotFound(MemberRules.MEMBER_NOT_FOUND);
      }
      var m := members[row.value];
      if data.isModerator.Some? {
        m := m.(isModerator := data.isModerator.value);
        members := members[m.id := m];
      }
      r := Ok(m);
      MemberRules.UpdateMemberRoleKeepsInvariants(old(State()), teamId, actor, user, data);
    }

    // ---- team_service ----

    method CreateTeam(data: TeamCreate, creator: int) returns (r: Outcome<Team>)
      requires Valid()
      modifies this
      ensures Valid()
      ensures Reply(r, State()) == TeamRules.CreateTeam(old(State()), data, creator)
    {
      if creator !in users {
        return BadRequest(TeamRules.CREATOR_NOT_FOUND);
      }
      if exists id :: id in teams && teams[id].name == data.name {
        return BadRequest(TeamRules.TEAM_NAME_EXISTS);
      }
      var t := Team(nextTeamId, data.name);
      teams := teams[t.id := t];
      nextTeamId := nextTeamId + 1;
      var m := Membership(nextMemberId, t.id, creator, true);
      members := members[m.id := m];
      nextMemberId := nextMemberId + 1;
      r := Ok(t);
      TeamRules.CreateTeamKeepsWellFormed(old(State()), data, creator);
    }

    method UpdateTeam(teamId: int, data: TeamUpdate) returns (r: Outcome<Team>)
      requires Valid()
      modifies this
      ensures Valid()
      ensures Reply(r, State()) == TeamRules.UpdateTeam(old(State()), teamId, data)
    {
      if teamId !in teams {
        return NotFound(TeamRules.TEAM_NOT_FOUND);
      }
      var team := teams[teamId];
      if Truthy(data.name) {
        var name := TruthyValue(data.name);
        if exists id :: id in teams && teams[id].name == name && id != teamId {
          return BadRequest(TeamRules.TEAM_NAME_TAKEN);
        }
        team := team.(name := name);
        teams := teams[teamId := team];
      }
      r := Ok(team);
      TeamRules.UpdateTeamKeepsInvariants(old(State()), teamId, data);
    }

    method DeleteTeam(teamId: int) returns (r: Outcome<bool>)
      requires Valid()
      modifies this
      ensures Valid()
      ensures Reply(r, State()) == TeamRules.DeleteTeam(old(State()), teamId)
    {
      if teamId !in teams {
        return NotFound(TeamRules.TEAM_NOT_FOUND);
      }
      members := map id | id in members && members[id].teamId != teamId :: members[id];
      tasks := TeamRules.DetachTeam(tasks, teamId);
      teams := teams - {teamId};
      r := Ok(true);
      TeamRules.DeleteTeamKeepsInvariants(old(State()), teamId);
    }

    // ---- user_service ----

    method CreateUser(data: UserCreate) returns (r: Outcome<User>)
      requires Valid()
      modifies this
      ensures Valid()
      ensures Reply(r, State()) == UserRules.CreateUser(old(State()), data)
    {
      if exists id :: id in users && users[id].username == data.username {
        return BadRequest(UserRules.USERNAME_REGISTERED);
      }
      if exists id :: id in users && users[id].email == data.email {
        return BadRequest(UserRules.EMAIL_REGISTERED);
      }
      var u := User(nextUserId, data.username, data.email, SetPassword(data.password), None);
      users := users[u.id := u];
      nextUserId := nextUserId + 1;
      r := Ok(u);
      UserRules.CreateUserKeepsInvariants(old(State()), data);
    }

    method UpdateUser(userId: int, data: UserUpdate) returns (r: Outcome<User>)
      requires Valid()
      modifies this
      ensures Valid()
      ensures Reply(r, State()) == UserRules.UpdateUser(old(State()), userId, data)
    {
      if userId !in users {
        return NotFound(UserRules.USER_NOT_FOUND);
      }
      // the session's copy of the row; only the commit at the end writes it
      var u := users[userId];
      if Truthy(data.username) {
        var name := TruthyValue(data.username);
        if exists id :: id in users && users[id].username == name && id != userId {
          return BadRequest(UserRules.USERNAME_TAKEN);
        }
        u := u.(username := name);
      }
      if Truthy(data.email) {
        var email := TruthyValue(data.email);
        if exists id :: id in users && users[id].email == email && id != userId {
          return BadRequest(UserRules.EMAIL_REGISTERED);
        }
        u := u.(email := email);
      }
      if Truthy(data.password) {
        u := u.(passwordHash := SetPassword(TruthyValue(data.password)));
      }
      users := users[userId := u];
      r := Ok(u);
      UserRules.UpdateUserKeepsInvariants(old(State()), userId, data);
    }

    method DeleteUser(userId: int) returns (r: Outcome<bool>)
      requires Valid()
      modifies this
      ensures Valid()
      ensures Reply(r, State()) == UserRules.DeleteUser(old(State()), userId)
    {
      if userId !in users {
        return NotFound(UserRules.USER_NOT_FOUND);
      }
      // the cascade of User.teams and User.tasks
      members := map id | id in members && members[id].userId != userId :: members[id];
      tasks := map id | id in tasks && tasks[id].ownerId != userId :: tasks[id];
      users := users - {userId};
      r := Ok(true);
      UserRules.DeleteUserKeepsInvariants(old(State()), userId);
    }

    // ---- task_service ----

    method CreateTask(data: TaskCreate) returns (r: Outcome<Task>)
      requires Valid()
      modifies this
      ensures Valid()
      ensures Reply(r, State()) == TaskRules.CreateTask(old(State()), data)
    {
      if data.ownerId !in users {
        return BadRequest(TaskRules.OWNER_NOT_FOUND);
      }
      if data.teamId.Some? && data.teamId.value !in teams {
        return BadRequest(TaskRules.TEAM_NOT_FOUND);
      }
      var t := Task(nextTaskId, data.title, data.description, StatusRequested(data), data.dueDate,
                    data.ownerId, data.teamId);
      tasks := tasks[t.id := t];
      nextTaskId := nextTaskId + 1;
      r := Ok(t);
      TaskRules.CreateTaskKeepsInvariants(old(State()), data);
    }

    method UpdateTask(taskId: int, data: TaskUpdate) returns (r: Outcome<Task>)
      requires Valid()
      modifies this
      ensures Valid()
      ensures Reply(r, State()) == TaskRules.UpdateTask(old(State()), taskId, data)
    {
      if taskId !in tasks {
        return NotFound(TaskRules.TASK_NOT_FOUND);
      }
      var task := tasks[taskId];
      if data.ownerId.Given? || data.teamId.Given? {
        var newOwner := if data.ownerId.Given? then data.ownerId.value else Some(task.ownerId);
        var newTeam := if data.teamId.Given? then data.teamId.value else task.teamId;
        if newOwner.None? && newTeam.None? {
          return BadRequest(TaskRules.NEEDS_OWNER_OR_TEAM);
        }
        if newOwner.Some? && newTeam.Some? {
          return BadRequest(TaskRules.NOT_BOTH);
        }
      }
      task := TaskRules.ApplyUpdate(task, data);
      tasks := tasks[taskId := task];
      r := Ok(task);
      TaskRules.UpdateTaskKeepsWellFormed(old(State()), taskId, data);
    }

    method DeleteTask(taskId: int) returns (r: Outcome<bool>)
      requires Valid()
      modifies this
      ensures Valid()
      ensures Reply(r, State()) == TaskRules.DeleteTask(old(State()), taskId)
    {
      if taskId !in tasks {
        return NotFound(TaskRules.TASK_NOT_FOUND);
      }
      tasks := tasks - {taskId};
      r := Ok(true);
      TaskRules.DeleteTaskKeepsInvariants(old(State()), taskId);
    }
  }
}
