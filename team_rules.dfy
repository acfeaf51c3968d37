/** The team rules of app/services/team_service.py. */
module TeamRules {
  import opened Records
  import opened Tables

  const CREATOR_NOT_FOUND := "Creator user not found"
  const TEAM_NAME_EXISTS := "Team name already exists"
  const TEAM_NOT_FOUND := "Team not found"
  const TEAM_NAME_TAKEN := "Team name already taken"

  /** create_team: the creator must exist and the name must be free; the new
      team gets the creator as its one, moderating, member. */
  ghost function CreateTeam(db: Db, data: TeamCreate, creator: int): (r: Reply<Team>)
    requires WellFormed(db)
    // the creator is checked before the name
    ensures creator !in db.users ==> r == Reply(BadRequest(CREATOR_NOT_FOUND), db)
    ensures creator in db.users && TeamNameTaken(db, data.name) ==>
              r == Reply(BadRequest(TEAM_NAME_EXISTS), db)
    ensures r.outcome.Ok? <==> creator in db.users && !TeamNameTaken(db, data.name)
    ensures r.outcome.Ok? ==>
              var t := r.outcome.value;
              t.id !in db.teams && t.name == data.name
              && r.db.teams.Keys == db.teams.Keys + {t.id} && r.db.teams[t.id] == t
              && (forall id :: id in db.teams ==> r.db.teams[id] == db.teams[id])
              && r.db.users == db.users && r.db.tasks == db.tasks
    // exactly one new membership: the creator, in the new team, as moderator
    ensures r.outcome.Ok? ==>
              exists mid :: mid !in db.members
                && r.db.members == db.members[mid := Membership(mid, r.outcome.value.id, creator, true)]
  {
    if creator !in db.users then
      Reply(BadRequest(CREATOR_NOT_FOUND), db)
    else if TeamNameTaken(db, data.name) then
      Reply(BadRequest(TEAM_NAME_EXISTS), db)
    else
      var t := Team(db.nextTeamId, data.name);
      var m := Membership(db.nextMemberId, t.id, creator, true);
      Reply(Ok(t), db.(teams := db.teams[t.id := t], nextTeamId := db.nextTeamId + 1,
                       members := db.members[m.id := m], nextMemberId := db.nextMemberId + 1))
  }

  /** get_all_teams. */
  function GetAllTeams(db: Db): (r: map<int, Team>)
    ensures forall id :: id in r <==> id in db.teams
    ensures forall id :: id in r ==> r[id] == db.teams[id]
  {
    db.teams
  }

  function GetTeamById(db: Db, teamId: int): (r: Outcome<Team>)
    ensures r.Ok? <==> teamId in db.teams
    ensures r.Ok? ==> r.value == db.teams[teamId]
    ensures !r.Ok? ==> r == NotFound(TEAM_NOT_FOUND)
  {
    if teamId in db.teams then Ok(db.teams[teamId]) else NotFound(TEAM_NOT_FOUND)
  }

  /** update_team: a supplied, non-empty name replaces the old one unless
      another team holds it; any other payload leaves the team as it is. */
  ghost function UpdateTeam(db: Db, teamId: int, data: TeamUpdate): (r: Reply<Team>)
    requires WellFormed(db)
    ensures teamId !in db.teams ==> r == Reply(NotFound(TEAM_NOT_FOUND), db)
    ensures teamId in db.teams && Truthy(data.name) && TeamNameTakenByOther(db, TruthyValue(data.name), teamId) ==>
              r == Reply(BadRequest(TEAM_NAME_TAKEN), db)
    ensures r.outcome.Ok? <==>
              teamId in db.teams && !(Truthy(data.name) && TeamNameTakenByOther(db, TruthyValue(data.name), teamId))
    ensures r.outcome.Ok? ==>
              r.outcome.value.id == teamId
              && r.outcome.value.name == (if Truthy(data.name) then TruthyValue(data.name) else db.teams[teamId].name)
              && r.db == db.(teams := db.teams[teamId := r.outcome.value])
    ensures r.outcome.Ok? && !Truthy(data.name) ==> r.db == db
  {
    if teamId !in db.teams then
      Reply(NotFound(TEAM_NOT_FOUND), db)
    else if Truthy(data.name) then
      var name := TruthyValue(data.name);
      if TeamNameTakenByOther(db, name, teamId) then
        Reply(BadRequest(TEAM_NAME_TAKEN), db)
      else
        var t := db.teams[teamId].(name := name);
        Reply(Ok(t), db.(teams := db.teams[teamId := t]))
    else
      Reply(Ok(db.teams[teamId]), db)
  }

  /** The tasks table after delete_team's bulk update: every task of the team
      is kept, with its team cleared. */
  function DetachTeam(tasks: map<int, Task>, teamId: int): (r: map<int, Task>)
    ensures r.Keys == tasks.Keys
    ensures forall id :: id in r ==> r[id].teamId != Some(teamId)
    ensures forall id :: id in r && tasks[id].teamId == Some(teamId) ==> r[id] == tasks[id].(teamId := None)
    ensures forall id :: id in r && tasks[id].teamId != Some(teamId) ==> r[id] == tasks[id]
  {
    map id | id in tasks :: if tasks[id].teamId == Some(teamId) then tasks[id].(teamId := None) else tasks[id]
  }

  /** delete_team: drops the team's memberships, detaches its tasks, then
      drops the team. */
  ghost function DeleteTeam(db: Db, teamId: int): (r: Reply<bool>)
    requires WellFormed(db)
    ensures teamId !in db.teams ==> r == Reply(NotFound(TEAM_NOT_FOUND), db)
    ensures r.outcome.Ok? <==> teamId in db.teams
    ensures r.outcome.Ok? ==> r.outcome.value && r.db.teams == db.teams - {teamId}
    // no membership of the team survives; every other membership does, unchanged
    ensures r.outcome.Ok? ==>
              forall id :: id in r.db.members <==> id in db.members && db.members[id].teamId != teamId
    ensures forall id :: id in r.db.members ==> r.db.members[id] == db.members[id]
    // every task is kept; the team's tasks lose their team, the others are unchanged
    ensures r.db.tasks.Keys == db.tasks.Keys
    ensures r.outcome.Ok? ==>
              forall id :: id in db.tasks ==>
                r.db.tasks[id] == if db.tasks[id].teamId == Some(teamId) then db.tasks[id].(teamId := None)
                                  else db.tasks[id]
    ensures r.db.users == db.users
  {
    if teamId !in db.teams then
      Reply(NotFound(TEAM_NOT_FOUND), db)
    else
      Reply(Ok(true), db.(members := map id | id in db.members && db.members[id].teamId != teamId :: db.members[id],
                          tasks := DetachTeam(db.tasks, teamId),
                          teams := db.teams - {teamId}))
  }

  /** team_service.get_team_members: no authorisation, but the team must exist. */
  function GetTeamMembers(db: Db, teamId: int): (r: Outcome<map<int, Membership>>)
    ensures r.Ok? <==> teamId in db.teams
    ensures !r.Ok? ==> r == NotFound(TEAM_NOT_FOUND)
    ensures r.Ok? ==> r.value == Roster(db.members, teamId)
  {
    if teamId !in db.teams then NotFound(TEAM_NOT_FOUND) else Ok(Roster(db.members, teamId))
  }

  /** get_user_teams: the teams joined with a membership of `user`. */
  ghost function GetUserTeams(db: Db, user: int): (r: map<int, Team>)
    ensures forall id :: id in r <==> id in db.teams && IsMember(db, id, user)
    ensures forall id :: id in r ==> r[id] == db.teams[id]
  {
    map id | id in db.teams && IsMember(db, id, user) :: db.teams[id]
  }

  // ---- properties relating several calls ----

  /** Right after create_team the creator is the team's only member, and a moderator. */
  lemma CreatorIsSoleModerator(db: Db, data: TeamCreate, creator: int)
    requires WellFormed(db)
    requires CreateTeam(db, data, creator).outcome.Ok?
    ensures var r := CreateTeam(db, data, creator);
            var t := r.outcome.value.id;
            exists mid :: Roster(r.db.members, t) == map[mid := Membership(mid, t, creator, true)]
  {
    var r := CreateTeam(db, data, creator);
    var t := r.outcome.value.id;
    var mid :| mid !in db.members && r.db.members == db.members[mid := Membership(mid, t, creator, true)];
    assert forall id :: id in db.members ==> db.members[id].teamId < t;
    assert Roster(r.db.members, t).Keys == {mid};
  }

  /** So the creator passes the moderator gate of the new team and lists it
      among their teams. */
  lemma CreatorModeratesNewTeam(db: Db, data: TeamCreate, creator: int)
    requires WellFormed(db)
    requires CreateTeam(db, data, creator).outcome.Ok?
    ensures var r := CreateTeam(db, data, creator);
            IsModerator(r.db, r.outcome.value.id, creator)
            && r.outcome.value.id in GetUserTeams(r.db, creator)
  {
    var r := CreateTeam(db, data, creator);
    var t := r.outcome.value.id;
    var mid :| mid !in db.members && r.db.members == db.members[mid := Membership(mid, t, creator, true)];
    assert r.db.members[mid].teamId == t && r.db.members[mid].userId == creator;
    assert IsMember(r.db, t, creator);
  }

  /** A second team under an existing name is refused. */
  lemma DuplicateTeamNameRefused(db: Db, data: TeamCreate, creator: int, data2: TeamCreate, creator2: int)
    requires WellFormed(db)
    requires CreateTeam(db, data, creator).outcome.Ok?
    requires data2.name == data.name
    ensures var db1 := CreateTeam(db, data, creator).db;
            WellFormed(db1) && CreateTeam(db1, data2, creator2).outcome.BadRequest?
  {
    CreateTeamKeepsWellFormed(db, data, creator);
    var db1 := CreateTeam(db, data, creator).db;
    assert db1.teams[CreateTeam(db, data, creator).outcome.value.id].name == data2.name;
  }

  lemma CreateTeamKeepsWellFormed(db: Db, data: TeamCreate, creator: int)
    requires WellFormed(db)
    ensures WellFormed(CreateTeam(db, data, creator).db)
  {
    var r := CreateTeam(db, data, creator);
    if r.outcome.Ok? {
      assert forall id :: id in db.members ==> db.members[id].teamId != r.outcome.value.id;
    }
  }

  lemma CreateTeamKeepsLinked(db: Db, data: TeamCreate, creator: int)
    requires WellFormed(db) && Linked(db)
    ensures Linked(CreateTeam(db, data, creator).db)
  {
  }

  /** Team names stay unique across update_team, including a rename to the
      team's own current name. */
  lemma UpdateTeamKeepsInvariants(db: Db, teamId: int, data: TeamUpdate)
    requires WellFormed(db)
    ensures WellFormed(UpdateTeam(db, teamId, data).db)
    ensures Linked(db) ==> Linked(UpdateTeam(db, teamId, data).db)
  {
  }

  /** Renaming a team to the name it already has succeeds. */
  lemma RenameToOwnNameAllowed(db: Db, teamId: int)
    requires WellFormed(db) && teamId in db.teams
    ensures UpdateTeam(db, teamId, TeamUpdate(Given(Some(db.teams[teamId].name)))) ==
              Reply(Ok(db.teams[teamId]), db)
  {
    assert db.teams[teamId := db.teams[teamId]] == db.teams;
  }

  lemma DeleteTeamKeepsInvariants(db: Db, teamId: int)
    requires WellFormed(db)
    ensures WellFormed(DeleteTeam(db, teamId).db)
    ensures Linked(db) ==> Linked(DeleteTeam(db, teamId).db)
  {
  }

  /** After delete_team nobody lists the team and no task points at it. */
  lemma DeleteTeamLeavesNoTrace(db: Db, teamId: int, user: int)
    requires WellFormed(db) && teamId in db.teams
    ensures var db' := DeleteTeam(db, teamId).db;
            Roster(db'.members, teamId) == map[]
            && teamId !in GetUserTeams(db', user)
            && (forall id :: id in db'.tasks ==> db'.tasks[id].teamId != Some(teamId))
            && |db'.tasks| == |db.tasks|
  {
    var db' := DeleteTeam(db, teamId).db;
    assert db'.tasks.Keys == db.tasks.Keys;
  }
}
