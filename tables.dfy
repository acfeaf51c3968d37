/** The relational store as a value: the four tables keyed by row id, and the
    next value of each table's auto-increment id. The lookups here are the
    filter queries the services share. */
module Tables {
  import opened Records

  datatype Db = Db(
    users: map<int, User>,
    teams: map<int, Team>,
    members: map<int, Membership>,
    tasks: map<int, Task>,
    nextUserId: int,
    nextTeamId: int,
    nextMemberId: int,
    nextTaskId: int)

  /** The result of a mutating service call and the store after it. */
  datatype Reply<T> = Reply(outcome: Outcome<T>, db: Db)

  /** A store with no rows; ids start at 1. */
  function Empty(): (db: Db)
    ensures db.users == map[] && db.teams == map[] && db.members == map[] && db.tasks == map[]
  {
    Db(map[], map[], map[], map[], 1, 1, 1, 1)
  }

  /** Every row sits under its own id, below the table's next id, and every
      membership names a team id that has already been issued. */
  ghost predicate KeysConsistent(db: Db)
  {
    (forall id :: id in db.users ==> db.users[id].id == id && id < db.nextUserId)
    && (forall id :: id in db.teams ==> db.teams[id].id == id && id < db.nextTeamId)
    && (forall id :: id in db.members ==>
          db.members[id].id == id && id < db.nextMemberId && db.members[id].teamId < db.nextTeamId)
    && (forall id :: id in db.tasks ==> db.tasks[id].id == id && id < db.nextTaskId)
  }

  ghost predicate UniqueUsernames(users: map<int, User>)
  {
    forall i, j :: i in users && j in users && users[i].username == users[j].username ==> i == j
  }

  ghost predicate UniqueEmails(users: map<int, User>)
  {
    forall i, j :: i in users && j in users && users[i].email == users[j].email ==> i == j
  }

  ghost predicate UniqueTeamNames(teams: map<int, Team>)
  {
    forall i, j :: i in teams && j in teams && teams[i].name == teams[j].name ==> i == j
  }

  /** At most one membership row per (team, user) pair. */
  ghost predicate UniqueMemberships(members: map<int, Membership>)
  {
    forall i, j ::
      i in members && j in members
      && members[i].teamId == members[j].teamId && members[i].userId == members[j].userId
      ==> i == j
  }

  /** The invariant every reachable store satisfies. */
  ghost predicate WellFormed(db: Db)
  {
    KeysConsistent(db)
    && UniqueUsernames(db.users) && UniqueEmails(db.users)
    && UniqueTeamNames(db.teams)
    && UniqueMemberships(db.members)
  }

  /** Referential integrity: every membership names an existing team and user,
      every task an existing owner and, when it has one, an existing team. */
  ghost predicate Linked(db: Db)
  {
    (forall id :: id in db.members ==> db.members[id].teamId in db.teams && db.members[id].userId in db.users)
    && (forall id :: id in db.tasks ==>
          db.tasks[id].ownerId in db.users
          && (db.tasks[id].teamId.Some? ==> db.tasks[id].teamId.value in db.teams))
  }

  lemma EmptyIsWellFormedAndLinked()
    ensures WellFormed(Empty()) && Linked(Empty())
  {
  }

  // ---- membership lookups ----

  /** Some row links `user` to `team`. */
  ghost predicate IsMember(db: Db, team: int, user: int)
  {
    exists id :: id in db.members && db.members[id].teamId == team && db.members[id].userId == user
  }

  /** Some row links `user` to `team` as a moderator. */
  ghost predicate IsModerator(db: Db, team: int, user: int)
  {
    exists id :: id in db.members && db.members[id].teamId == team && db.members[id].userId == user
                 && db.members[id].isModerator
  }

  /** `query(TeamMember).filter(team_id == team, user_id == user).first()`:
      the id of the (team, user) row, if there is one. */
  ghost function MembershipRow(db: Db, team: int, user: int): (r: Option<int>)
    requires WellFormed(db)
    ensures r.None? <==> !IsMember(db, team, user)
    ensures r.Some? ==> r.value in db.members
                        && db.members[r.value].teamId == team && db.members[r.value].userId == user
    ensures r.Some? ==>
      forall id :: id in db.members && db.members[id].teamId == team && db.members[id].userId == user
        ==> id == r.value
  {
    if IsMember(db, team, user) then
      var id :| id in db.members && db.members[id].teamId == team && db.members[id].userId == user;
      Some(id)
    else
      None
  }

  /** The moderator check add_member, remove_member and update_member_role
      share: fetch the actor's row for the team and test its flag. */
  ghost predicate ModeratorGate(db: Db, team: int, actor: int)
    requires WellFormed(db)
  {
    var row := MembershipRow(db, team, actor);
    row.Some? && db.members[row.value].isModerator
  }

  /** In a well-formed store the gate lets through exactly the team's moderators. */
  lemma ModeratorGateIsModerator(db: Db, team: int, actor: int)
    requires WellFormed(db)
    ensures ModeratorGate(db, team, actor) <==> IsModerator(db, team, actor)
  {
    if IsModerator(db, team, actor) {
      var id :| id in db.members && db.members[id].teamId == team && db.members[id].userId == actor
                && db.members[id].isModerator;
      assert MembershipRow(db, team, actor) == Some(id);
    }
  }

  /** The memberships of one team, keyed by their id. */
  function Roster(members: map<int, Membership>, team: int): (r: map<int, Membership>)
    ensures forall id :: id in r <==> id in members && members[id].teamId == team
    ensures forall id :: id in r ==> r[id] == members[id]
  {
    map id | id in members && members[id].teamId == team :: members[id]
  }

  // ---- user and team lookups ----

  ghost predicate UsernameTaken(db: Db, name: string)
  {
    exists id :: id in db.users && db.users[id].username == name
  }

  ghost predicate EmailTaken(db: Db, email: string)
  {
    exists id :: id in db.users && db.users[id].email == email
  }

  /** `filter(User.username == name, User.id != self)` finds a row. */
  ghost predicate UsernameTakenByOther(db: Db, name: string, self: int)
  {
    exists id :: id in db.users && db.users[id].username == name && id != self
  }

  ghost predicate EmailTakenByOther(db: Db, email: string, self: int)
  {
    exists id :: id in db.users && db.users[id].email == email && id != self
  }

  ghost predicate TeamNameTaken(db: Db, name: string)
  {
    exists id :: id in db.teams && db.teams[id].name == name
  }

  ghost predicate TeamNameTakenByOther(db: Db, name: string, self: int)
  {
    exists id :: id in db.teams && db.teams[id].name == name && id != self
  }
}
