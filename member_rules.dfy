/** The membership rules of app/services/team_member_service.py, as functions
    from the store before a call to the outcome and the store after it. */
module MemberRules {
  import opened Records
  import opened Tables

  const TEAM_NOT_FOUND := "Team not found"
  const ONLY_MODERATORS_ADD := "Only moderators can add members"
  const USER_NOT_FOUND := "User not found"
  const ALREADY_IN_TEAM := "User already in this team"
  const ONLY_MODERATORS_REMOVE := "Only moderators can remove members"
  const MEMBER_NOT_IN_TEAM := "Member not found in this team"
  const ONLY_MODERATORS_ROLES := "Only moderators can change roles"
  const MEMBER_NOT_FOUND := "Member not found"
  const NOT_A_MEMBER := "Access denied: user is not a member of this team"
  const TEAM_MEMBER_NOT_FOUND := "Team member not found"

  /** add_member: `actor` adds `data.userId` to `teamId`. The team id inside the
      payload plays no part. */
  ghost function AddMember(db: Db, teamId: int, actor: int, data: MembershipCreate): (r: Reply<Membership>)
    requires WellFormed(db)
    // the team check comes first
    ensures teamId !in db.teams ==> r == Reply(NotFound(TEAM_NOT_FOUND), db)
    // then the actor gate, whether or not the user to add exists
    ensures teamId in db.teams && !IsModerator(db, teamId, actor) ==>
              r == Reply(Forbidden(ONLY_MODERATORS_ADD), db)
    ensures teamId in db.teams && IsModerator(db, teamId, actor) && data.userId !in db.users ==>
              r == Reply(NotFound(USER_NOT_FOUND), db)
    ensures teamId in db.teams && IsModerator(db, teamId, actor) && data.userId in db.users
            && IsMember(db, teamId, data.userId) ==>
              r == Reply(BadRequest(ALREADY_IN_TEAM), db)
    ensures r.outcome.Ok? <==>
              teamId in db.teams && IsModerator(db, teamId, actor)
              && data.userId in db.users && !IsMember(db, teamId, data.userId)
    // success: one fresh row (new user, the path's team, the requested flag), nothing else changes
    ensures r.outcome.Ok? ==>
              var m := r.outcome.value;
              m.id !in db.members
              && m.userId == data.userId && m.teamId == teamId
              && m.isModerator == IsModeratorRequested(data)
              && r.db.members.Keys == db.members.Keys + {m.id}
              && r.db.members[m.id] == m
              && (forall id :: id in db.members ==> r.db.members[id] == db.members[id])
              && r.db.users == db.users && r.db.teams == db.teams && r.db.tasks == db.tasks
  {
    ModeratorGateIsModerator(db, teamId, actor);
    if teamId !in db.teams then
      Reply(NotFound(TEAM_NOT_FOUND), db)
    else if !ModeratorGate(db, teamId, actor) then
      Reply(Forbidden(ONLY_MODERATORS_ADD), db)
    else if data.userId !in db.users then
      Reply(NotFound(USER_NOT_FOUND), db)
    else if MembershipRow(db, teamId, data.userId).Some? then
      Reply(BadRequest(ALREADY_IN_TEAM), db)
    else
      var m := Membership(db.nextMemberId, teamId, data.userId, IsModeratorRequested(data));
      Reply(Ok(m), db.(members := db.members[m.id := m], nextMemberId := db.nextMemberId + 1))
  }

  /** remove_member: `actor` removes `user` from `teamId`. The team itself is
      never looked up, and nothing stops a moderator from removing themself. */
  ghost function RemoveMember(db: Db, teamId: int, actor: int, user: int): (r: Reply<bool>)
    requires WellFormed(db)
    ensures !IsModerator(db, teamId, actor) ==> r == Reply(Forbidden(ONLY_MODERATORS_REMOVE), db)
    ensures IsModerator(db, teamId, actor) && !IsMember(db, teamId, user) ==>
              r == Reply(NotFound(MEMBER_NOT_IN_TEAM), db)
    ensures r.outcome.Ok? <==> IsModerator(db, teamId, actor) && IsMember(db, teamId, user)
    ensures r.outcome.Ok? ==> r.outcome.value
    // success: exactly the (team, user) row is gone, every other row is untouched
    ensures r.outcome.Ok? ==>
              exists gone :: gone in db.members
                && db.members[gone].teamId == teamId && db.members[gone].userId == user
                && r.db.members == db.members - {gone}
    ensures r.outcome.Ok? ==> !IsMember(r.db, teamId, user)
    ensures r.db.users == db.users && r.db.teams == db.teams && r.db.tasks == db.tasks
    ensures r.db.nextMemberId == db.nextMemberId
  {
    ModeratorGateIsModerator(db, teamId, actor);
    if !ModeratorGate(db, teamId, actor) then
      Reply(Forbidden(ONLY_MODERATORS_REMOVE), db)
    else
      var row := MembershipRow(db, teamId, user);
      if row.None? then
        Reply(NotFound(MEMBER_NOT_IN_TEAM), db)
      else
        Reply(Ok(true), db.(members := db.members - {row.value}))
  }

  /** update_member_role: `actor` sets the moderator flag of `user` in `teamId`;
      a null flag leaves the row as it is. */
  ghost function UpdateMemberRole(db: Db, teamId: int, actor: int, user: int, data: MembershipUpdate)
    : (r: Reply<Membership>)
    requires WellFormed(db)
    ensures !IsModerator(db, teamId, actor) ==> r == Reply(Forbidden(ONLY_MODERATORS_ROLES), db)
    ensures IsModerator(db, teamId, actor) && !IsMember(db, teamId, user) ==>
              r == Reply(NotFound(MEMBER_NOT_FOUND), db)
    ensures r.outcome.Ok? <==> IsModerator(db, teamId, actor) && IsMember(db, teamId, user)
    ensures r.outcome.Ok? ==>
              var m := r.outcome.value;
              m.id in db.members && m.teamId == teamId && m.userId == user
              && m == db.members[m.id].(isModerator := if data.isModerator.Some? then data.isModerator.value
                                                        else db.members[m.id].isModerator)
              && r.db.members == db.members[m.id := m]
    ensures data.isModerator.None? ==> r.db == db
    ensures r.db.users == db.users && r.db.teams == db.teams && r.db.tasks == db.tasks
    ensures r.db.members.Keys == db.members.Keys && r.db.nextMemberId == db.nextMemberId
  {
    ModeratorGateIsModerator(db, teamId, actor);
    if !ModeratorGate(db, teamId, actor) then
      Reply(Forbidden(ONLY_MODERATORS_ROLES), db)
    else
      var row := MembershipRow(db, teamId, user);
      if row.None? then
        Reply(NotFound(MEMBER_NOT_FOUND), db)
      else
        var m := db.members[row.value];
        var m' := if data.isModerator.Some? then m.(isModerator := data.isModerator.value) else m;
        Reply(Ok(m'), db.(members := db.members[m'.id := m']))
  }

  /** team_member_service.get_team_members: only a member of the team, of
      either role, may list it. */
  ghost function GetTeamMembers(db: Db, teamId: int, requester: int): (r: Outcome<map<int, Membership>>)
    requires WellFormed(db)
    ensures r.Ok? <==> IsMember(db, teamId, requester)
    ensures !r.Ok? ==> r == Forbidden(NOT_A_MEMBER)
    ensures r.Ok? ==> forall id :: id in r.value <==> id in db.members && db.members[id].teamId == teamId
    ensures r.Ok? ==> forall id :: id in r.value ==> r.value[id] == db.members[id]
  {
    if MembershipRow(db, teamId, requester).None? then Forbidden(NOT_A_MEMBER)
    else Ok(Roster(db.members, teamId))
  }

  /** get_member_by_id: no authorisation. */
  function GetMemberById(db: Db, memberId: int): (r: Outcome<Membership>)
    ensures r.Ok? <==> memberId in db.members
    ensures r.Ok? ==> r.value == db.members[memberId]
    ensures !r.Ok? ==> r == NotFound(TEAM_MEMBER_NOT_FOUND)
  {
    if memberId in db.members then Ok(db.members[memberId]) else NotFound(TEAM_MEMBER_NOT_FOUND)
  }

  /** get_all_members: every membership of every team, to anybody. */
  function GetAllMembers(db: Db): (r: map<int, Membership>)
    ensures forall team :: Roster(db.members, team).Keys <= r.Keys
    ensures forall id :: id in r <==> id in db.members
    ensures forall id :: id in r ==> r[id] == db.members[id]
  {
    db.members
  }

  // ---- properties relating several calls ----

  /** The membership-gated listing and the open reads disagree: whatever
      get_team_members would show a member, get_member_by_id and
      get_all_members show anybody. */
  lemma OpenReadsExposeGatedRoster(db: Db, teamId: int, requester: int, outsider: int)
    requires WellFormed(db)
    requires IsMember(db, teamId, requester) && !IsMember(db, teamId, outsider)
    ensures GetTeamMembers(db, teamId, outsider).Forbidden?
    ensures forall id :: id in GetTeamMembers(db, teamId, requester).value ==>
              id in GetAllMembers(db) && GetMemberById(db, id).Ok?
  {
  }

  /** add_member reads the team only from its path argument. */
  lemma AddMemberIgnoresPayloadTeam(db: Db, teamId: int, actor: int, data: MembershipCreate, other: int)
    requires WellFormed(db)
    ensures AddMember(db, teamId, actor, data) == AddMember(db, teamId, actor, data.(teamId := other))
  {
  }

  lemma AddMemberKeepsWellFormed(db: Db, teamId: int, actor: int, data: MembershipCreate)
    requires WellFormed(db)
    ensures WellFormed(AddMember(db, teamId, actor, data).db)
  {
    var r := AddMember(db, teamId, actor, data);
    if r.outcome.Ok? {
      var m := r.outcome.value;
      forall i, j | i in r.db.members && j in r.db.members
        && r.db.members[i].teamId == r.db.members[j].teamId && r.db.members[i].userId == r.db.members[j].userId
        ensures i == j
      {
        if i != m.id && j != m.id {
          assert db.members[i] == r.db.members[i] && db.members[j] == r.db.members[j];
        }
      }
    }
  }

  /** Memberships only ever name existing teams and users. */
  lemma AddMemberKeepsLinked(db: Db, teamId: int, actor: int, data: MembershipCreate)
    requires WellFormed(db) && Linked(db)
    ensures Linked(AddMember(db, teamId, actor, data).db)
  {
  }

  lemma RemoveMemberKeepsInvariants(db: Db, teamId: int, actor: int, user: int)
    requires WellFormed(db)
    ensures WellFormed(RemoveMember(db, teamId, actor, user).db)
    ensures Linked(db) ==> Linked(RemoveMember(db, teamId, actor, user).db)
  {
  }

  lemma UpdateMemberRoleKeepsInvariants(db: Db, teamId: int, actor: int, user: int, data: MembershipUpdate)
    requires WellFormed(db)
    ensures WellFormed(UpdateMemberRole(db, teamId, actor, user, data).db)
    ensures Linked(db) ==> Linked(UpdateMemberRole(db, teamId, actor, user, data).db)
  {
    var r := UpdateMemberRole(db, teamId, actor, user, data);
    if r.outcome.Ok? {
      var m := r.outcome.value;
      forall i, j | i in r.db.members && j in r.db.members
        && r.db.members[i].teamId == r.db.members[j].teamId && r.db.members[i].userId == r.db.members[j].userId
        ensures i == j
      {
        assert r.db.members[i].teamId == db.members[i].teamId && r.db.members[i].userId == db.members[i].userId;
        assert r.db.members[j].teamId == db.members[j].teamId && r.db.members[j].userId == db.members[j].userId;
      }
    }
  }

  /** No safeguard keeps a moderator in the team: the only moderator may
      remove themself, and afterwards nobody can pass the gate. */
  lemma SoleModeratorMayLeave(db: Db, teamId: int, actor: int)
    requires WellFormed(db)
    requires IsModerator(db, teamId, actor)
    requires forall id :: id in db.members && db.members[id].teamId == teamId && db.members[id].isModerator
               ==> db.members[id].userId == actor
    ensures RemoveMember(db, teamId, actor, actor).outcome.Ok?
    ensures forall u :: !IsModerator(RemoveMember(db, teamId, actor, actor).db, teamId, u)
  {
  }
}
