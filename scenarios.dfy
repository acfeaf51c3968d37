/** Properties that span more than one service: what the reads of one
    service show after a write of another, and a walk through the store
    object from empty. */
module Scenarios {
  import opened Passwords
  import opened Records
  import opened Tables
  import MemberRules
  import TeamRules
  import UserRules
  import TaskRules
  import Service

  /** After a successful add_member the new member lists the team among their
      teams, may read its roster, and is a moderator exactly when asked to be. */
  lemma AddedMemberSeesTeam(db: Db, teamId: int, actor: int, data: MembershipCreate)
    requires WellFormed(db)
    requires MemberRules.AddMember(db, teamId, actor, data).outcome.Ok?
    ensures var db' := MemberRules.AddMember(db, teamId, actor, data).db;
            WellFormed(db')
            && teamId in TeamRules.GetUserTeams(db', data.userId)
            && MemberRules.GetTeamMembers(db', teamId, data.userId).Ok?
            && (IsModerator(db', teamId, data.userId) <==> IsModeratorRequested(data))
  {
    MemberRules.AddMemberKeepsWellFormed(db, teamId, actor, data);
    var r := MemberRules.AddMember(db, teamId, actor, data);
    var m := r.outcome.value;
    assert r.db.members[m.id] == m;
    assert IsMember(r.db, teamId, data.userId);
    if IsModerator(r.db, teamId, data.userId) {
      var id :| id in r.db.members && r.db.members[id].teamId == teamId && r.db.members[id].userId == data.userId
                && r.db.members[id].isModerator;
      assert id == m.id;
    }
  }

  /** After a successful remove_member the user no longer lists the team and
      is refused its roster. */
  lemma RemovedMemberLosesTeam(db: Db, teamId: int, actor: int, user: int)
    requires WellFormed(db)
    requires MemberRules.RemoveMember(db, teamId, actor, user).outcome.Ok?
    ensures var db' := MemberRules.RemoveMember(db, teamId, actor, user).db;
            WellFormed(db')
            && teamId !in TeamRules.GetUserTeams(db', user)
            && MemberRules.GetTeamMembers(db', teamId, user) == Forbidden(MemberRules.NOT_A_MEMBER)
  {
    MemberRules.RemoveMemberKeepsInvariants(db, teamId, actor, user);
  }

  /** A team's creator can go on to add any other existing user to it. */
  lemma CreatorCanInvite(db: Db, data: TeamCreate, creator: int, user: int)
    requires WellFormed(db)
    requires TeamRules.CreateTeam(db, data, creator).outcome.Ok?
    requires user in db.users && user != creator
    ensures var r := TeamRules.CreateTeam(db, data, creator);
            WellFormed(r.db)
            && MemberRules.AddMember(r.db, r.outcome.value.id, creator, MembershipCreate(user, 0, Unset)).outcome.Ok?
  {
    TeamRules.CreateTeamKeepsWellFormed(db, data, creator);
    TeamRules.CreatorModeratesNewTeam(db, data, creator);
    TeamRules.CreatorIsSoleModerator(db, data, creator);
  }

  /** After delete_team no read finds the team or anything tied to it, and
      none of its former tasks is lost. */
  lemma DeletedTeamDisappears(db: Db, teamId: int, user: int)
    requires WellFormed(db) && teamId in db.teams
    ensures var db' := TeamRules.DeleteTeam(db, teamId).db;
            TeamRules.GetTeamById(db', teamId) == NotFound(TeamRules.TEAM_NOT_FOUND)
            && TeamRules.GetTeamMembers(db', teamId) == NotFound(TeamRules.TEAM_NOT_FOUND)
            && TaskRules.TasksByTeam(db', teamId) == map[]
            && teamId !in TeamRules.GetUserTeams(db', user)
            && TaskRules.GetAllTasks(db').Keys == TaskRules.GetAllTasks(db).Keys
  {
    var db' := TeamRules.DeleteTeam(db, teamId).db;
    assert TaskRules.TasksByTeam(db', teamId).Keys == {};
  }

  /** After delete_user the user owns no task, is in no team, and the username
      and email are free for a new registration. */
  lemma DeletedUserDisappears(db: Db, userId: int, password: seq<bv8>)
    requires WellFormed(db) && userId in db.users
    ensures var u := db.users[userId];
            var db' := UserRules.DeleteUser(db, userId).db;
            WellFormed(db')
            && UserRules.GetUserById(db', userId) == NotFound(UserRules.USER_NOT_FOUND)
            && TaskRules.TasksByOwner(db', userId) == map[]
            && TeamRules.GetUserTeams(db', userId) == map[]
            && UserRules.CreateUser(db', UserCreate(u.username, u.email, password)).outcome.Ok?
  {
    UserRules.DeleteUserKeepsInvariants(db, userId);
    var u := db.users[userId];
    var db' := UserRules.DeleteUser(db, userId).db;
    assert TaskRules.TasksByOwner(db', userId).Keys == {};
    assert TeamRules.GetUserTeams(db', userId).Keys == {};
  }

  // ---- a walk from the empty store ----

  const ALICE := User(1, "alice", "alice@example.com", SetPassword([1]), None)
  const BOB := User(2, "bob", "bob@example.com", SetPassword([2]), None)
  const CAROL := User(3, "carol", "carol@example.com", SetPassword([3]), None)
  const ENG := Team(1, "Eng")

  function AfterAlice(): (db: Db) { Db(map[1 := ALICE], map[], map[], map[], 2, 1, 1, 1) }
  function AfterBob(): (db: Db) { Db(map[1 := ALICE, 2 := BOB], map[], map[], map[], 3, 1, 1, 1) }
  function AfterCarol(): (db: Db) { Db(map[1 := ALICE, 2 := BOB, 3 := CAROL], map[], map[], map[], 4, 1, 1, 1) }
  function AfterEng(): (db: Db)
  {
    AfterCarol().(teams := map[1 := ENG], nextTeamId := 2,
                  members := map[1 := Membership(1, 1, 1, true)], nextMemberId := 2)
  }
  function AfterInvite(): (db: Db)
  {
    AfterEng().(members := AfterEng().members[2 := Membership(2, 1, 2, false)], nextMemberId := 3)
  }

  lemma RegisterAlice()
    ensures UserRules.CreateUser(Empty(), UserCreate("alice", "alice@example.com", [1])) == Reply(Ok(ALICE), AfterAlice())
  {
  }

  lemma RegisterBob()
    ensures WellFormed(AfterAlice())
    ensures UserRules.CreateUser(AfterAlice(), UserCreate("bob", "bob@example.com", [2])) == Reply(Ok(BOB), AfterBob())
  {
  }

  lemma RegisterCarol()
    ensures WellFormed(AfterBob())
    ensures UserRules.CreateUser(AfterBob(), UserCreate("carol", "carol@example.com", [3])) == Reply(Ok(CAROL), AfterCarol())
  {
  }

  lemma AliceCreatesEng()
    ensures WellFormed(AfterCarol())
    ensures TeamRules.CreateTeam(AfterCarol(), TeamCreate("Eng"), 1) == Reply(Ok(ENG), AfterEng())
  {
  }

  lemma AliceInvitesBob()
    ensures WellFormed(AfterEng())
    ensures MemberRules.AddMember(AfterEng(), 1, 1, MembershipCreate(2, 1, Given(false))) ==
              Reply(Ok(Membership(2, 1, 2, false)), AfterInvite())
  {
    var db := AfterEng();
    assert db.members[1].userId == 1 && db.members[1].isModerator;
    assert IsModerator(db, 1, 1);
    ModeratorGateIsModerator(db, 1, 1);
    assert !IsMember(db, 1, 2);
  }

  lemma BobCannotInviteCarol()
    ensures WellFormed(AfterInvite())
    ensures MemberRules.AddMember(AfterInvite(), 1, 2, MembershipCreate(3, 1, Unset)) ==
              Reply(Forbidden(MemberRules.ONLY_MODERATORS_ADD), AfterInvite())
  {
    ModeratorGateIsModerator(AfterInvite(), 1, 2);
  }

  /** From an empty store: alice creates team "Eng", adds bob as a plain
      member, and then bob's attempt to add carol is refused. */
  method PlainMemberCannotInvite() returns (added: Outcome<Membership>, refused: Outcome<Membership>)
    ensures added == Ok(Membership(2, 1, 2, false))
    ensures refused == Forbidden(MemberRules.ONLY_MODERATORS_ADD)
  {
    var store := new Service.Store();
    RegisterAlice();
    var alice := store.CreateUser(UserCreate("alice", "alice@example.com", [1]));
    RegisterBob();
    var bob := store.CreateUser(UserCreate("bob", "bob@example.com", [2]));
    RegisterCarol();
    var carol := store.CreateUser(UserCreate("carol", "carol@example.com", [3]));
    AliceCreatesEng();
    var eng := store.CreateTeam(TeamCreate("Eng"), alice.value.id);
    AliceInvitesBob();
    added := store.AddMember(eng.value.id, alice.value.id, MembershipCreate(bob.value.id, eng.value.id, Given(false)));
    BobCannotInviteCarol();
    refused := store.AddMember(eng.value.id, bob.value.id, MembershipCreate(carol.value.id, eng.value.id, Unset));
  }
}
