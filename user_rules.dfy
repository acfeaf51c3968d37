/** The user rules of app/services/user_service.py, including the cascade the
    User model declares on its memberships and tasks. */
module UserRules {
  import opened Passwords
  import opened Records
  import opened Tables

  const USERNAME_REGISTERED := "Username already registered"
  const EMAIL_REGISTERED := "Email already registered"
  const USER_NOT_FOUND := "User not found"
  const USERNAME_TAKEN := "Username already taken"

  /** create_user: username and email must both be free. */
  ghost function CreateUser(db: Db, data: UserCreate): (r: Reply<User>)
    requires WellFormed(db)
    // the username is checked before the email
    ensures UsernameTaken(db, data.username) ==> r == Reply(BadRequest(USERNAME_REGISTERED), db)
    ensures !UsernameTaken(db, data.username) && EmailTaken(db, data.email) ==>
              r == Reply(BadRequest(EMAIL_REGISTERED), db)
    ensures r.outcome.Ok? <==> !UsernameTaken(db, data.username) && !EmailTaken(db, data.email)
    ensures r.outcome.Ok? ==>
              var u := r.outcome.value;
              u.id !in db.users
              && u.username == data.username && u.email == data.email
              && u.passwordHash == SetPassword(data.password) && u.fullName == None
              && r.db.users.Keys == db.users.Keys + {u.id} && r.db.users[u.id] == u
              && (forall id :: id in db.users ==> r.db.users[id] == db.users[id])
              && r.db.teams == db.teams && r.db.members == db.members && r.db.tasks == db.tasks
  {
    if UsernameTaken(db, data.username) then
      Reply(BadRequest(USERNAME_REGISTERED), db)
    else if EmailTaken(db, data.email) then
      Reply(BadRequest(EMAIL_REGISTERED), db)
    else
      var u := User(db.nextUserId, data.username, data.email, SetPassword(data.password), None);
      Reply(Ok(u), db.(users := db.users[u.id := u], nextUserId := db.nextUserId + 1))
  }

  function GetAllUsers(db: Db): (r: map<int, User>)
    ensures forall id :: id in r <==> id in db.users
    ensures forall id :: id in r ==> r[id] == db.users[id]
  {
    db.users
  }

  function GetUserById(db: Db, userId: int): (r: Outcome<User>)
    ensures r.Ok? <==> userId in db.users
    ensures r.Ok? ==> r.value == db.users[userId]
    ensures !r.Ok? ==> r == NotFound(USER_NOT_FOUND)
  {
    if userId in db.users then Ok(db.users[userId]) else NotFound(USER_NOT_FOUND)
  }

  /** update_user: each of username, email and password is applied only when
      sent non-empty; a username or email held by another user is refused,
      the username first. On a refusal nothing is committed. */
  ghost function UpdateUser(db: Db, userId: int, data: UserUpdate): (r: Reply<User>)
    requires WellFormed(db)
    ensures userId !in db.users ==> r == Reply(NotFound(USER_NOT_FOUND), db)
    ensures userId in db.users && Truthy(data.username)
            && UsernameTakenByOther(db, TruthyValue(data.username), userId) ==>
              r == Reply(BadRequest(USERNAME_TAKEN), db)
    ensures userId in db.users && !(Truthy(data.username) && UsernameTakenByOther(db, TruthyValue(data.username), userId))
            && Truthy(data.email) && EmailTakenByOther(db, TruthyValue(data.email), userId) ==>
              r == Reply(BadRequest(EMAIL_REGISTERED), db)
    ensures r.outcome.Ok? <==>
              userId in db.users
              && !(Truthy(data.username) && UsernameTakenByOther(db, TruthyValue(data.username), userId))
              && !(Truthy(data.email) && EmailTakenByOther(db, TruthyValue(data.email), userId))
    ensures !r.outcome.Ok? ==> r.db == db
    ensures r.outcome.Ok? ==>
              var u, was := r.outcome.value, db.users[userId];
              u.id == userId && u.fullName == was.fullName
              && (if Truthy(data.username) then u.username == TruthyValue(data.username) else u.username == was.username)
              && (if Truthy(data.email) then u.email == TruthyValue(data.email) else u.email == was.email)
              && (if Truthy(data.password) then u.passwordHash == SetPassword(TruthyValue(data.password))
                  else u.passwordHash == was.passwordHash)
              && r.db == db.(users := db.users[userId := u])
  {
    if userId !in db.users then
      Reply(NotFound(USER_NOT_FOUND), db)
    else
      var was := db.users[userId];
      if Truthy(data.username) && UsernameTakenByOther(db, TruthyValue(data.username), userId) then
        Reply(BadRequest(USERNAME_TAKEN), db)
      else
        var u1 := if Truthy(data.username) then was.(username := TruthyValue(data.username)) else was;
        if Truthy(data.email) && EmailTakenByOther(db, TruthyValue(data.email), userId) then
          Reply(BadRequest(EMAIL_REGISTERED), db)
        else
          var u2 := if Truthy(data.email) then u1.(email := TruthyValue(data.email)) else u1;
          var u3 := if Truthy(data.password) then u2.(passwordHash := SetPassword(TruthyValue(data.password))) else u2;
          Reply(Ok(u3), db.(users := db.users[userId := u3]))
  }

  /** delete_user: removes the user and, by the model's cascade, all of the
      user's memberships and all tasks the user owns. */
  ghost function DeleteUser(db: Db, userId: int): (r: Reply<bool>)
    requires WellFormed(db)
    ensures userId !in db.users ==> r == Reply(NotFound(USER_NOT_FOUND), db)
    ensures r.outcome.Ok? <==> userId in db.users
    ensures r.outcome.Ok? ==>
              r.outcome.value
              && r.db.users == db.users - {userId}
              && (forall id :: id in r.db.members <==> id in db.members && db.members[id].userId != userId)
              && (forall id :: id in r.db.tasks <==> id in db.tasks && db.tasks[id].ownerId != userId)
    ensures forall id :: id in r.db.members ==> r.db.members[id] == db.members[id]
    ensures forall id :: id in r.db.tasks ==> r.db.tasks[id] == db.tasks[id]
    ensures r.db.teams == db.teams
  {
    if userId !in db.users then
      Reply(NotFound(USER_NOT_FOUND), db)
    else
      Reply(Ok(true), db.(users := db.users - {userId},
                          members := map id | id in db.members && db.members[id].userId != userId :: db.members[id],
                          tasks := map id | id in db.tasks && db.tasks[id].ownerId != userId :: db.tasks[id]))
  }

  /** get_user_by_email: the user with that email, or None (not an error). */
  ghost function GetUserByEmail(db: Db, email: string): (r: Option<User>)
    requires WellFormed(db)
    ensures r.Some? <==> EmailTaken(db, email)
    ensures r.Some? ==> r.value.email == email && r.value.id in db.users && db.users[r.value.id] == r.value
  {
    if EmailTaken(db, email) then
      var id :| id in db.users && db.users[id].email == email;
      Some(db.users[id])
    else
      None
  }

  /** get_user_by_username: the user with that username, or None. */
  ghost function GetUserByUsername(db: Db, username: string): (r: Option<User>)
    requires WellFormed(db)
    ensures r.Some? <==> UsernameTaken(db, username)
    ensures r.Some? ==> r.value.username == username && r.value.id in db.users && db.users[r.value.id] == r.value
  {
    if UsernameTaken(db, username) then
      var id :| id in db.users && db.users[id].username == username;
      Some(db.users[id])
    else
      None
  }

  // ---- properties relating several calls ----

  /** The lookups by email and username find the one user holding the value. */
  lemma LookupsAreExact(db: Db, id: int)
    requires WellFormed(db) && id in db.users
    ensures GetUserByEmail(db, db.users[id].email) == Some(db.users[id])
    ensures GetUserByUsername(db, db.users[id].username) == Some(db.users[id])
  {
  }

  lemma CreateUserKeepsInvariants(db: Db, data: UserCreate)
    requires WellFormed(db)
    ensures WellFormed(CreateUser(db, data).db)
    ensures Linked(db) ==> Linked(CreateUser(db, data).db)
  {
  }

  /** A second create_user with a username or an email already registered is refused. */
  lemma SecondRegistrationRefused(db: Db, data: UserCreate, data2: UserCreate)
    requires WellFormed(db)
    requires CreateUser(db, data).outcome.Ok?
    requires data2.username == data.username || data2.email == data.email
    ensures var db1 := CreateUser(db, data).db;
            WellFormed(db1) && CreateUser(db1, data2).outcome.BadRequest?
            && CreateUser(db1, data2).db == db1
  {
    CreateUserKeepsInvariants(db, data);
    var u := CreateUser(db, data).outcome.value;
    var db1 := CreateUser(db, data).db;
    assert db1.users[u.id] == u;
  }

  /** Usernames and emails stay unique across update_user. */
  lemma UpdateUserKeepsInvariants(db: Db, userId: int, data: UserUpdate)
    requires WellFormed(db)
    ensures WellFormed(UpdateUser(db, userId, data).db)
    ensures Linked(db) ==> Linked(UpdateUser(db, userId, data).db)
  {
  }

  lemma DeleteUserKeepsInvariants(db: Db, userId: int)
    requires WellFormed(db)
    ensures WellFormed(DeleteUser(db, userId).db)
    ensures Linked(db) ==> Linked(DeleteUser(db, userId).db)
  {
  }

  /** After delete_user the user is in no team and owns no task. */
  lemma DeleteUserLeavesNoTrace(db: Db, userId: int)
    requires WellFormed(db) && userId in db.users
    ensures var db' := DeleteUser(db, userId).db;
            (forall t :: !IsMember(db', t, userId))
            && (forall id :: id in db'.tasks ==> db'.tasks[id].ownerId != userId)
  {
  }
}
