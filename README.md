# team_dashboard service rules in Dafny

This project models the business rules of the four service modules of the
team_dashboard backend: users, teams, team memberships and tasks. The model
runs over one abstract store and covers:

- who may change a team's membership (moderators only);
- uniqueness of usernames, emails, team names and (team, user) memberships;
- the rule that the creator of a team becomes its moderator;
- the cascade and detach rules when a team or user is deleted;
- the owner/team check in task update.

The persistence layer behind the services is a store of four tables, each
keyed by row id, plus each table's next auto-increment id.

Layout, one module per file:

- `passwords.dfy` (`Passwords`): `set_password` and `verify_password` of the User record. The hash is symbolic.
- `records.dfy` (`Records`): the record kinds of `app/models` and the request payloads of `app/schemas`.
  - `Field<T>` (`Unset | Given(v)`) is one key of `model_dump(exclude_unset=True)`.
  - `Outcome<T>` is the result: `Ok`, or `BadRequest` (400), `Forbidden` (403) or `NotFound` (404).
  - Each failure carries the service's exact detail string, so the order in which the checks run can be observed.
- `tables.dfy` (`Tables`): the store as a value `Db`.
  - `WellFormed` is the store invariant: every row sits under its own id, below the table's next id, and usernames, emails, team names and (team, user) memberships are unique.
  - `Linked` is referential integrity.
  - The module also holds the filter queries the services share, including `.first()` on the (team, user) membership and the moderator gate.
- `member_rules.dfy`, `team_rules.dfy`, `user_rules.dfy`, `task_rules.dfy`: one module per service file.
  - Every mutating service function is a function from the store before the call to `Reply(outcome, store after)`.
  - Every read is a function over the tables.
  - Lemmas relate the calls and prove that each mutation keeps `WellFormed` and, where the source guarantees it, `Linked`.
  - The `setattr` loop of `update_task` is the method `TaskRules.ApplyUpdate`. It is proved equal to the closed form `Patched`.
- `store.dfy` (`Service`): the class `Store`, whose fields are the four tables and the four id counters.
  - Each mutating service function is a method that changes the store in place, check by check, in the source's order.
  - Each method keeps `Valid()` and is proved equal to its rule function: `Reply(r, State()) == Rule(old(State()), ...)`.
- `scenarios.dfy` (`Scenarios`): properties spanning several services, plus a walk from the empty store through the `Store` object.

The actor of each call (the user who adds a member, creates a team, and so
on) is a plain parameter. On every recognised failure the store is unchanged.

On the owner/team exclusivity of tasks, the model follows the code:

- The route docstring (app/routers/task_routes.py:14) says a task has an owner or a team, not both. `create_task` does not enforce this: it stores both when both are sent (`TaskRules.CreateTaskKeepsOwnerAndTeam`).
- `update_task` checks the values sent, nulls included, but its write loop skips nulls. So `{owner_id: null, team_id: T}` passes the check and leaves both owner and team set (`TaskRules.UpdateTaskCanLeaveOwnerAndTeam`).
- When neither `owner_id` nor `team_id` is sent, `update_task` checks nothing.

A duplicate username, email or team name is answered with 400 Bad Request. A missing owner or team in `create_task`, and a missing creator in `create_team`, are also 400, not 404.

## Model

| member | source | states |
|---|---|---|
| Passwords.Truncated | app/models/user_model.py:44-45 | The bytes kept are the first 72 of the password: a prefix, of length min(length, 72). |
| Passwords.SetPassword | app/models/user_model.py:42-46 | The stored digest covers at most 72 bytes, and exactly the password when it is no longer than 72 bytes. |
| Passwords.VerifyPassword | app/models/user_model.py:49-51 | As written: verification succeeds iff the digest was made from the whole, untruncated password. |
| Passwords.LongPasswordNeverVerifies | app/models/user_model.py:42-51 | Every password longer than 72 bytes fails verification against the hash `set_password` made of it. |
| Passwords.SeventyThreeBytesNeverVerify | app/models/user_model.py:44-51 | A concrete failing input: 73 zero bytes. |
| Passwords.VerifyTruncatedPassword | app/models/user_model.py:49-51 | Corrected check: succeeds iff the digest was made from the candidate's first 72 bytes. |
| Passwords.SetThenVerifyTruncated | app/models/user_model.py:42-51 | With the corrected check, every password verifies against its own hash; another password verifies iff its first 72 bytes agree. |
| Records.StatusRequested | app/schemas/task_schema.py:9 | A new task's status is the one sent, or "pending" when the key is omitted. |
| Records.IsModeratorRequested | app/schemas/team_member_schema.py:9 | A new membership is a moderator one iff `is_moderator: true` was sent; the default is false. |
| Records.TruthyValue | app/services/user_service.py:134 | A truthy field was sent, is not null and is non-empty. |
| Tables.MembershipRow | app/services/team_member_service.py:35-39 | The (team, user) lookup finds nothing iff the user is not a member of the team. Otherwise it finds the one row linking them, and no other row does. |
| Tables.ModeratorGateIsModerator | app/services/team_member_service.py:35-44 | The gate "row found and flag set" lets an actor through iff some (team, actor) row has the moderator flag. |
| Tables.Roster | app/services/team_member_service.py:230 | Exactly the memberships of the team, unchanged. |
| MemberRules.AddMember | app/services/team_member_service.py:27-80 | Checks run in this order, and each failure leaves the store unchanged: missing team is 404; an actor who is not a moderator is 403, even when the target user is missing; missing user is 404; an existing member is 400. The call succeeds iff all four pass. On success it adds one fresh row (new user, path team, requested flag) and changes nothing else. |
| MemberRules.RemoveMember | app/services/team_member_service.py:111-137 | A non-moderator actor gets 403, then a missing (team, user) row gets 404. Success iff both pass. On success exactly that row is deleted and all others are untouched; the team itself is never looked up. |
| MemberRules.UpdateMemberRole | app/services/team_member_service.py:169-199 | The same gate, then 404 for a missing row. On success only that row's flag is set, to the sent value. A null flag leaves the store as it was. |
| MemberRules.GetTeamMembers | app/services/team_member_service.py:218-230 | Forbidden iff the requester is not a member (for a missing team too). Otherwise every membership of the team. |
| MemberRules.GetMemberById | app/services/team_member_service.py:255-261 | The row with that id, or 404 "Team member not found". |
| MemberRules.GetAllMembers | app/services/team_member_service.py:275 | Every membership row, unchanged, with every team's roster included. |
| MemberRules.OpenReadsExposeGatedRoster | app/services/team_member_service.py:218-275 | A non-member is refused the roster, yet every row of that roster is readable through get_member_by_id and get_all_members. |
| MemberRules.AddMemberIgnoresPayloadTeam | app/services/team_member_service.py:70-74 | The result does not depend on the team id inside the payload. |
| MemberRules.AddMemberKeepsWellFormed | app/services/team_member_service.py:55-78 | add_member keeps at most one membership per (team, user), and the rest of the invariant. |
| MemberRules.AddMemberKeepsLinked | app/services/team_member_service.py:27-52 | New memberships name only an existing team and user. |
| MemberRules.RemoveMemberKeepsInvariants | app/services/team_member_service.py:123-137 | remove_member keeps the invariant and referential integrity. |
| MemberRules.UpdateMemberRoleKeepsInvariants | app/services/team_member_service.py:181-194 | A role change keeps the invariant and referential integrity. |
| MemberRules.SoleModeratorMayLeave | app/services/team_member_service.py:111-137 | The only moderator may remove themself; afterwards nobody passes the team's gate. |
| TeamRules.CreateTeam | app/services/team_service.py:25-56 | A missing creator is 400, checked before the name; a taken name is 400; the store is unchanged on both. Success iff both pass. On success one team is added under a fresh id, with exactly one new membership (creator, new team, moderator); users and tasks are unchanged. |
| TeamRules.GetAllTeams | app/services/team_service.py:83 | Every team row, unchanged. |
| TeamRules.GetTeamById | app/services/team_service.py:105-111 | The team, or 404 "Team not found". |
| TeamRules.UpdateTeam | app/services/team_service.py:131-152 | An unknown id is 404. A name that is sent and non-empty replaces the old one, unless a different team holds it (400). Otherwise the team is unchanged. Only that team's row is written. |
| TeamRules.DetachTeam | app/services/team_service.py:199 | Every task is kept; the team's tasks lose their team and all others are unchanged. |
| TeamRules.DeleteTeam | app/services/team_service.py:187-203 | An unknown id is 404. On success the team and exactly its memberships are removed. Its tasks are kept with team cleared. Other memberships, tasks and users are unchanged. |
| TeamRules.GetTeamMembers | app/services/team_service.py:225-234 | 404 iff the team is missing, otherwise all its memberships; there is no authorisation. |
| TeamRules.GetUserTeams | app/services/team_service.py:257 | Exactly the teams having a membership of the user. |
| TeamRules.CreatorIsSoleModerator | app/services/team_service.py:42-56 | Right after create_team, the roster of the team is exactly one row: the creator, as moderator. |
| TeamRules.CreatorModeratesNewTeam | app/services/team_service.py:48-55 | The creator moderates the new team and lists it among their teams. |
| TeamRules.DuplicateTeamNameRefused | app/services/team_service.py:34-39 | A second team under a name just created is refused with 400. |
| TeamRules.CreateTeamKeepsWellFormed | app/services/team_service.py:34-56 | create_team keeps the store invariant: ids stay below their counters, usernames, emails and team names stay unique, and no (team, user) pair gets a second membership. |
| TeamRules.CreateTeamKeepsLinked | app/services/team_service.py:25-56 | The new membership names an existing creator and the new team. |
| TeamRules.UpdateTeamKeepsInvariants | app/services/team_service.py:141-152 | Team names stay unique across update_team. |
| TeamRules.RenameToOwnNameAllowed | app/services/team_service.py:143-146 | Renaming a team to its current name succeeds and changes nothing. |
| TeamRules.DeleteTeamKeepsInvariants | app/services/team_service.py:195-203 | delete_team keeps the invariant and referential integrity. |
| TeamRules.DeleteTeamLeavesNoTrace | app/services/team_service.py:195-203 | Afterwards the team has no roster, no user lists it, no task names it, and the number of tasks is unchanged. |
| UserRules.CreateUser | app/services/user_service.py:23-52 | A taken username is 400, checked before a taken email (400); the store is unchanged on both. Success iff both are free. On success one user is added under a fresh id, with the given username and email, the `set_password` hash and no full name; nothing else changes. |
| UserRules.GetAllUsers | app/services/user_service.py:76 | Every user row, unchanged. |
| UserRules.GetUserById | app/services/user_service.py:98-104 | The user, or 404 "User not found". |
| UserRules.UpdateUser | app/services/user_service.py:124-167 | An unknown id is 404. A username or email held by another user is 400, the username first. Success iff neither conflicts; nothing is changed on failure. On success username, email and password change only when sent truthy, and only that row is written. |
| UserRules.DeleteUser | app/services/user_service.py:195-205 | An unknown id is 404. On success the user, exactly their memberships and exactly the tasks they own are removed; all other rows and the teams are unchanged. |
| UserRules.GetUserByEmail | app/services/user_service.py:229 | Some user with that email iff one exists, otherwise None; this is not an error. |
| UserRules.GetUserByUsername | app/services/user_service.py:243 | Some user with that username iff one exists, otherwise None. |
| UserRules.LookupsAreExact | app/services/user_service.py:218-243 | Looking up a user's email or username finds that very user. |
| UserRules.CreateUserKeepsInvariants | app/services/user_service.py:23-52 | Usernames and emails stay unique, and so does the invariant. |
| UserRules.SecondRegistrationRefused | app/services/user_service.py:23-36 | Re-registering a username or an email just registered is refused, and the store is unchanged. |
| UserRules.UpdateUserKeepsInvariants | app/services/user_service.py:134-161 | update_user keeps usernames and emails unique. |
| UserRules.DeleteUserKeepsInvariants | app/services/user_service.py:195-205 | delete_user keeps the invariant and referential integrity. |
| UserRules.DeleteUserLeavesNoTrace | app/models/user_model.py:26-37 | Afterwards the user is in no team and owns no task. |
| TaskRules.CreateTask | app/services/task_service.py:16-46 | A missing owner is 400, checked first; a named but missing team is 400; a null team skips the check. Success iff both pass. On success one task is added under a fresh id carrying every field sent (both owner and team when both are given) and the default status; nothing else changes. |
| TaskRules.GetAllTasks | app/services/task_service.py:70 | Every task row, unchanged. |
| TaskRules.GetTaskById | app/services/task_service.py:92-98 | The task, or 404 "Task not found". |
| TaskRules.OwnershipRefusal | app/services/task_service.py:129-143 | The check runs only when owner_id or team_id is sent. It takes each value sent (null included), else the current one. It refuses iff both are null or both are non-null. Both null gives "Task must have either an owner or a team"; both non-null gives "Task cannot have both owner and team". |
| TaskRules.RunSnoc | app/services/task_service.py:146-148 | Running the write loop one pair further is one more loop step. |
| TaskRules.RunItemsIsPatched | app/services/task_service.py:126-148 | The write loop over the sent keys, in schema order, equals the reference definition: each key sent with a non-null value is written, everything else keeps its value. |
| TaskRules.ApplyUpdate | app/services/task_service.py:146-148 | The setattr loop yields exactly the reference patch of the task. |
| TaskRules.UpdateTask | app/services/task_service.py:118-154 | An unknown id is 404. A refused ownership check is 400 with its detail. With neither key sent it always succeeds. On success the task becomes its patch, only that row is written, and nothing changes on failure. |
| TaskRules.DeleteTask | app/services/task_service.py:182-192 | 404 for an unknown id, else exactly that task is removed. |
| TaskRules.TasksByOwner | app/services/task_service.py:217 | Exactly the tasks with that owner. |
| TaskRules.TasksByTeam | app/services/task_service.py:237 | Exactly the tasks with that team. |
| TaskRules.TasksByStatus | app/services/task_service.py:257 | Exactly the tasks with that status. |
| TaskRules.CreateTaskKeepsOwnerAndTeam | app/services/task_service.py:33-40 | With an existing owner and team, the new task keeps both; exclusivity is not enforced. |
| TaskRules.CreateTaskDefaultsToPending | app/schemas/task_schema.py:9 | A task created without a status is "pending". |
| TaskRules.UpdateTaskCanLeaveOwnerAndTeam | app/services/task_service.py:129-148 | `{owner_id: null, team_id: T}` on a team-less task passes the check, yet leaves the owner in place and sets the team: the task ends with both. |
| TaskRules.UpdateTaskRefusesTeamBesideOwner | app/services/task_service.py:138-143 | Sending a team while the owner is kept or replaced by a non-null value is refused with "cannot have both", and the store is unchanged. |
| TaskRules.TeamedTaskOwnerResent | app/services/task_service.py:129-143 | For a task that already has a team, sending a non-null owner without team_id is refused with "cannot have both", and the store is unchanged. |
| TaskRules.UpdateTaskNeverClears | app/services/task_service.py:146-148 | A successful update never clears a description, due date or team. |
| TaskRules.CreateTaskKeepsInvariants | app/services/task_service.py:16-46 | create_task keeps the invariant and referential integrity. |
| TaskRules.UpdateTaskKeepsWellFormed | app/services/task_service.py:118-154 | update_task keeps the invariant. |
| TaskRules.UpdateTaskKeepsLinkedWhenTargetsExist | app/services/task_service.py:129-148 | Referential integrity survives update_task when the owner and team ids it writes exist. |
| TaskRules.UpdateTaskCanDangle | app/services/task_service.py:129-148 | A concrete store in which update_task writes an owner id that names no user. |
| TaskRules.DeleteTaskKeepsInvariants | app/services/task_service.py:182-192 | delete_task keeps the invariant and referential integrity. |
| TaskRules.CreateTaskListedUnderOwner | app/services/task_service.py:33-46 | The new task appears among its owner's tasks, and nothing else is added there. |
| TaskRules.DeleteTaskUnlists | app/services/task_service.py:182-257 | A deleted task leaves exactly that task out of the by-owner, by-team and by-status listings. |
| Service.Store.FindMembership | app/services/team_member_service.py:35-39 | The imperative `.first()` on (team, user) finds exactly the row of the rule model. |
| Service.Store.AddMember | app/services/team_member_service.py:27-80 | Runs add_member on the store in place: outcome and new state are those of `MemberRules.AddMember`, and the invariant is kept. |
| Service.Store.RemoveMember | app/services/team_member_service.py:111-137 | In place, equal to `MemberRules.RemoveMember`; keeps the invariant. |
| Service.Store.UpdateMemberRole | app/services/team_member_service.py:169-199 | In place, equal to `MemberRules.UpdateMemberRole`; keeps the invariant. |
| Service.Store.CreateTeam | app/services/team_service.py:25-56 | The two inserts in sequence, equal to `TeamRules.CreateTeam`; keeps the invariant. |
| Service.Store.UpdateTeam | app/services/team_service.py:131-152 | In place, equal to `TeamRules.UpdateTeam`; keeps the invariant. |
| Service.Store.DeleteTeam | app/services/team_service.py:187-203 | The bulk delete, bulk update and delete, equal to `TeamRules.DeleteTeam`; keeps the invariant. |
| Service.Store.CreateUser | app/services/user_service.py:23-52 | In place, equal to `UserRules.CreateUser`; keeps the invariant. |
| Service.Store.UpdateUser | app/services/user_service.py:124-167 | Edits a session copy field by field and commits it only at the end; equal to `UserRules.UpdateUser`; keeps the invariant. |
| Service.Store.DeleteUser | app/services/user_service.py:195-205 | Delete with the model's cascade, equal to `UserRules.DeleteUser`; keeps the invariant. |
| Service.Store.CreateTask | app/services/task_service.py:16-46 | In place, equal to `TaskRules.CreateTask`; keeps the invariant. |
| Service.Store.UpdateTask | app/services/task_service.py:118-154 | Check, then the setattr loop, then the write; equal to `TaskRules.UpdateTask`; keeps the invariant. |
| Service.Store.DeleteTask | app/services/task_service.py:182-192 | In place, equal to `TaskRules.DeleteTask`; keeps the invariant. |
| Scenarios.AddedMemberSeesTeam | app/services/team_member_service.py:70-80 | After add_member the new member lists the team and may read its roster; they are a moderator iff that was requested. |
| Scenarios.RemovedMemberLosesTeam | app/services/team_member_service.py:134-137 | After remove_member the user no longer lists the team and is refused its roster. |
| Scenarios.CreatorCanInvite | app/services/team_service.py:48-55 | The creator of a new team can add any other existing user to it. |
| Scenarios.DeletedTeamDisappears | app/services/team_service.py:195-203 | After delete_team no read finds the team, its roster, its tasks or its user listings; no task is lost. |
| Scenarios.DeletedUserDisappears | app/services/user_service.py:195-205 | After delete_user the user is 404, owns no task, is in no team, and their username and email can be registered again. |
| Scenarios.PlainMemberCannotInvite | app/services/team_member_service.py:35-44 | From an empty store: alice creates "Eng" and adds bob as a plain member; bob's attempt to add carol is 403. |

## Left out

- HTTP routers, request parsing and the "current user" placeholder: the actor is a plain parameter of each call.
- Application wiring, session lifecycle and configuration (`app/main.py`, `app/core/*`).
- Password hashing itself: the salted argon2 digest is a symbolic value that records which bytes were hashed, and a password is its UTF-8 bytes. Salting, the cost of hashing, and how a string maps to bytes are not modelled.
- Database failures: every generic `except Exception` branch, its rollback and its 500 response.
- create_team's two commits: the model applies the team insert and the creator's membership together. The state after a failure between the commits is not modelled.
- A referential failure at commit: a foreign key that the database would reject (the dangling ids update_task may write, see `TaskRules.UpdateTaskCanDangle`) is written as is. Its 500 path is not modelled.
- Timestamps (`created_at`, `updated_at`, `joined_at`), which come from the clock or a server default.
- Pydantic validation (EmailStr, string lengths, type coercion) and response serialisation.
- The declared delete-orphan cascade on a team's tasks: delete_team clears `team_id` before deleting the team, so the model keeps those tasks, as the service does.
- List order: reads return id-keyed maps, so the order of rows the database returns is not modelled.
- Id reuse: ids come from counters that only grow, so an id freed by a delete is never issued again.
- The `TeamResponse` (app/schemas/team_schema.py:22) and `UserResponse` (app/schemas/user_schema.py:26) response shapes and any field that no service rule reads (for example `full_name`, which create_user leaves unset and update_user never changes).
- Concurrency: the model runs one call at a time. Only add_member's own lookup (app/services/team_member_service.py:55-67) keeps a (team, user) pair from getting two memberships; the team_members table declares no unique constraint on the pair (app/models/team_member_model.py:10-14), unlike usernames, emails (app/models/user_model.py:20-21) and team names (app/models/team_model.py:11). So two overlapping add_member calls for the same pair could both insert. The membership uniqueness in `WellFormed` and the single row that `Tables.MembershipRow` picks for `.first()` both rely on calls not overlapping.
- `Service.Store` methods: rows are held as immutable values, so the ORM's identity map and aliasing of loaded objects are not modelled. An update builds the new row and writes it back under its id.

## Findings

| source | as written | input that shows it | evidently intended | confidence | as-written member | corrected member |
|---|---|---|---|---|---|---|
| app/models/user_model.py:42-51 | `set_password` hashes only the first 72 UTF-8 bytes, but `verify_password` hashes the whole password | any password of 73 or more bytes, for example 73 zero bytes: it never verifies against its own hash | both sides truncate the same way, so every password verifies against its own hash | not executed | Passwords.LongPasswordNeverVerifies | Passwords.SetThenVerifyTruncated |
