/** The four persisted record kinds (app/models) and the request payloads the
    services receive (app/schemas), with the defaults the schemas fill in. */
module Records {
  import opened Passwords

  datatype Option<T> = None | Some(value: T)

  /** One key of a partial-update payload after `model_dump(exclude_unset=True)`:
      either the client left the key out, or sent it, possibly with a null value. */
  datatype Field<T> = Unset | Given(value: T)

  /** What a service call ends with. Each failure is the HTTPException the
      service raises: BadRequest is status 400, Forbidden 403, NotFound 404;
      `detail` is the message it carries. */
  datatype Outcome<T> =
    | Ok(value: T)
    | BadRequest(detail: string)
    | Forbidden(detail: string)
    | NotFound(detail: string)

  /** A date-time value supplied by the client; its structure plays no part
      in the rules, so it is kept opaque. */
  type DateTime = int

  datatype User = User(
    id: int,
    username: string,
    email: string,
    passwordHash: PasswordHash,
    fullName: Option<string>)

  datatype Team = Team(id: int, name: string)

  datatype Membership = Membership(id: int, teamId: int, userId: int, isModerator: bool)

  /** `ownerId` is not nullable in the table; `teamId` is. */
  datatype Task = Task(
    id: int,
    title: string,
    description: Option<string>,
    status: string,
    dueDate: Option<DateTime>,
    ownerId: int,
    teamId: Option<int>)

  datatype UserCreate = UserCreate(username: string, email: string, password: seq<bv8>)

  datatype UserUpdate = UserUpdate(
    username: Field<Option<string>>,
    email: Field<Option<string>>,
    password: Field<Option<seq<bv8>>>)

  datatype TeamCreate = TeamCreate(name: string)

  datatype TeamUpdate = TeamUpdate(name: Field<Option<string>>)

  /** `isModerator` may be omitted by the client; see IsModeratorRequested. */
  datatype MembershipCreate = MembershipCreate(userId: int, teamId: int, isModerator: Field<bool>)

  /** An omitted and a null `is_moderator` are the same to the service. */
  datatype MembershipUpdate = MembershipUpdate(isModerator: Option<bool>)

  /** `status` may be omitted by the client; see StatusRequested. The other
      optional keys default to null. */
  datatype TaskCreate = TaskCreate(
    title: string,
    description: Option<string>,
    status: Field<string>,
    dueDate: Option<DateTime>,
    ownerId: int,
    teamId: Option<int>)

  datatype TaskUpdate = TaskUpdate(
    title: Field<Option<string>>,
    description: Field<Option<string>>,
    status: Field<Option<string>>,
    dueDate: Field<Option<DateTime>>,
    ownerId: Field<Option<int>>,
    teamId: Field<Option<int>>)

  const DEFAULT_STATUS := "pending"

  /** The status a new task gets: the one sent, else "pending". */
  function StatusRequested(data: TaskCreate): (s: string)
    ensures data.status.Unset? ==> s == "pending"
    ensures data.status.Given? ==> s == data.status.value
  {
    match data.status
    case Unset => DEFAULT_STATUS
    case Given(s) => s
  }

  /** The moderator flag a new membership gets: the one sent, else false. */
  function IsModeratorRequested(data: MembershipCreate): (b: bool)
    ensures b <==> data.isModerator == Given(true)
  {
    match data.isModerator
    case Unset => false
    case Given(b) => b
  }

  /** Python truthiness of an optional string-like field: sent, not null and not empty. */
  predicate Truthy<T>(f: Field<Option<seq<T>>>)
  {
    f.Given? && f.value.Some? && |f.value.value| > 0
  }

  /** The value of a truthy field. */
  function TruthyValue<T>(f: Field<Option<seq<T>>>): (v: seq<T>)
    requires Truthy(f)
    ensures f == Given(Some(v)) && v != []
  {
    f.value.value
  }
}
