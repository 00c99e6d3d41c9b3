/** The shared record shapes: the `users` row and the insert validator
    (shared/schema.ts). */
module Schema {
  import opened Wrappers

  /** The three competition rounds whose access a user row records. */
  datatype Round = Round1 | Round2 | Round3

  /** A stored user. Access values are the status strings the in-memory
      store writes ("active", "locked", or whatever an admin sends). */
  datatype User = User(
    id: string,
    username: string,
    password: string,
    role: string,
    teamName: Option<string>,
    teamId: Option<string>,
    round1Access: string,
    round2Access: string,
    round3Access: string)

  /** The validated insert shape: it has no `id`, ids are assigned by the store.
      Optional columns are `None` when the client left them out. */
  datatype InsertUser = InsertUser(
    username: string,
    password: string,
    role: Option<string>,
    teamName: Option<string>,
    teamId: Option<string>,
    round1Access: Option<string>,
    round2Access: Option<string>,
    round3Access: Option<string>)

  /** A request body before validation: any field may be missing. */
  datatype UserBody = UserBody(
    username: Option<string>,
    password: Option<string>,
    role: Option<string>,
    teamName: Option<string>,
    teamId: Option<string>,
    round1Access: Option<string>,
    round2Access: Option<string>,
    round3Access: Option<string>)

  const DefaultRole := "participant"
  const AdminRole := "admin"
  const MinUsernameLength := 3
  const MinPasswordLength := 6

  const RequiredIssue := "Required"
  const UsernameTooShort := "Username must be at least 3 characters"
  const PasswordTooShort := "Password must be at least 6 characters"

  function Access(u: User, r: Round): string
  {
    match r
    case Round1 => u.round1Access
    case Round2 => u.round2Access
    case Round3 => u.round3Access
  }

  /** The issue one required string field raises, if any. */
  function FieldIssue(field: Option<string>, minLength: nat, tooShort: string): (issue: Option<string>)
    ensures issue.None? <==> field.Some? && |field.value| >= minLength
  {
    match field
    case None => Some(RequiredIssue)
    case Some(s) => if |s| < minLength then Some(tooShort) else None
  }

  function IssueList(issue: Option<string>): seq<string>
  {
    if issue.Some? then [issue.value] else []
  }

  /** `insertUserSchema.safeParse`: the body is accepted iff it carries a
      username of at least 3 and a password of at least 6 characters; the
      issues are reported username first, then password. */
  function ParseInsertUser(body: UserBody): (r: Result<InsertUser, seq<string>>)
    ensures r.Success? <==>
      && body.username.Some? && |body.username.value| >= MinUsernameLength
      && body.password.Some? && |body.password.value| >= MinPasswordLength
    ensures r.Success? ==>
      r.value == InsertUser(body.username.value, body.password.value, body.role, body.teamName,
                            body.teamId, body.round1Access, body.round2Access, body.round3Access)
    ensures r.Failure? ==> 1 <= |r.error| <= 2
    ensures r.Failure? ==>
      (UsernameTooShort in r.error <==> body.username.Some? && |body.username.value| < MinUsernameLength)
    ensures r.Failure? ==>
      (PasswordTooShort in r.error <==> body.password.Some? && |body.password.value| < MinPasswordLength)
  {
    var issues :=
      IssueList(FieldIssue(body.username, MinUsernameLength, UsernameTooShort))
      + IssueList(FieldIssue(body.password, MinPasswordLength, PasswordTooShort));
    if issues == [] then
      Success(InsertUser(body.username.value, body.password.value, body.role, body.teamName,
                         body.teamId, body.round1Access, body.round2Access, body.round3Access))
    else
      Failure(issues)
  }
}
