/** The HTTP handlers of server/routes.ts as guard chains over the user
    store and one client's session cell (the session's `userId`). */
module Routes {
  import opened Wrappers
  import opened Schema
  import opened Storage

  datatype Body =
    | NoBody
    | OneUser(user: User)
    | MaybeUser(found: Option<User>)
    | UserList(users: seq<User>)
    | Message(text: string)
    | Issues(issues: seq<string>)

  datatype Response = Response(status: nat, body: Body)

  const InvalidCredentials := "Invalid credentials"
  const NotAuthenticated := "Not authenticated"
  /** The message of the error a call to the missing `storage.updatePassword` throws. */
  const UpdatePasswordMissing := "storage.updatePassword is not a function"

  /** `!req.session.userId`: no user id, or an empty one. */
  predicate NoSessionUser(session: Option<string>): (b: bool)
    ensures session.None? ==> b
    ensures session == Some("") ==> b
    ensures session.Some? && session.value != "" ==> !b
  {
    session.None? || session.value == ""
  }

  /** The body's `round` when it names one of the three rounds. */
  function ParseRound(round: string): (r: Option<Round>)
    ensures r == Some(Round1) <==> round == "round1"
    ensures r == Some(Round2) <==> round == "round2"
    ensures r == Some(Round3) <==> round == "round3"
  {
    if round == "round1" then Some(Round1)
    else if round == "round2" then Some(Round2)
    else if round == "round3" then Some(Round3)
    else None
  }

  class App {
    const storage: MemStorage
    /** The session's `userId`; `None` when the session has none or was destroyed. */
    var session: Option<string>

    ghost predicate Valid()
      reads this, storage
    {
      storage.Valid()
    }

    constructor (storage: MemStorage)
      requires storage.Valid()
      ensures Valid() && this.storage == storage && session == None
    {
      this.storage := storage;
      session := None;
    }

    /** `storage.getUser(req.session.userId!)` has role "admin". A missing
        session looks up nothing and so is not an admin. */
    predicate IsAdminSession(): (r: bool)
      reads this, storage
      requires Valid()
      ensures session.None? ==> !r
      ensures r <==> session.Some? && session.value in storage.users && storage.users[session.value].role == AdminRole
    {
      session.Some? && storage.GetUser(session.value).Some? && storage.GetUser(session.value).value.role == AdminRole
    }

    /** The user `getUserByUsername` finds for a body `username` that may be absent;
        an absent name matches no stored user. */
    function FindLoginUser(username: Option<string>): (r: Option<User>)
      reads this, storage
      requires Valid()
      ensures username.None? ==> r.None?
      ensures username.Some? ==> r == storage.GetUserByUsername(username.value)
    {
      if username.Some? then storage.GetUserByUsername(username.value) else None
    }

    /** POST /api/login: 401 unless a user has that name and that password;
        on success the session holds that user's id and the user is returned. */
    method Login(username: Option<string>, password: Option<string>) returns (res: Response)
      requires Valid()
      modifies this
      ensures Valid()
      ensures var u := FindLoginUser(username);
        if u.Some? && password == Some(u.value.password) then
          res == Response(200, OneUser(u.value)) && session == Some(u.value.id)
        else
          res == Response(401, Message(InvalidCredentials)) && session == old(session)
      ensures res.status == 200 ==> res.body.OneUser? && res.body.user.id in storage.users
    {
      var user := FindLoginUser(username);
      if user.None? || password != Some(user.value.password) {
        return Response(401, Message(InvalidCredentials));
      }
      session := Some(user.value.id);
      res := Response(200, OneUser(user.value));
    }

    /** POST /api/logout: the session is destroyed. */
    method Logout() returns (res: Response)
      requires Valid()
      modifies this
      ensures Valid()
      ensures session == None && res == Response(200, NoBody)
    {
      session := None;
      res := Response(200, NoBody);
    }

    /** GET /api/me: 401 without a session user id; otherwise 200 with the
        stored user, which is absent when that user has been deleted. */
    method Me() returns (res: Response)
      requires Valid()
      ensures NoSessionUser(session) ==> res == Response(401, Message(NotAuthenticated))
      ensures !NoSessionUser(session) ==> res.status == 200 && res.body.MaybeUser?
      ensures !NoSessionUser(session) ==>
        (res.body.found.Some? <==> session.value in storage.users)
      ensures !NoSessionUser(session) && res.body.found.Some? ==>
        res.body.found.value == storage.users[session.value] && res.body.found.value.id == session.value
    {
      if NoSessionUser(session) {
        return Response(401, Message(NotAuthenticated));
      }
      var user := storage.GetUser(session.value);
      res := Response(200, MaybeUser(user));
    }

    /** GET /api/admin/users: 403 unless the session user is an admin
        (a missing session too); otherwise every user in insertion order. */
    method AdminListUsers() returns (res: Response)
      requires Valid()
      ensures !IsAdminSession() ==> res == Response(403, NoBody)
      ensures IsAdminSession() ==> res.status == 200 && res.body.UserList?
      ensures IsAdminSession() ==>
        |res.body.users| == |storage.order| &&
        forall i :: 0 <= i < |res.body.users| ==> res.body.users[i] == storage.users[storage.order[i]]
    {
      if !IsAdminSession() {
        return Response(403, NoBody);
      }
      var users := storage.ListUsers();
      res := Response(200, UserList(users));
    }

    /** POST /api/admin/users: 403 for a non-admin, 400 with the validation
        issues when the body is invalid (the store untouched), otherwise the
        store gains exactly the created user under the fresh id. */
    method AdminCreateUser(body: UserBody, freshId: string) returns (res: Response)
      requires Valid() && freshId !in storage.users
      modifies storage
      ensures Valid()
      ensures !old(IsAdminSession()) ==> res == Response(403, NoBody) && unchanged(storage)
      ensures old(IsAdminSession()) && ParseInsertUser(body).Failure? ==>
        res == Response(400, Issues(ParseInsertUser(body).error)) && unchanged(storage)
      ensures old(IsAdminSession()) && ParseInsertUser(body).Success? ==>
        var u := NewUser(freshId, ParseInsertUser(body).value);
        && res == Response(200, OneUser(u))
        && storage.users == old(storage.users)[freshId := u]
        && storage.ListUsers() == old(storage.ListUsers()) + [u]
    {
      if !IsAdminSession() {
        return Response(403, NoBody);
      }
      var parsed := ParseInsertUser(body);
      if parsed.Failure? {
        return Response(400, Issues(parsed.error));
      }
      var newUser := storage.CreateUser(parsed.value, freshId);
      res := Response(200, OneUser(newUser));
    }

    /** PATCH /api/admin/users/:id/access: 403 for a non-admin; a missing
        target makes the store throw "User not found" (a 500 here); otherwise
        200 with the target whose access for that round is now `status`.
        A `round` outside round1..round3 writes a key outside the record, so
        the returned and stored user keep all their modelled fields. */
    method AdminPatchAccess(targetId: string, round: string, status: string) returns (res: Response)
      requires Valid()
      modifies storage
      ensures Valid()
      ensures !old(IsAdminSession()) ==> res == Response(403, NoBody) && unchanged(storage)
      ensures old(IsAdminSession()) && targetId !in old(storage.users) ==>
        res == Response(500, Message(UserNotFound)) && unchanged(storage)
      ensures old(IsAdminSession()) && targetId in old(storage.users) ==>
        var u := old(storage.users)[targetId];
        var updated := if ParseRound(round).Some? then WithAccess(u, ParseRound(round).value, status) else u;
        && res == Response(200, OneUser(updated))
        && storage.users == old(storage.users)[targetId := updated]
        && storage.order == old(storage.order)
    {
      if !IsAdminSession() {
        return Response(403, NoBody);
      }
      var r := ParseRound(round);
      if r.Some? {
        var updated := storage.UpdateUserAccess(targetId, r.value, status);
        if updated.Failure? {
          return Response(500, Message(updated.error));
        }
        res := Response(200, OneUser(updated.value));
      } else {
        var found := storage.GetUser(targetId);
        if found.None? {
          return Response(500, Message(UserNotFound));
        }
        res := Response(200, OneUser(found.value));
      }
    }

    /** POST /api/admin/change-password: 401 without a session user id, 403
        for a non-admin, 400 when the new password is missing or shorter than
        6 characters. Past the guards the handler calls a storage operation
        that does not exist, which throws; nothing is stored. */
    method ChangePassword(newPassword: Option<string>) returns (res: Response)
      requires Valid()
      ensures NoSessionUser(session) ==> res == Response(401, NoBody)
      ensures !NoSessionUser(session) && !IsAdminSession() ==> res == Response(403, NoBody)
      ensures !NoSessionUser(session) && IsAdminSession() ==>
        (res == Response(400, Message(PasswordTooShort)) <==>
           newPassword.None? || |newPassword.value| < MinPasswordLength)
      ensures !NoSessionUser(session) && IsAdminSession() && newPassword.Some? &&
              |newPassword.value| >= MinPasswordLength ==>
        res == Response(500, Message(UpdatePasswordMissing))
    {
      if NoSessionUser(session) {
        return Response(401, NoBody);
      }
      if !IsAdminSession() {
        return Response(403, NoBody);
      }
      if newPassword.None? || |newPassword.value| < MinPasswordLength {
        return Response(400, Message(PasswordTooShort));
      }
      res := Response(500, Message(UpdatePasswordMissing));
    }

    /** DELETE /api/admin/users/:id: 403 for a non-admin; otherwise 200
        whether or not the target existed, and the target is gone. */
    method AdminDeleteUser(targetId: string) returns (res: Response)
      requires Valid()
      modifies storage
      ensures Valid()
      ensures !old(IsAdminSession()) ==> res == Response(403, NoBody) && unchanged(storage)
      ensures old(IsAdminSession()) ==>
        && res == Response(200, NoBody)
        && storage.users == old(storage.users) - {targetId}
        && storage.order == Without(old(storage.order), targetId)
    {
      if !IsAdminSession() {
        return Response(403, NoBody);
      }
      storage.DeleteUser(targetId);
      res := Response(200, NoBody);
    }
  }

  /** After logout, /api/me answers 401. */
  method LogoutThenMe(app: App) returns (res: Response)
    requires app.Valid()
    modifies app
    ensures res == Response(401, Message(NotAuthenticated))
  {
    var _ := app.Logout();
    res := app.Me();
  }
}
