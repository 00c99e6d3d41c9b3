/** The in-memory user table (server/storage.ts): a JavaScript `Map` from id
    to user, which iterates in insertion order. */
module Storage {
  import opened Wrappers
  import opened Schema

  const ActiveStatus := "active"
  const LockedStatus := "locked"
  const UserNotFound := "User not found"

  predicate Distinct(s: seq<string>)
  {
    forall i, j :: 0 <= i < j < |s| ==> s[i] != s[j]
  }

  /** The record the constructor seeds the table with. */
  function SeedAdmin(id: string): (u: User)
    ensures u.id == id && u.username == "admin" && u.role == AdminRole
    ensures forall r :: Access(u, r) == ActiveStatus
  {
    User(id, "admin", "admin_password", AdminRole, Some("Organizer"), Some("ADMIN"),
         ActiveStatus, ActiveStatus, ActiveStatus)
  }

  function OrElse(o: Option<string>, default: string): (s: string)
    ensures o.Some? ==> s == o.value
    ensures o.None? ==> s == default
  {
    if o.Some? then o.value else default
  }

  /** The record `createUser` builds: the insert fields with the defaults
      filled in and the store-chosen id. */
  function NewUser(id: string, ins: InsertUser): (u: User)
    ensures u.id == id && u.username == ins.username && u.password == ins.password
    ensures u.role == (if ins.role.Some? then ins.role.value else DefaultRole)
    ensures u.teamName == ins.teamName && u.teamId == ins.teamId
    ensures Access(u, Round1) == (if ins.round1Access.Some? then ins.round1Access.value else LockedStatus)
    ensures Access(u, Round2) == (if ins.round2Access.Some? then ins.round2Access.value else LockedStatus)
    ensures Access(u, Round3) == (if ins.round3Access.Some? then ins.round3Access.value else LockedStatus)
  {
    User(id, ins.username, ins.password, OrElse(ins.role, DefaultRole), ins.teamName, ins.teamId,
         OrElse(ins.round1Access, LockedStatus), OrElse(ins.round2Access, LockedStatus),
         OrElse(ins.round3Access, LockedStatus))
  }

  /** `{ ...user, [`${round}Access`]: status }`: only that round's access changes. */
  function WithAccess(u: User, round: Round, status: string): (v: User)
    ensures Access(v, round) == status
    ensures forall other :: other != round ==> Access(v, other) == Access(u, other)
    ensures v.(round1Access := u.round1Access, round2Access := u.round2Access,
               round3Access := u.round3Access) == u
  {
    match round
    case Round1 => u.(round1Access := status)
    case Round2 => u.(round2Access := status)
    case Round3 => u.(round3Access := status)
  }

  /** The values of `users` in the key order `order`. */
  function Values(order: seq<string>, users: map<string, User>): (vs: seq<User>)
    requires forall k :: k in order ==> k in users
    ensures |vs| == |order|
    ensures forall i :: 0 <= i < |order| ==> vs[i] == users[order[i]]
  {
    if order == [] then [] else [users[order[0]]] + Values(order[1..], users)
  }

  /** The position of the first user named `username`, or `|us|` when there is none. */
  function FirstNamed(us: seq<User>, username: string): (i: nat)
    ensures i <= |us|
    ensures i < |us| ==> us[i].username == username
    ensures forall j :: 0 <= j < i ==> us[j].username != username
  {
    if us == [] then 0
    else if us[0].username == username then 0
    else 1 + FirstNamed(us[1..], username)
  }

  lemma DistinctTail(s: seq<string>)
    requires Distinct(s) && s != []
    ensures Distinct(s[1..]) && s[0] !in s[1..]
  {
    forall j | 0 <= j < |s[1..]| ensures s[1..][j] != s[0] {
      assert s[1..][j] == s[j + 1];
    }
  }

  lemma DistinctCons(x: string, s: seq<string>)
    requires Distinct(s) && x !in s
    ensures Distinct([x] + s)
  {
    forall i, j | 0 <= i < j < |[x] + s| ensures ([x] + s)[i] != ([x] + s)[j] {
      assert ([x] + s)[j] == s[j - 1];
      if i > 0 {
        assert ([x] + s)[i] == s[i - 1];
      }
    }
  }

  lemma DistinctSnoc(s: seq<string>, x: string)
    requires Distinct(s) && x !in s
    ensures Distinct(s + [x])
  {
    forall i, j | 0 <= i < j < |s + [x]| ensures (s + [x])[i] != (s + [x])[j] {
      assert (s + [x])[i] == s[i];
    }
  }

  /** Storing a user under a new key appends it to the listing. */
  lemma ValuesSnoc(order: seq<string>, users: map<string, User>, id: string, u: User)
    requires forall k :: k in order ==> k in users
    requires id !in order
    ensures Values(order + [id], users[id := u]) == Values(order, users) + [u]
  {
    var after := Values(order + [id], users[id := u]);
    forall i | 0 <= i < |order| ensures after[i] == Values(order, users)[i] {
      assert (order + [id])[i] == order[i];
    }
  }

  /** `order` with `id` removed and everything else kept in place. */
  function Without(order: seq<string>, id: string): (r: seq<string>)
    ensures forall x :: x in r <==> x in order && x != id
    ensures Distinct(order) ==> Distinct(r)
    ensures id !in order ==> r == order
  {
    if order == [] then []
    else if order[0] == id then Without(order[1..], id)
    else
      var rest := Without(order[1..], id);
      assert Distinct(order) ==> Distinct([order[0]] + rest) by {
        if Distinct(order) {
          DistinctTail(order);
          DistinctCons(order[0], rest);
        }
      }
      [order[0]] + rest
  }

  /** Removing an id a second time changes nothing: `deleteUser` is idempotent. */
  lemma {:induction false} WithoutIdempotent(order: seq<string>, id: string)
    ensures Without(Without(order, id), id) == Without(order, id)
  {
    if order != [] {
      WithoutIdempotent(order[1..], id);
    }
  }

  /** Removing an id from a distinct key order drops exactly one position:
      the listing loses that one user and keeps the others in order. */
  lemma {:induction false} WithoutSplits(order: seq<string>, id: string, k: nat)
    requires Distinct(order) && k < |order| && order[k] == id
    ensures Without(order, id) == order[..k] + order[k + 1..]
  {
    DistinctTail(order);
    if k == 0 {
      assert Without(order, id) == Without(order[1..], id) == order[1..];
    } else {
      assert order[0] != id by { assert order[0] == order[..k][0]; }
      var tail := order[1..];
      assert tail[k - 1] == id;
      WithoutSplits(tail, id, k - 1);
      calc {
        Without(order, id);
        [order[0]] + Without(tail, id);
        [order[0]] + (tail[..k - 1] + tail[k..]);
        ([order[0]] + tail[..k - 1]) + tail[k..];
        { assert [order[0]] + tail[..k - 1] == order[..k];
          assert tail[k..] == order[k + 1..]; }
        order[..k] + order[k + 1..];
      }
    }
  }

  /** A user name that is already present shadows any later one: appending a
      user never changes which user a name lookup finds first. */
  lemma {:induction false} FirstNamedKeepsEarlier(us: seq<User>, u: User, username: string)
    requires FirstNamed(us, username) < |us|
    ensures FirstNamed(us + [u], username) == FirstNamed(us, username)
  {
    if us[0].username != username {
      assert (us + [u])[1..] == us[1..] + [u];
      FirstNamedKeepsEarlier(us[1..], u, username);
    }
  }

  class MemStorage {
    var users: map<string, User>
    /** The keys of `users` in insertion order, as the `Map` iterates them. */
    var order: seq<string>

    ghost predicate Valid()
      reads this
    {
      && Distinct(order)
      && (forall k :: k in order <==> k in users)
      && (forall k :: k in users ==> users[k].id == k)
    }

    /** A new store holds exactly the seeded admin. */
    constructor (adminId: string)
      ensures Valid()
      ensures order == [adminId] && users == map[adminId := SeedAdmin(adminId)]
      ensures ListUsers() == [SeedAdmin(adminId)]
    {
      users := map[adminId := SeedAdmin(adminId)];
      order := [adminId];
    }

    function GetUser(id: string): (r: Option<User>)
      reads this
      requires Valid()
      ensures r.Some? <==> id in users
      ensures r.Some? ==> r.value == users[id] && r.value.id == id
    {
      if id in users then Some(users[id]) else None
    }

    function ListUsers(): (us: seq<User>)
      reads this
      requires Valid()
      ensures |us| == |order|
      ensures forall i :: 0 <= i < |us| ==> us[i] == users[order[i]] && us[i].id == order[i]
    {
      Values(order, users)
    }

    /** The first user, in insertion order, with that name; usernames are not
        unique in the store, so later duplicates are never found. */
    function GetUserByUsername(username: string): (r: Option<User>)
      reads this
      requires Valid()
      ensures r.Some? ==> r.value.username == username && r.value.id in users && users[r.value.id] == r.value
      ensures r.Some? ==> forall i :: 0 <= i < |order| && order[i] == r.value.id ==>
                            forall j :: 0 <= j < i ==> users[order[j]].username != username
      ensures r.None? <==> forall k :: k in users ==> users[k].username != username
    {
      var us := ListUsers();
      var i := FirstNamed(us, username);
      if i < |us| then
        assert forall j :: 0 <= j < |order| && order[j] == order[i] ==> j == i;
        Some(us[i])
      else
        assert forall k :: k in users ==> k in order;
        None
    }

    /** `createUser`: the new row is stored under an id not used before and
        appended to the listing. Usernames are not checked for uniqueness. */
    method CreateUser(ins: InsertUser, id: string) returns (u: User)
      requires Valid() && id !in users
      modifies this
      ensures Valid()
      ensures u == NewUser(id, ins)
      ensures users == old(users)[id := u] && order == old(order) + [id]
      ensures ListUsers() == old(ListUsers()) + [u]
      ensures GetUser(id) == Some(u)
    {
      u := NewUser(id, ins);
      DistinctSnoc(order, id);
      ValuesSnoc(order, users, id, u);
      users := users[id := u];
      order := order + [id];
    }

    /** `updateUserAccess`: a missing id fails with "User not found" and
        changes nothing; otherwise only that user's access for `round`
        changes and the listing order is kept. */
    method UpdateUserAccess(id: string, round: Round, status: string) returns (r: Result<User, string>)
      requires Valid()
      modifies this
      ensures Valid()
      ensures id !in old(users) ==> r == Failure(UserNotFound) && unchanged(this)
      ensures id in old(users) ==>
        && r == Success(WithAccess(old(users)[id], round, status))
        && users == old(users)[id := r.value]
        && order == old(order)
      ensures id in old(users) ==>
        forall i :: 0 <= i < |order| ==>
          ListUsers()[i] == if order[i] == id then r.value else old(ListUsers())[i]
    {
      if id !in users {
        return Failure(UserNotFound);
      }
      var updated := WithAccess(users[id], round, status);
      users := users[id := updated];
      r := Success(updated);
    }

    /** `deleteUser`: removes the id when present, does nothing otherwise. */
    method DeleteUser(id: string)
      requires Valid()
      modifies this
      ensures Valid()
      ensures users == old(users) - {id}
      ensures order == Without(old(order), id)
      ensures id !in old(users) ==> order == old(order)
      ensures forall k :: 0 <= k < |old(order)| && old(order)[k] == id ==>
                order == old(order)[..k] + old(order)[k + 1..]
      ensures GetUser(id) == None
    {
      forall k | 0 <= k < |order| && order[k] == id
        ensures Without(order, id) == order[..k] + order[k + 1..]
      {
        WithoutSplits(order, id, k);
      }
      users := users - {id};
      order := Without(order, id);
    }
  }
}
