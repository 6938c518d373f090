/**
 * The user service of the GORM-based backend
 * (internal/services/user_service.go). The `users` table is a sequence of
 * rows in primary-key order, soft-deleted rows included. `username` and
 * `email` carry unique indexes, which the database enforces over every
 * row, deleted or not, while the service's own lookups see live rows only.
 * bcrypt is a parameter: a hash that is supplied or missing (hashing
 * failed), and a comparison function.
 */
module UserService {
  import opened Wrappers
  import opened Strs
  import opened Models
  import opened Gorm
  import Response

  const EmailExists := "邮箱已存在"
  const UsernameExists := "用户名已存在"
  const HashFailed := "密码加密失败"
  const CreateFailed := "创建用户失败"
  const UserNotFound := "用户不存在"
  const UpdateFailed := "更新用户失败"
  const WrongOldPassword := "旧密码错误"

  /** The fields of the registration request `CreateUser` reads. */
  datatype RegisterRequest = RegisterRequest(username: string, email: string, password: string, role: string)

  /** `bcrypt.CompareHashAndPassword(hash, password) == nil`. */
  type PasswordCheck = (string, string) -> bool

  predicate IsLive(u: User) { u.deletedAt.None? }

  /** A live row has this email (`Where("email = ?").First`). */
  predicate LiveEmail(users: seq<User>, email: string) {
    exists i :: 0 <= i < |users| && IsLive(users[i]) && users[i].email == email
  }

  /** A live row other than `id` has this user name. */
  predicate LiveUsernameElsewhere(users: seq<User>, username: string, id: nat) {
    exists i :: 0 <= i < |users| && IsLive(users[i]) && users[i].username == username && users[i].id != id
  }

  /** Some row, live or deleted, holds this value in a unique column. */
  predicate AnyRowHasEmail(users: seq<User>, email: string) {
    exists i :: 0 <= i < |users| && users[i].email == email
  }

  predicate AnyOtherRowHasUsername(users: seq<User>, username: string, id: nat) {
    exists i :: 0 <= i < |users| && users[i].username == username && users[i].id != id
  }

  /** Index of the live row with key `id`, or -1. */
  function FindUser(users: seq<User>, id: nat): (k: int)
    ensures -1 <= k < |users|
    ensures k >= 0 ==> users[k].id == id && IsLive(users[k])
    ensures k == -1 <==> forall i :: 0 <= i < |users| ==> !(users[i].id == id && IsLive(users[i]))
  {
    if users == [] then -1
    else if users[|users| - 1].id == id && IsLive(users[|users| - 1]) then |users| - 1
    else FindUser(users[..|users| - 1], id)
  }

  /** Index of the first live row with this email, or -1. */
  function FindByEmail(users: seq<User>, email: string): (k: int)
    ensures -1 <= k < |users|
    ensures k >= 0 ==> users[k].email == email && IsLive(users[k])
    ensures k == -1 <==> !LiveEmail(users, email)
  {
    if users == [] then -1
    else
      var k := FindByEmail(users[1..], email);
      assert forall i :: 0 < i < |users| ==> users[1..][i - 1] == users[i];
      if users[0].email == email && IsLive(users[0]) then 0
      else if k == -1 then -1 else k + 1
  }

  /** `UpdateUser`'s field merge: a non-empty request field replaces the stored one. */
  function MergeUpdate(u: User, req: UserUpdateRequest): (r: User)
  {
    u.(username := if req.username != "" then req.username else u.username,
       phone := if req.phone != "" then req.phone else u.phone,
       studentId := if req.studentId != "" then req.studentId else u.studentId,
       major := if req.major != "" then req.major else u.major,
       grade := if req.grade != "" then req.grade else u.grade,
       avatar := if req.avatar != "" then req.avatar else u.avatar)
  }

  /** Empty request fields keep the stored values; non-empty ones win; nothing else moves. */
  lemma MergeUpdateFieldwise(u: User, req: UserUpdateRequest)
    ensures var r := MergeUpdate(u, req);
      (req.username == "" ==> r.username == u.username) && (req.username != "" ==> r.username == req.username)
      && (req.phone == "" ==> r.phone == u.phone) && (req.phone != "" ==> r.phone == req.phone)
      && (req.studentId == "" ==> r.studentId == u.studentId) && (req.studentId != "" ==> r.studentId == req.studentId)
      && (req.major == "" ==> r.major == u.major) && (req.major != "" ==> r.major == req.major)
      && (req.grade == "" ==> r.grade == u.grade) && (req.grade != "" ==> r.grade == req.grade)
      && (req.avatar == "" ==> r.avatar == u.avatar) && (req.avatar != "" ==> r.avatar == req.avatar)
      && r.(username := u.username, phone := u.phone, studentId := u.studentId, major := u.major,
            grade := u.grade, avatar := u.avatar) == u
  {
  }

  /** An all-empty request changes nothing, and applying a request twice is applying it once. */
  lemma MergeUpdateIdentityAndIdempotence(u: User, req: UserUpdateRequest)
    ensures MergeUpdate(u, UserUpdateRequest("", "", "", "", "", "")) == u
    ensures MergeUpdate(MergeUpdate(u, req), req) == MergeUpdate(u, req)
  {
  }

  /** The users a search selects: a non-empty term must occur in the user name, email or student id. */
  predicate SearchMatches(u: User, search: string) {
    IsLive(u) && (search == "" || Contains(u.username, search) || Contains(u.email, search) || Contains(u.studentId, search))
  }

  function Searched(users: seq<User>, search: string): (r: seq<User>)
    ensures |r| <= |users|
    ensures forall x :: x in r ==> x in users && SearchMatches(x, search)
    ensures forall i :: 0 <= i < |users| && SearchMatches(users[i], search) ==> users[i] in r
  {
    if users == [] then []
    else
      var init := Searched(users[..|users| - 1], search);
      var last := users[|users| - 1];
      assert forall i :: 0 <= i < |users| - 1 ==> users[..|users| - 1][i] == users[i];
      if SearchMatches(last, search) then init + [last] else init
  }

  /** A user is found by any part of its email address. */
  lemma SearchFindsEmailInfix(u: User, a: string, search: string, b: string)
    requires IsLive(u) && u.email == a + search + b
    ensures SearchMatches(u, search)
  {
    ContainsInfix(a, search, b);
  }

  /** Ids below the next one and ascending; email and user name are unique columns. */
  ghost predicate TableValid(users: seq<User>, nextId: nat) {
    nextId >= 1
    && (forall i :: 0 <= i < |users| ==> 1 <= users[i].id < nextId)
    && (forall i, j :: 0 <= i < j < |users| ==> users[i].id < users[j].id)
    && (forall i, j :: 0 <= i < j < |users| ==> users[i].email != users[j].email)
    && (forall i, j :: 0 <= i < j < |users| ==> users[i].username != users[j].username)
  }

  /** Replacing a row by one with the same id and email, and a user name no other row holds, keeps the table valid. */
  lemma ReplaceRowKeepsValid(users: seq<User>, nextId: nat, k: int, u: User)
    requires TableValid(users, nextId) && 0 <= k < |users|
    requires u.id == users[k].id && u.email == users[k].email
    requires forall j :: 0 <= j < |users| && j != k ==> users[j].username != u.username
    ensures TableValid(users[k := u], nextId)
  {
  }

  class UserService {
    var users: seq<User>
    var nextId: nat

    ghost predicate Valid()
      reads this
    {
      TableValid(users, nextId)
    }

    constructor ()
      ensures Valid() && users == [] && nextId == 1
    {
      users := [];
      nextId := 1;
    }

    /**
     * `CreateUser`: email first, then user name, against live rows; then
     * hashing; then the insert, which the unique indexes refuse when a
     * deleted row still holds the email or user name. An empty role
     * becomes "student"; the status column defaults to "active". A role
     * outside the column's `enum('student','admin')` is a `Create` the
     * database refuses, a failure the model does not have.
     */
    method CreateUser(req: RegisterRequest, hash: Option<string>, now1: Time, now2: Time)
      returns (r: Result<User, string>)
      requires Valid()
      modifies this
      ensures Valid()
      ensures LiveEmail(old(users), req.email) ==> r == Err(EmailExists)
      ensures !LiveEmail(old(users), req.email) && LiveUsernameElsewhere(old(users), req.username, 0) ==>
        r == Err(UsernameExists)
      ensures !LiveEmail(old(users), req.email) && !LiveUsernameElsewhere(old(users), req.username, 0) && hash.None? ==>
        r == Err(HashFailed)
      ensures !LiveEmail(old(users), req.email) && !LiveUsernameElsewhere(old(users), req.username, 0) && hash.Some?
              && (AnyRowHasEmail(old(users), req.email) || AnyOtherRowHasUsername(old(users), req.username, 0)) ==>
        r == Err(CreateFailed)
      ensures r.Err? ==> users == old(users) && nextId == old(nextId)
      ensures r.Ok? ==>
        hash.Some? && !AnyRowHasEmail(old(users), req.email) && !AnyOtherRowHasUsername(old(users), req.username, 0)
        && r.value == User(old(nextId), req.username, req.email, hash.value,
                           if req.role == "" then "student" else req.role,
                           "", "", "", "", "", "active", now1, now2, None)
        && users == old(users) + [r.value] && nextId == old(nextId) + 1
    {
      if LiveEmail(users, req.email) {
        return Err(EmailExists);
      }
      if LiveUsernameElsewhere(users, req.username, 0) {
        return Err(UsernameExists);
      }
      if hash.None? {
        return Err(HashFailed);
      }
      var role := req.role;
      if role == "" {
        role := "student";
      }
      if AnyRowHasEmail(users, req.email) || AnyOtherRowHasUsername(users, req.username, 0) {
        return Err(CreateFailed);
      }
      var user := User(nextId, req.username, req.email, hash.value, role, "", "", "", "", "", "active", 0, 0, None);
      user := UserBeforeCreate(user, now1, now2);
      assert user.id == nextId && user.email == req.email && user.username == req.username;
      users := users + [user];
      nextId := nextId + 1;
      return Ok(user);
    }

    /** `GetUserByID`. */
    method GetUserByID(id: nat) returns (r: Result<User, string>)
      ensures FindUser(users, id) == -1 ==> r == Err(UserNotFound)
      ensures FindUser(users, id) >= 0 ==> r == Ok(users[FindUser(users, id)])
    {
      var k := FindUser(users, id);
      if k < 0 {
        return Err(UserNotFound);
      }
      return Ok(users[k]);
    }

    /** `GetUserByEmail`. */
    method GetUserByEmail(email: string) returns (r: Result<User, string>)
      ensures r.Err? <==> !LiveEmail(users, email)
      ensures r.Err? ==> r.error == UserNotFound
      ensures r.Ok? ==> r.value in users && r.value.email == email && IsLive(r.value)
    {
      var k := FindByEmail(users, email);
      if k < 0 {
        return Err(UserNotFound);
      }
      return Ok(users[k]);
    }

    /**
     * `UpdateUser`: a non-empty user name must not be another live user's;
     * the other non-empty fields overwrite the stored ones; `Save` stamps
     * the update time and is refused when a deleted row holds the name.
     */
    method UpdateUser(id: nat, req: UserUpdateRequest, now: Time) returns (r: Result<User, string>)
      requires Valid()
      modifies this
      ensures Valid() && nextId == old(nextId) && |users| == |old(users)|
      ensures FindUser(old(users), id) == -1 ==> r == Err(UserNotFound)
      ensures FindUser(old(users), id) >= 0 && req.username != "" && LiveUsernameElsewhere(old(users), req.username, id) ==>
        r == Err(UsernameExists)
      ensures r.Err? ==> users == old(users)
      ensures r.Ok? ==>
        var k := FindUser(old(users), id);
        k >= 0 && r.value == MergeUpdate(old(users)[k], req).(updatedAt := now)
        && users == old(users)[k := r.value]
      ensures (FindUser(old(users), id) >= 0
               && (req.username == "" || !AnyOtherRowHasUsername(old(users), req.username, id))) ==> r.Ok?
    {
      var k := FindUser(users, id);
      if k < 0 {
        return Err(UserNotFound);
      }
      var user := users[k];
      if req.username != "" {
        if LiveUsernameElsewhere(users, req.username, id) {
          return Err(UsernameExists);
        }
        user := user.(username := req.username);
      }
      if req.phone != "" {
        user := user.(phone := req.phone);
      }
      if req.studentId != "" {
        user := user.(studentId := req.studentId);
      }
      if req.major != "" {
        user := user.(major := req.major);
      }
      if req.grade != "" {
        user := user.(grade := req.grade);
      }
      if req.avatar != "" {
        user := user.(avatar := req.avatar);
      }
      if req.username != "" && AnyOtherRowHasUsername(users, req.username, id) {
        return Err(UpdateFailed);
      }
      user := UserBeforeUpdate(user, now);
      assert user == MergeUpdate(users[k], req).(updatedAt := now);
      assert forall j :: 0 <= j < |users| && j != k ==> users[j].id != id;
      ReplaceRowKeepsValid(users, nextId, k, user);
      users := users[k := user];
      return Ok(user);
    }

    /**
     * `ListUsers`: the live users matching the search, the total before
     * paging, and the `(page - 1) * size` window. The query has no
     * `ORDER BY`, so the database may return the rows in any order; the
     * model's choice is primary-key order.
     */
    method ListUsers(page: int, size: int, search: string) returns (list: seq<User>, total: nat)
      requires Strs.MinInt64 <= page <= Strs.MaxInt64 && Strs.MinInt64 <= size <= Strs.MaxInt64
      ensures total == |Searched(users, search)|
      ensures list == Window(Searched(users, search), Response.GetOffset(page, size), size)
    {
      var matched := Searched(users, search);
      total := |matched|;
      var offset := Response.GetOffset(page, size);
      list := Window(matched, offset, size);
    }

    /**
     * `ChangePassword`: the old password must match the stored hash; then
     * the new hash replaces it. On any error the table is unchanged.
     */
    method ChangePassword(id: nat, oldPassword: string, check: PasswordCheck, newHash: Option<string>, now: Time)
      returns (err: Option<string>)
      requires Valid()
      modifies this
      ensures Valid() && nextId == old(nextId) && |users| == |old(users)|
      ensures FindUser(old(users), id) == -1 ==> err == Some(UserNotFound)
      ensures FindUser(old(users), id) >= 0 && !check(old(users)[FindUser(old(users), id)].password, oldPassword) ==>
        err == Some(WrongOldPassword)
      ensures (FindUser(old(users), id) >= 0 && check(old(users)[FindUser(old(users), id)].password, oldPassword)
               && newHash.None?) ==> err == Some(HashFailed)
      ensures err.Some? ==> users == old(users)
      ensures err.None? ==>
        var k := FindUser(old(users), id);
        k >= 0 && newHash.Some?
        && users == old(users)[k := old(users)[k].(password := newHash.value, updatedAt := now)]
    {
      var k := FindUser(users, id);
      if k < 0 {
        return Some(UserNotFound);
      }
      var user := users[k];
      if !check(user.password, oldPassword) {
        return Some(WrongOldPassword);
      }
      if newHash.None? {
        return Some(HashFailed);
      }
      user := user.(password := newHash.value);
      user := UserBeforeUpdate(user, now);
      assert user.id == users[k].id && user.email == users[k].email && user.username == users[k].username;
      ReplaceRowKeepsValid(users, nextId, k, user);
      users := users[k := user];
      return None;
    }

    /**
     * `UpdateUserStatus`: the new status and the hook's `UpdatedAt` are
     * saved. The column is `enum('active','inactive')`; a value outside it
     * is a `Save` the database refuses, a failure the model does not have.
     */
    method UpdateUserStatus(id: nat, status: string, now: Time) returns (err: Option<string>)
      requires Valid()
      modifies this
      ensures Valid() && nextId == old(nextId) && |users| == |old(users)|
      ensures FindUser(old(users), id) == -1 ==> err == Some(UserNotFound) && users == old(users)
      ensures FindUser(old(users), id) >= 0 ==>
        var k := FindUser(old(users), id);
        err == None && users == old(users)[k := old(users)[k].(status := status, updatedAt := now)]
    {
      var k := FindUser(users, id);
      if k < 0 {
        return Some(UserNotFound);
      }
      var user := users[k];
      user := user.(status := status);
      user := UserBeforeUpdate(user, now);
      assert user.id == users[k].id && user.email == users[k].email && user.username == users[k].username;
      ReplaceRowKeepsValid(users, nextId, k, user);
      users := users[k := user];
      return None;
    }
  }

  /** A user whose status is set to anything but "active" can no longer pass the login activity check. */
  lemma DeactivatedUserInactive(u: User, status: string, now: Time)
    requires status != "active"
    ensures !IsActive(u.(status := status, updatedAt := now))
  {
  }
}
