/** `UserService`: a keyed user store with unique usernames and e-mail
    addresses, partial update, and one audit record per mutation. */
module Users {
  import opened Wrappers
  import opened Domain
  import opened Audit

  /** The user createUser saves: the given fields, the encoded password, active. */
  function NewUser(id: UserId, dto: UserCreateDto, encode: string -> string): (u: User)
    ensures u.active && u.password == encode(dto.password)
    ensures u.id == id && u.username == dto.username && u.email == dto.email
  {
    User(id, dto.username, dto.email, encode(dto.password),
         dto.firstName, dto.lastName, dto.phoneNumber, dto.role, true)
  }

  /** The field updates of updateUser (after its e-mail check passed): each
      non-null field replaces the stored one; id, username and password are
      never touched. */
  function ApplyUserUpdate(u: User, dto: UserDto): (r: User)
    ensures r.id == u.id && r.username == u.username && r.password == u.password
    ensures r.email == (if dto.email.Some? then dto.email.value else u.email)
    ensures r.firstName == (if dto.firstName.Some? then dto.firstName else u.firstName)
    ensures r.lastName == (if dto.lastName.Some? then dto.lastName else u.lastName)
    ensures r.phoneNumber == (if dto.phoneNumber.Some? then dto.phoneNumber else u.phoneNumber)
    ensures r.role == (if dto.role.Some? then dto.role else u.role)
    ensures r.active == (if dto.active.Some? then dto.active.value else u.active)
    ensures dto == UserDto(None, None, None, None, None, None) ==> r == u
  {
    u.(email := dto.email.GetOr(u.email),
       firstName := if dto.firstName.Some? then dto.firstName else u.firstName,
       lastName := if dto.lastName.Some? then dto.lastName else u.lastName,
       phoneNumber := if dto.phoneNumber.Some? then dto.phoneNumber else u.phoneNumber,
       role := if dto.role.Some? then dto.role else u.role,
       active := dto.active.GetOr(u.active))
  }

  class UserService {
    const audit: AuditLogService
    var users: map<UserId, User>
    var nextId: UserId

    /** Ids match their keys and lie below the next id; usernames and e-mail
        addresses identify at most one user each. */
    ghost predicate Valid()
      reads this
    {
      && nextId > 0
      && (forall id :: id in users ==> users[id].id == id && 0 < id < nextId)
      && (forall a, b :: a in users && b in users && users[a].username == users[b].username ==> a == b)
      && (forall a, b :: a in users && b in users && users[a].email == users[b].email ==> a == b)
    }

    constructor (audit: AuditLogService)
      ensures Valid() && users == map[] && this.audit == audit
    {
      this.audit := audit;
      users := map[];
      nextId := 1;
    }

    predicate ExistsByUsername(username: string)
      reads this
    {
      exists id :: id in users && users[id].username == username
    }

    predicate ExistsByEmail(email: string)
      reads this
    {
      exists id :: id in users && users[id].email == email
    }

    /** Rejects a taken username, then a taken e-mail address, saving nothing;
        otherwise saves a new active user with the encoded password and logs CREATE. */
    method CreateUser(dto: UserCreateDto, encode: string -> string) returns (r: Result<User, Error>)
      requires Valid()
      modifies this, audit`records
      ensures Valid()
      ensures old(ExistsByUsername(dto.username)) ==>
                r == Err(DuplicateResource("User", "username"))
      ensures !old(ExistsByUsername(dto.username)) && old(ExistsByEmail(dto.email)) ==>
                r == Err(DuplicateResource("User", "email"))
      ensures r.Err? ==> users == old(users) && nextId == old(nextId) && audit.records == old(audit.records)
      ensures r.Ok? <==> !old(ExistsByUsername(dto.username)) && !old(ExistsByEmail(dto.email))
      ensures r.Ok? ==>
                && r.value == NewUser(old(nextId), dto, encode)
                && old(nextId) !in old(users)
                && users == old(users)[old(nextId) := r.value]
                && nextId == old(nextId) + 1
                && audit.records == old(audit.records)
                     + audit.Kept([AuditLog("USER", r.value.id, Create, "SYSTEM", None, Some(dto.username), "User created")])
    {
      if ExistsByUsername(dto.username) {
        return Err(DuplicateResource("User", "username"));
      }
      if ExistsByEmail(dto.email) {
        return Err(DuplicateResource("User", "email"));
      }
      var user := NewUser(nextId, dto, encode);
      users := users[nextId := user];
      nextId := nextId + 1;
      audit.Log("USER", user.id, Create, "SYSTEM", None, Some(user.username), "User created");
      r := Ok(user);
    }

    /** `getUserEntityById` (and `getUserById`, which maps the same user to a DTO). */
    function GetUserEntityById(id: UserId): (r: Result<User, Error>)
      reads this
      ensures r.Ok? <==> id in users
      ensures r.Ok? ==> r.value == users[id]
      ensures r.Ok? && Valid() ==> r.value.id == id
      ensures r.Err? ==> r.error == ResourceNotFound("User", "id")
    {
      if id in users then Ok(users[id]) else Err(ResourceNotFound("User", "id"))
    }

    /** `getUserByUsername`: the user with that username, or not-found. */
    method GetUserByUsername(username: string) returns (r: Result<User, Error>)
      requires Valid()
      ensures r.Ok? <==> ExistsByUsername(username)
      ensures r.Ok? ==> r.value.username == username && r.value.id in users && users[r.value.id] == r.value
      ensures r.Err? ==> r.error == ResourceNotFound("User", "username")
    {
      var pending := users.Keys;
      while pending != {}
        invariant pending <= users.Keys
        invariant forall id :: id in users && id !in pending ==> users[id].username != username
        decreases pending
      {
        // The guard says `pending` is not empty; naming the opposite case
        // lets the verifier find a key for the pick below.
        if forall j :: j !in pending {
          assert false;
        }
        var k :| k in pending;
        if users[k].username == username {
          return Ok(users[k]);
        }
        pending := pending - {k};
      }
      r := Err(ResourceNotFound("User", "username"));
    }

    /** Unknown id: not-found. A new, different e-mail already in use: duplicate.
        Otherwise applies the non-null fields and logs UPDATE with the user's
        rendering before and after. Nothing changes on an error. */
    method UpdateUser(id: UserId, dto: UserDto, render: User -> string) returns (r: Result<User, Error>)
      requires Valid()
      modifies this, audit`records
      ensures Valid()
      ensures id !in old(users) ==> r == Err(ResourceNotFound("User", "id"))
      ensures (id in old(users) && dto.email.Some? && dto.email.value != old(users)[id].email
               && old(ExistsByEmail(dto.email.value))) ==> r == Err(DuplicateResource("User", "email"))
      ensures r.Ok? <==>
                && id in old(users)
                && !(dto.email.Some? && dto.email.value != old(users)[id].email && old(ExistsByEmail(dto.email.value)))
      ensures r.Err? ==> users == old(users) && audit.records == old(audit.records)
      ensures nextId == old(nextId)
      ensures r.Ok? ==>
                && id in old(users)
                && r.value == ApplyUserUpdate(old(users)[id], dto)
                && users == old(users)[id := r.value]
                && audit.records == old(audit.records)
                     + audit.Kept([AuditLog("USER", id, Update, "SYSTEM",
                                            Some(render(old(users)[id])), Some(render(r.value)), "User updated")])
    {
      if id !in users {
        return Err(ResourceNotFound("User", "id"));
      }
      var user := users[id];
      var oldValue := render(user);
      if dto.email.Some? && dto.email.value != user.email {
        if ExistsByEmail(dto.email.value) {
          return Err(DuplicateResource("User", "email"));
        }
      }
      var updated := ApplyUserUpdate(user, dto);
      users := users[id := updated];
      audit.Log("USER", id, Update, "SYSTEM", Some(oldValue), Some(render(updated)), "User updated");
      r := Ok(updated);
    }

    /** Unknown id: not-found, nothing changes; otherwise removes the user and logs DELETE. */
    method DeleteUser(id: UserId) returns (r: Result<(), Error>)
      requires Valid()
      modifies this, audit`records
      ensures Valid()
      ensures nextId == old(nextId)
      ensures id !in old(users) ==>
                r == Err(ResourceNotFound("User", "id")) && users == old(users) && audit.records == old(audit.records)
      ensures id in old(users) ==>
                && r == Ok(())
                && users == old(users) - {id}
                && audit.records == old(audit.records)
                     + audit.Kept([AuditLog("USER", id, Delete, "SYSTEM", Some(old(users)[id].username), None, "User deleted")])
    {
      if id !in users {
        return Err(ResourceNotFound("User", "id"));
      }
      var user := users[id];
      users := users - {id};
      audit.Log("USER", id, Delete, "SYSTEM", Some(user.username), None, "User deleted");
      r := Ok(());
    }
  }
}
