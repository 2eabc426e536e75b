/** The request shapes and the pure rules of the user endpoints: the role and
    ownership gates, the row a sign-up inserts, and the partial update. */
module Users {
  import opened Common
  import opened Models

  /** `UserUpdate`: every field optional. `None` leaves the column alone;
      `Some(None)` is an explicit null, which is written like any other value. */
  datatype UserPatch = UserPatch(
    email: Option<Option<string>>,
    role: Option<Option<string>>,
    isActive: Option<Option<bool>>)

  /** Only an admin may list the users. */
  predicate CanListUsers(role: string)
  {
    role == Admin
  }

  /** An admin may update anyone; anyone else only themselves. */
  predicate MayUpdateUser(caller: User, userId: int)
  {
    caller.role == Admin || caller.id == userId
  }

  predicate UsernameTaken(users: map<int, User>, username: string)
  {
    exists id | id in users :: users[id].username == username
  }

  predicate EmailTaken(users: map<int, User>, email: string)
  {
    exists id | id in users :: users[id].email == email
  }

  /** The row a sign-up inserts: the hash of the password, never the password,
      and the default activity flag. */
  function NewUser(id: int, username: string, email: string, passwordHash: string, role: string): User
  {
    User(id, username, email, passwordHash, role, Some(DefaultIsActive))
  }

  /** `update_user`'s field-by-field write. The result is `None` when the patch
      nulls `email` or `role`, columns declared NOT NULL: such a row cannot be
      committed. Username and password hash are never touched. */
  function PatchUser(u: User, p: UserPatch): (r: Option<User>)
    ensures r.None? <==> p.email == Some(None) || p.role == Some(None)
    ensures r.Some? ==> r.value.id == u.id && r.value.username == u.username
    ensures r.Some? ==> r.value.passwordHash == u.passwordHash
    ensures r.Some? ==> Patched(Some(u.email), Some(r.value.email), p.email)
    ensures r.Some? ==> Patched(Some(u.role), Some(r.value.role), p.role)
    ensures r.Some? ==> Patched(u.isActive, r.value.isActive, p.isActive)
  {
    var email := Pick(p.email, Some(u.email));
    var role := Pick(p.role, Some(u.role));
    if email.None? || role.None? then None
    else Some(u.(email := email.value, role := role.value, isActive := Pick(p.isActive, u.isActive)))
  }

  /** The gate looks at the target id only, not at what the patch changes: a
      caller of any role, stored as they are, may give themselves any role, and
      the commit accepts it because no constraint looks at the role. With the
      success clause of `UpdateUser`, such an update always succeeds. */
  lemma SelfRoleChange(
    caller: User, role: string,
    users: map<int, User>, households: map<int, Household>, members: map<int, Member>)
    requires caller.id in users && users[caller.id] == caller && Consistent(users, households, members)
    ensures MayUpdateUser(caller, caller.id)
    ensures PatchUser(caller, UserPatch(None, Some(Some(role)), None)) == Some(caller.(role := role))
    ensures Consistent(users[caller.id := caller.(role := role)], households, members)
  {
  }
}
