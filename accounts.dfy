/** The user records, their roles, the password encoder and the user
    table's queries (`findByUsername`, `existsByUsername`). */
module Accounts {
  import opened Common

  type UserId = nat

  /** The closed set of role names; a user holds exactly one. */
  datatype RoleName = USER | ADMIN

  /** `Enum.name()` of a role name. */
  function RoleNameString(r: RoleName): (s: string)
    ensures r == USER ==> s == "USER"
    ensures r == ADMIN ==> s == "ADMIN"
  {
    match r
    case USER => "USER"
    case ADMIN => "ADMIN"
  }

  /** A stored user: id, unique username, password hash and role
      (the Role row is flattened to its name). */
  datatype User = User(id: UserId, username: string, password: string, role: RoleName)

  /** The password encoder bean, seen only through its two operations. */
  datatype PasswordEncoder = PasswordEncoder(encode: string -> string, matches: (string, string) -> bool)

  /** The encoder accepts every plaintext against its own encoding. */
  ghost predicate AcceptsOwnEncoding(e: PasswordEncoder)
  {
    forall p :: e.matches(p, e.encode(p))
  }

  /** The encoder rejects every plaintext against the encoding of a different one. */
  ghost predicate RejectsOtherPlaintexts(e: PasswordEncoder)
  {
    forall p, q {:trigger e.matches(p, e.encode(q))} :: p != q ==> !e.matches(p, e.encode(q))
  }

  /** The user table as the database keeps it: each row is stored under
      its own id and the username column is unique. */
  ghost predicate WellFormed(users: map<UserId, User>)
  {
    && (forall id :: id in users ==> users[id].id == id)
    && (forall a, b :: a in users && b in users && users[a].username == users[b].username ==> a == b)
  }

  /** `existsByUsername`. */
  function ExistsByUsername(users: map<UserId, User>, name: string): (r: bool)
    ensures r <==> name in (set u | u in users.Values :: u.username)
  {
    exists id :: id in users && users[id].username == name
  }

  /** `findByUsername`: the one row holding that username, if any. */
  function FindByUsername(users: map<UserId, User>, name: string): (r: Option<User>)
    requires WellFormed(users)
    ensures r.None? <==> !ExistsByUsername(users, name)
    ensures r.Some? ==> r.value.id in users && users[r.value.id] == r.value && r.value.username == name
  {
    if ExistsByUsername(users, name) then
      var id :| id in users && users[id].username == name;
      Some(users[id])
    else
      None
  }

  /** The row found by name is the row under the id holding that name. */
  lemma FindByUsernameIsRowWithName(users: map<UserId, User>, name: string, id: UserId)
    requires WellFormed(users)
    requires id in users && users[id].username == name
    ensures FindByUsername(users, name) == Some(users[id])
  {
  }
}
