/** `UserService`: registration, password change, lookup and deletion over
    the user table. */
module UserService {
  import opened Common
  import opened Accounts
  import opened UserSecurityService

  /** `UserRequestDTO`: the registration request. */
  datatype UserRequest = UserRequest(username: string, password: string)

  /** `PasswordDTO`: the password change request, both fields in plaintext. */
  datatype PasswordChange = PasswordChange(oldPassword: string, newPassword: string)

  const UserNotFound := NoSuchElement("User not found")
  const InvalidOldPassword := IllegalArgument("Invalid old password")
  const InvalidNewPassword := IllegalArgument("Invalid new password")
  const UsernameTaken := IllegalArgument("Username already exists")
  const DefaultRoleMissing := IllegalState("Default role USER not found")

  /** `validatePasswords`: the old plaintext must verify against the stored hash,
      and only then is the new plaintext compared with the old one. */
  function ValidatePasswords(encoder: PasswordEncoder, oldPassword: string, newPassword: string, user: User): (r: Outcome)
    ensures r == Pass <==> encoder.matches(oldPassword, user.password) && oldPassword != newPassword
    ensures !encoder.matches(oldPassword, user.password) ==> r == Fail(InvalidOldPassword)
    ensures encoder.matches(oldPassword, user.password) && oldPassword == newPassword ==> r == Fail(InvalidNewPassword)
  {
    if !encoder.matches(oldPassword, user.password) then
      Fail(InvalidOldPassword)
    else if oldPassword == newPassword then
      Fail(InvalidNewPassword)
    else
      Pass
  }

  /** Resubmitting the current password is refused even though it verifies. */
  lemma SamePasswordIsRefused(encoder: PasswordEncoder, user: User, plain: string)
    requires encoder.matches(plain, user.password)
    ensures ValidatePasswords(encoder, plain, plain, user) == Fail(InvalidNewPassword)
  {
  }

  /** A change that passes validation replaces a verifying hash by one that the new
      plaintext verifies against and the old one no longer does. */
  lemma AcceptedChangeRotatesCredential(encoder: PasswordEncoder, user: User, oldPassword: string, newPassword: string)
    requires AcceptsOwnEncoding(encoder) && RejectsOtherPlaintexts(encoder)
    requires ValidatePasswords(encoder, oldPassword, newPassword, user) == Pass
    ensures encoder.matches(oldPassword, user.password)
    ensures encoder.matches(newPassword, encoder.encode(newPassword))
    ensures !encoder.matches(oldPassword, encoder.encode(newPassword))
  {
  }

  /** The service together with its user and role repositories and the encoder bean. */
  class UserService {
    var users: map<UserId, User>
    var roles: set<RoleName>   // the seeded rows of the role table
    var nextId: UserId         // the next value of the identity column
    const encoder: PasswordEncoder

    ghost predicate Valid()
      reads this
    {
      WellFormed(users) && forall id :: id in users ==> id < nextId
    }

    constructor (encoder: PasswordEncoder, seededRoles: set<RoleName>)
      ensures Valid()
      ensures this.encoder == encoder && users == map[] && roles == seededRoles
    {
      this.encoder := encoder;
      users := map[];
      roles := seededRoles;
      nextId := 1;
    }

    /** `getAll`: every stored user. */
    function GetAll(): (r: set<User>)
      requires Valid()
      reads this
      ensures forall u :: u in r <==> u.id in users && users[u.id] == u
    {
      users.Values
    }

    /** `getById`: the stored user, or NoSuchElementException("User not found"). */
    function GetById(id: UserId): (r: Result<User>)
      requires Valid()
      reads this
      ensures r.Ok? <==> id in users
      ensures r.Ok? ==> r.value == users[id] && r.value.id == id
      ensures r.Err? ==> r.error == UserNotFound
    {
      if id in users then Ok(users[id]) else Err(UserNotFound)
    }

    /** `save`: registers a new user with the encoded password and role USER. */
    method Save(dto: UserRequest) returns (r: Result<User>)
      requires Valid()
      modifies this
      ensures Valid() && roles == old(roles)
      ensures ExistsByUsername(old(users), dto.username) ==>
                r == Err(UsernameTaken) && users == old(users) && nextId == old(nextId)
      ensures !ExistsByUsername(old(users), dto.username) && USER !in roles ==>
                r == Err(DefaultRoleMissing) && users == old(users) && nextId == old(nextId)
      ensures !ExistsByUsername(old(users), dto.username) && USER in roles ==>
                && r == Ok(User(old(nextId), dto.username, encoder.encode(dto.password), USER))
                && users == old(users)[old(nextId) := r.value]
                && nextId == old(nextId) + 1
      ensures forall auth: Option<Authentication>, k: UserId {:trigger HasAccess(auth, users, k)} :: k != old(nextId) ==>
                HasAccess(auth, users, k) == HasAccess(auth, old(users), k)
    {
      if ExistsByUsername(users, dto.username) {
        return Err(UsernameTaken);
      }
      if USER !in roles {
        return Err(DefaultRoleMissing);
      }
      var user := User(nextId, dto.username, encoder.encode(dto.password), USER);
      forall auth: Option<Authentication>, k: UserId | k != nextId
        ensures HasAccess(auth, users[nextId := user], k) == HasAccess(auth, users, k)
      {
        RegistrationKeepsOtherAccess(auth, users, user, k);
      }
      users := users[nextId := user];
      nextId := nextId + 1;
      r := Ok(user);
    }

    /** `updatePassword`: validates, then stores the encoding of the new password. */
    method UpdatePassword(id: UserId, dto: PasswordChange) returns (r: Result<User>)
      requires Valid()
      modifies this
      ensures Valid() && roles == old(roles) && nextId == old(nextId)
      ensures id !in old(users) ==> r == Err(UserNotFound) && users == old(users)
      ensures id in old(users) && ValidatePasswords(encoder, dto.oldPassword, dto.newPassword, old(users)[id]).Fail? ==>
                && r == Err(ValidatePasswords(encoder, dto.oldPassword, dto.newPassword, old(users)[id]).error)
                && users == old(users)
      ensures id in old(users) && ValidatePasswords(encoder, dto.oldPassword, dto.newPassword, old(users)[id]) == Pass ==>
                && r == Ok(old(users)[id].(password := encoder.encode(dto.newPassword)))
                && users == old(users)[id := r.value]
    {
      var found := GetById(id);
      if found.Err? {
        return Err(found.error);
      }
      var user := found.value;
      var check := ValidatePasswords(encoder, dto.oldPassword, dto.newPassword, user);
      if check.Fail? {
        return Err(check.error);
      }
      user := user.(password := encoder.encode(dto.newPassword));
      users := users[id := user];
      r := Ok(user);
    }

    /** `deleteById`: removes exactly that user, or throws "User not found". */
    method DeleteById(id: UserId) returns (r: Outcome)
      requires Valid()
      modifies this
      ensures Valid() && roles == old(roles) && nextId == old(nextId)
      ensures id in old(users) ==> r == Pass && users == old(users) - {id}
      ensures id !in old(users) ==> r == Fail(UserNotFound) && users == old(users)
    {
      var found := GetById(id);
      if found.Err? {
        return Fail(found.error);
      }
      users := users - {id};
      r := Pass;
    }
  }
}
