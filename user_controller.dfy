/** `UserController`: the authorization policy on each /users endpoint and the
    handlers that delegate to the user service and answer through `fromUser`. */
module UserController {
  import opened Common
  import opened Accounts
  import opened UserResponseDto
  import opened UserDetailsServiceImpl
  import opened UserSecurityService
  import opened UserService

  /** The filter chain's `anyRequest().authenticated()`: every /users request needs an
      authenticated session whose principal is a logged-in user. The anonymous
      token is not one: it is `None`, or a principal that is not a `UserDetails`. */
  function Authenticated(auth: Option<Authentication>): (r: bool)
    ensures auth.None? ==> !r
    ensures auth.Some? && !auth.value.authenticated ==> !r
    ensures auth.Some? && auth.value.principal.OtherPrincipal? ==> !r
    ensures r ==> auth.value.principal.UserDetails?
  {
    auth.Some? && auth.value.authenticated && auth.value.principal.UserDetails?
  }

  /** The expression `hasRole(role)`: the session holds the authority "ROLE_" + role. */
  function HasRole(auth: Option<Authentication>, role: string): (r: bool)
    ensures auth.None? ==> !r
    ensures r <==> auth.Some? && exists i :: 0 <= i < |auth.value.authorities| && auth.value.authorities[i] == "ROLE_" + role
  {
    auth.Some? && ("ROLE_" + role) in auth.value.authorities
  }

  /** GET /users: `hasRole('ADMIN')`. */
  function MayListUsers(auth: Option<Authentication>): (r: bool)
    ensures r <==> auth.Some? && "ROLE_ADMIN" in auth.value.authorities
  {
    assert "ROLE_" + "ADMIN" == "ROLE_ADMIN";
    HasRole(auth, "ADMIN")
  }

  /** PUT /users/{id}: `@userSecurityService.hasAccess(#id)` and nothing else. */
  function MayUpdatePassword(auth: Option<Authentication>, users: map<UserId, User>, id: UserId): (r: bool)
    requires WellFormed(users)
    ensures r <==> && auth.Some? && auth.value.authenticated && auth.value.principal.UserDetails?
                   && id in users && users[id].username == auth.value.principal.username
  {
    HasAccess(auth, users, id)
  }

  /** DELETE /users/{id}: `hasRole('ADMIN') or @userSecurityService.hasAccess(#id)`. */
  function MayDeleteUser(auth: Option<Authentication>, users: map<UserId, User>, id: UserId): (r: bool)
    requires WellFormed(users)
    ensures r <==> || (auth.Some? && "ROLE_ADMIN" in auth.value.authorities)
                   || (&& auth.Some? && auth.value.authenticated && auth.value.principal.UserDetails?
                       && id in users && users[id].username == auth.value.principal.username)
  {
    assert "ROLE_" + "ADMIN" == "ROLE_ADMIN";
    HasRole(auth, "ADMIN") || HasAccess(auth, users, id)
  }

  /** The session that HTTP Basic authentication builds from a loaded user. */
  function SessionOf(d: LoadedUser): (r: Option<Authentication>)
    ensures Authenticated(r)
    ensures r.value.principal.username == d.username && r.value.authorities == d.authorities
  {
    Some(Authentication(true, UserDetails(d.username), d.authorities))
  }

  /** The session of a request authenticated as the stored user `me`. */
  function SessionOfUser(users: map<UserId, User>, me: UserId): (r: Option<Authentication>)
    requires WellFormed(users) && me in users
    ensures Authenticated(r)
    ensures r.value.principal.username == users[me].username
    ensures r.value.authorities == [Authority(users[me].role)]
  {
    LoadedUserMirrorsRow(users, me);
    SessionOf(LoadUserByUsername(users, users[me].username).value)
  }

  /** For a session established from the stored user `me`, the three gates reduce to
      the controller's `@PreAuthorize` rules: listing is for ADMIN only; changing a password is for the
      owner only, with no override for ADMIN; deleting is for ADMIN or the owner. */
  lemma SessionPolicy(users: map<UserId, User>, me: UserId, id: UserId)
    requires WellFormed(users) && me in users
    ensures MayListUsers(SessionOfUser(users, me)) <==> users[me].role == ADMIN
    ensures MayUpdatePassword(SessionOfUser(users, me), users, id) <==> me == id
    ensures MayDeleteUser(SessionOfUser(users, me), users, id) <==> users[me].role == ADMIN || me == id
  {
  }

  /** An ADMIN who is not the owner is refused a password change, and a caller with
      neither the role nor ownership is refused a deletion. */
  lemma AdminHasNoPasswordOverride(auth: Authentication, users: map<UserId, User>, id: UserId)
    requires WellFormed(users)
    requires auth.authenticated && auth.principal.UserDetails?
    requires id !in users || users[id].username != auth.principal.username
    ensures !MayUpdatePassword(Some(auth), users, id)
    ensures MayDeleteUser(Some(auth), users, id) <==> HasRole(Some(auth), "ADMIN")
  {
    HasAccessIffOwner(auth, users, id);
  }

  /** Without a session every gate is closed. */
  lemma AnonymousIsDenied(users: map<UserId, User>, id: UserId)
    requires WellFormed(users)
    ensures !Authenticated(None) && !MayListUsers(None)
    ensures !MayUpdatePassword(None, users, id) && !MayDeleteUser(None, users, id)
  {
  }

  /** GET /users: every user, each through `fromUser`. */
  function GetAllUsers(svc: UserService, auth: Option<Authentication>): (r: Result<set<UserResponse>>)
    requires svc.Valid()
    reads svc
    ensures !Authenticated(auth) ==> r == Err(Unauthenticated)
    ensures Authenticated(auth) && !MayListUsers(auth) ==> r == Err(AccessDenied)
    ensures r.Ok? ==> MayListUsers(auth)
    ensures Authenticated(auth) && MayListUsers(auth) ==> r.Ok?
    ensures r.Ok? ==> forall x :: x in r.value <==> exists id :: id in svc.users && x == FromUser(svc.users[id])
  {
    if !Authenticated(auth) then Err(Unauthenticated)
    else if !MayListUsers(auth) then Err(AccessDenied)
    else Ok(set u | u in svc.GetAll() :: FromUser(u))
  }

  /** GET /users/{id}: any authenticated caller, no role or ownership gate. */
  function GetUser(svc: UserService, auth: Option<Authentication>, id: UserId): (r: Result<UserResponse>)
    requires svc.Valid()
    reads svc
    ensures !Authenticated(auth) ==> r == Err(Unauthenticated)
    ensures Authenticated(auth) && id !in svc.users ==> r == Err(UserNotFound)
    ensures Authenticated(auth) && id in svc.users ==> r == Ok(FromUser(svc.users[id]))
  {
    if !Authenticated(auth) then Err(Unauthenticated)
    else match svc.GetById(id)
      case Err(e) => Err(e)
      case Ok(u) => Ok(FromUser(u))
  }

  /** PUT /users/{id}: the owner changes their own password. */
  method UpdatePassword(svc: UserService, auth: Option<Authentication>, id: UserId, dto: PasswordChange)
    returns (r: Result<UserResponse>)
    requires svc.Valid()
    modifies svc
    ensures svc.Valid() && svc.roles == old(svc.roles) && svc.nextId == old(svc.nextId)
    ensures !Authenticated(auth) ==> r == Err(Unauthenticated) && svc.users == old(svc.users)
    ensures Authenticated(auth) && !MayUpdatePassword(auth, old(svc.users), id) ==>
              r == Err(AccessDenied) && svc.users == old(svc.users)
    ensures Authenticated(auth) && MayUpdatePassword(auth, old(svc.users), id) ==>
              && id in old(svc.users)
              && (ValidatePasswords(svc.encoder, dto.oldPassword, dto.newPassword, old(svc.users)[id]) == Pass <==> r.Ok?)
              && (ValidatePasswords(svc.encoder, dto.oldPassword, dto.newPassword, old(svc.users)[id]).Fail? ==>
                    r == Err(ValidatePasswords(svc.encoder, dto.oldPassword, dto.newPassword, old(svc.users)[id]).error))
    ensures r.Ok? ==> && MayUpdatePassword(auth, old(svc.users), id)
                      && id in svc.users && r.value == FromUser(svc.users[id])
                      && svc.users == old(svc.users)[id := svc.users[id]]
                      && svc.users[id] == old(svc.users)[id].(password := svc.encoder.encode(dto.newPassword))
    ensures r.Ok? && AcceptsOwnEncoding(svc.encoder) && RejectsOtherPlaintexts(svc.encoder) ==>
              && svc.encoder.matches(dto.newPassword, svc.users[id].password)
              && !svc.encoder.matches(dto.oldPassword, svc.users[id].password)
    ensures r.Err? && r.error != Unauthenticated && r.error != AccessDenied ==> svc.users == old(svc.users)
  {
    if !Authenticated(auth) {
      return Err(Unauthenticated);
    }
    if !MayUpdatePassword(auth, svc.users, id) {
      return Err(AccessDenied);
    }
    ghost var before := svc.users;
    var updated := svc.UpdatePassword(id, dto);
    match updated
    case Err(e) =>
      r := Err(e);
    case Ok(u) =>
      if AcceptsOwnEncoding(svc.encoder) && RejectsOtherPlaintexts(svc.encoder) {
        AcceptedChangeRotatesCredential(svc.encoder, before[id], dto.oldPassword, dto.newPassword);
      }
      r := Ok(FromUser(u));
  }

  /** DELETE /users/{id}: ADMIN or the owner. */
  method DeleteUser(svc: UserService, auth: Option<Authentication>, id: UserId) returns (r: Outcome)
    requires svc.Valid()
    modifies svc
    ensures svc.Valid() && svc.roles == old(svc.roles) && svc.nextId == old(svc.nextId)
    ensures !Authenticated(auth) ==> r == Fail(Unauthenticated) && svc.users == old(svc.users)
    ensures Authenticated(auth) && !MayDeleteUser(auth, old(svc.users), id) ==>
              r == Fail(AccessDenied) && svc.users == old(svc.users)
    ensures Authenticated(auth) && MayDeleteUser(auth, old(svc.users), id) && id !in old(svc.users) ==>
              r == Fail(UserNotFound) && svc.users == old(svc.users)
    ensures r == Pass <==> Authenticated(auth) && MayDeleteUser(auth, old(svc.users), id) && id in old(svc.users)
    ensures r == Pass ==> svc.users == old(svc.users) - {id}
    ensures forall a: Option<Authentication>, k: UserId {:trigger HasAccess(a, svc.users, k)} :: k != id ==>
              HasAccess(a, svc.users, k) == HasAccess(a, old(svc.users), k)
  {
    if !Authenticated(auth) {
      return Fail(Unauthenticated);
    }
    if !MayDeleteUser(auth, svc.users, id) {
      return Fail(AccessDenied);
    }
    ghost var before := svc.users;
    r := svc.DeleteById(id);
    forall a: Option<Authentication>, k: UserId | k != id
      ensures HasAccess(a, before - {id}, k) == HasAccess(a, before, k)
    {
      DeletionKeepsOtherAccess(a, before, id, k);
    }
  }
}
