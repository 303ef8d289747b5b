/** `UserSecurityService.hasAccess`: whether the session's user is the user
    with the requested id. */
module UserSecurityService {
  import opened Common
  import opened Accounts

  /** The principal object of an Authentication: a UserDetails with its
      username, or an object of some other class. */
  datatype Principal = UserDetails(username: string) | OtherPrincipal

  /** The Authentication in the security context. */
  datatype Authentication = Authentication(authenticated: bool, principal: Principal, authorities: seq<string>)

  /** The ownership decision; it only reads the user table. */
  function HasAccess(auth: Option<Authentication>, users: map<UserId, User>, id: UserId): (r: bool)
    requires WellFormed(users)
    ensures auth.None? ==> !r
    ensures auth.Some? && !auth.value.authenticated ==> !r
    ensures auth.Some? && auth.value.principal.OtherPrincipal? ==> !r
    ensures (auth.Some? && auth.value.principal.UserDetails?
             && !ExistsByUsername(users, auth.value.principal.username)) ==> !r
    ensures r ==> && auth.Some? && auth.value.authenticated && auth.value.principal.UserDetails?
                  && id in users && users[id].username == auth.value.principal.username
  {
    if auth.None? || !auth.value.authenticated then
      false
    else if !auth.value.principal.UserDetails? then
      false
    else
      match FindByUsername(users, auth.value.principal.username)
      case None => false
      case Some(user) => user.id == id
  }

  /** With an authenticated UserDetails principal, access holds exactly when the
      requested id is stored under the session's username: true for oneself,
      false for every other user. */
  lemma HasAccessIffOwner(auth: Authentication, users: map<UserId, User>, id: UserId)
    requires WellFormed(users)
    requires auth.authenticated && auth.principal.UserDetails?
    ensures HasAccess(Some(auth), users, id) <==> id in users && users[id].username == auth.principal.username
  {
  }

  /** Access is granted for at most one id per session. */
  lemma HasAccessAtMostOneId(auth: Option<Authentication>, users: map<UserId, User>, a: UserId, b: UserId)
    requires WellFormed(users)
    requires HasAccess(auth, users, a) && HasAccess(auth, users, b)
    ensures a == b
  {
  }

  /** Registering a new user under a fresh id and a free username changes no
      other user's access: each session keeps exactly the grants it had. */
  lemma RegistrationKeepsOtherAccess(auth: Option<Authentication>, users: map<UserId, User>, u: User, id: UserId)
    requires WellFormed(users)
    requires u.id !in users && !ExistsByUsername(users, u.username)
    requires id != u.id
    ensures WellFormed(users[u.id := u])
    ensures HasAccess(auth, users[u.id := u], id) == HasAccess(auth, users, id)
  {
    var after := users[u.id := u];
    if auth.Some? && auth.value.authenticated && auth.value.principal.UserDetails? {
      HasAccessIffOwner(auth.value, users, id);
      HasAccessIffOwner(auth.value, after, id);
    }
  }

  /** Deleting one user changes no other user's access. */
  lemma DeletionKeepsOtherAccess(auth: Option<Authentication>, users: map<UserId, User>, gone: UserId, id: UserId)
    requires WellFormed(users)
    requires id != gone
    ensures WellFormed(users - {gone})
    ensures HasAccess(auth, users - {gone}, id) == HasAccess(auth, users, id)
  {
    if auth.Some? && auth.value.authenticated && auth.value.principal.UserDetails? {
      HasAccessIffOwner(auth.value, users, id);
      HasAccessIffOwner(auth.value, users - {gone}, id);
    }
  }
}
