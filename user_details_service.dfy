/** `UserDetailsServiceImpl.loadUserByUsername`: the credentials and the
    single authority Spring Security authenticates a session with. */
module UserDetailsServiceImpl {
  import opened Common
  import opened Accounts

  /** Spring's `org.springframework.security.core.userdetails.User`. */
  datatype LoadedUser = LoadedUser(username: string, password: string, authorities: seq<string>)

  /** The authority string for a role: "ROLE_" followed by the enum name. */
  function Authority(r: RoleName): (s: string)
    ensures |s| > 5 && s[..5] == "ROLE_"
    ensures s == "ROLE_ADMIN" <==> r == ADMIN
    ensures s == "ROLE_USER" <==> r == USER
  {
    "ROLE_" + RoleNameString(r)
  }

  /** Looks the username up; an unknown name raises UsernameNotFoundException("User not found"). */
  function LoadUserByUsername(users: map<UserId, User>, username: string): (r: Result<LoadedUser>)
    requires WellFormed(users)
    ensures r.Err? <==> !ExistsByUsername(users, username)
    ensures r.Err? ==> r.error == UsernameNotFound("User not found")
    ensures r.Ok? ==> exists id :: id in users && users[id].username == username
                                 && r.value == LoadedUser(username, users[id].password, [Authority(users[id].role)])
  {
    match FindByUsername(users, username)
    case None => Err(UsernameNotFound("User not found"))
    case Some(u) => Ok(LoadedUser(u.username, u.password, [Authority(u.role)]))
  }

  /** The loaded credentials are exactly the stored username and hash, and the
      one authority holds "ROLE_ADMIN" exactly when the stored role is ADMIN. */
  lemma LoadedUserMirrorsRow(users: map<UserId, User>, id: UserId)
    requires WellFormed(users) && id in users
    ensures LoadUserByUsername(users, users[id].username).Ok?
    ensures var d := LoadUserByUsername(users, users[id].username).value;
            && d.username == users[id].username
            && d.password == users[id].password
            && |d.authorities| == 1
            && ("ROLE_ADMIN" in d.authorities <==> users[id].role == ADMIN)
            && ("ROLE_USER" in d.authorities <==> users[id].role == USER)
  {
    FindByUsernameIsRowWithName(users, users[id].username, id);
    assert Authority(USER) == "ROLE_USER" && Authority(ADMIN) == "ROLE_ADMIN";
  }
}
