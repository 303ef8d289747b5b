/** `UserResponseDTO`: the view of a user that leaves the service. */
module UserResponseDto {
  import opened Accounts

  /** The response record: id, username and role name, and no password component. */
  datatype UserResponse = UserResponse(id: UserId, username: string, role: RoleName)

  /** `UserResponseDTO.fromUser`: the projection that drops the hash. */
  function FromUser(u: User): (r: UserResponse)
    ensures r.id == u.id && r.username == u.username && r.role == u.role
  {
    UserResponse(u.id, u.username, u.role)
  }

  /** The response never depends on the stored hash. */
  lemma FromUserIgnoresPassword(u: User, hash: string)
    ensures FromUser(u.(password := hash)) == FromUser(u)
  {
  }

  /** Two users give the same response exactly when they differ at most in their hash,
      so the projection loses the hash and nothing else. */
  lemma FromUserForgetsOnlyPassword(a: User, b: User)
    ensures FromUser(a) == FromUser(b) <==> a == b.(password := a.password)
  {
  }
}
