/** The caller identity that the authentication component hands to every query and mutation.
    The model receives it as an explicit parameter instead of reading an ambient session. */
module Identity {
  import opened Wrappers

  type UserId = string

  /** An authenticated user record: its id and its display name (empty when absent). */
  datatype AuthUser = AuthUser(id: UserId, name: string)

  /** The user id of a caller, as the draft operations read it: a missing user and a user
      whose id is empty both count as unauthenticated (`!authUser || !authUser._id`). */
  function AuthId(caller: Option<AuthUser>): (r: Option<UserId>)
    ensures r.Some? <==> caller.Some? && caller.value.id != ""
    ensures r.Some? ==> r.value == caller.value.id && r.value != ""
  {
    if caller.Some? && caller.value.id != "" then Some(caller.value.id) else None
  }
}
