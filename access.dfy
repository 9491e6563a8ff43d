/** The role gate `checkRole(...allowedRoles)` of
    server/middleware/checkRole.js: a signed-in identity whose role is
    listed, or any signed-in identity when nothing is listed, passes on to
    the handler; the rest are answered 401 or 403. */
module Access {
  import opened Wrappers
  import opened Models

  /** What the gate does with a request: hand it on, or answer with an error. */
  datatype Decision = Next | Deny(error: ApiError)

  const NotAuthenticated: ApiError := ApiError(401, "Not authenticated")

  function CheckRole(allowed: seq<string>, user: Option<User>): (d: Decision)
    ensures d == Deny(NotAuthenticated) <==> user.None?
    ensures d == Next <==> user.Some? && (allowed == [] || user.value.adminType in allowed)
    ensures d == Deny(InsufficientPermissions) <==> user.Some? && allowed != [] && user.value.adminType !in allowed
  {
    if user.None? then Deny(NotAuthenticated)
    else if |allowed| == 0 then Next
    else if user.value.adminType !in allowed then Deny(InsufficientPermissions)
    else Next
  }

  /** Listing more roles never turns away a request that was let through. */
  lemma CheckRoleWidening(allowed: seq<string>, wider: seq<string>, user: Option<User>)
    requires allowed != [] && forall role :: role in allowed ==> role in wider
    requires CheckRole(allowed, user) == Next
    ensures CheckRole(wider, user) == Next
  {
  }

  /** The gate looks only at the role: two identities with the same role are
      treated alike, whatever their club or member. */
  lemma CheckRoleByRole(allowed: seq<string>, a: User, b: User)
    requires a.adminType == b.adminType
    ensures CheckRole(allowed, Some(a)) == CheckRole(allowed, Some(b))
  {
  }

  /** The handlers' own check on a club: a System or Club Admin, or a
      Member Admin whose token names that club (the members handlers for the
      club in the body, the clubs handlers for the club addressed). */
  predicate MayUseClub(user: User, club: Id) {
    || user.adminType == SystemAdmin
    || user.adminType == ClubAdmin
    || (user.adminType == MemberAdmin && Some(club) == user.clubId)
  }

  /** The roles the club registry lets create and delete clubs. */
  const ClubManagers: seq<string> := [SystemAdmin, ClubAdmin]

  /** The role the admin registry is reserved to. */
  const AdminManagers: seq<string> := [SystemAdmin]
}
