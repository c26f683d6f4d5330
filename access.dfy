/** Who the request runs as, and the `admin_only` guard in front of the
    post-management routes. */
module Access {
  import opened Records

  /** flask-login's `current_user.is_authenticated`: the session names a user
      id and the user loader finds that user. An id without a row resolves to
      the anonymous user. */
  predicate IsAuthenticated(users: map<nat, User>, session: Identity): (authenticated: bool)
    ensures session.Anonymous? ==> !authenticated
    ensures session.Authenticated? && session.userId !in users ==> !authenticated
    ensures authenticated ==> session == Authenticated(session.userId) && session.userId in users
  {
    session.Authenticated? && session.userId in users
  }

  /** The test of the `admin_only` decorator: the wrapped handler runs only
      for an authenticated user whose role is AdminRole; otherwise 403. */
  function AdminOnly(users: map<nat, User>, session: Identity): (allowed: bool)
    ensures session.Anonymous? ==> !allowed
    ensures allowed ==> session.userId in users && users[session.userId].role == AdminRole
    ensures IsAuthenticated(users, session) && users[session.userId].role != AdminRole ==> !allowed
    ensures IsAuthenticated(users, session) && users[session.userId].role == AdminRole ==> allowed
  {
    IsAuthenticated(users, session) && users[session.userId].role == AdminRole
  }

  /** The promotion test of the login handler: a non-empty code equal to
      AdminCode, on a user who is not already an admin. */
  function Promotes(role: string, code: string): (promote: bool)
    ensures promote <==> code == AdminCode && role != AdminRole
  {
    code != "" && code == AdminCode && role != AdminRole
  }
}
