/**
  The session gates of `lms-api/middleware/auth.js`. Each middleware looks at the
  session and ends in exactly one of three ways: it hands the request on (`next()`),
  redirects, or answers 403.
*/
module Auth {
  import opened Common

  /** What the login handler stores in the session; an absent or zero `userId` is falsy. */
  datatype Session = Session(userId: Option<int>, role: string)

  datatype Outcome = Next | Redirect(location: string) | Denied(status: int)

  const LoginPage: string := "/login"

  /** A session exists and its user id is present and non-zero. */
  predicate LoggedIn(session: Option<Session>) {
    session.Some? && session.value.userId.Some? && session.value.userId.value != 0
  }

  function Dashboard(role: string): string {
    "/" + role + "/dashboard"
  }

  /** `requireAuth`. */
  function RequireAuth(session: Option<Session>): (r: Outcome)
    ensures r == Next <==> LoggedIn(session)
    ensures r != Next ==> r == Redirect(LoginPage)
  {
    if LoggedIn(session) then Next else Redirect(LoginPage)
  }

  /** `requireRole(role)`: the login check comes before the role check, and the role
      must be exactly the required one. */
  function RequireRole(role: string, session: Option<Session>): (r: Outcome)
    ensures r == Next <==> RequireAuth(session) == Next && session.value.role == role
    ensures RequireAuth(session) != Next ==> r == RequireAuth(session)
    ensures r == Denied(Forbidden) <==> LoggedIn(session) && session.value.role != role
    ensures r == Next || r == Redirect(LoginPage) || r == Denied(Forbidden)
  {
    if !LoggedIn(session) then Redirect(LoginPage)
    else if session.value.role != role then Denied(Forbidden)
    else Next
  }

  /** `redirectIfAuthenticated`: the opposite gate, for the login and register pages. */
  function RedirectIfAuthenticated(session: Option<Session>): (r: Outcome)
    ensures r == Next <==> RequireAuth(session) != Next
    ensures r != Next ==> r == Redirect(Dashboard(session.value.role))
  {
    if LoggedIn(session) then Redirect(Dashboard(session.value.role)) else Next
  }

  /** No redirect loop: a session sent to its dashboard passes the gate of that
      dashboard's routes, and a session sent to the login page is let through there. */
  lemma GatesAgree(session: Option<Session>)
    ensures RedirectIfAuthenticated(session).Redirect? ==> RequireRole(session.value.role, session) == Next
    ensures RequireAuth(session) == Redirect(LoginPage) ==> RedirectIfAuthenticated(session) == Next
  {
  }
}
