/**
 * The `role_required` decorator (app/routes.py:17-28): the wrapped handler
 * runs only for a logged-in user whose role is the one required; anyone else
 * is refused with 403.
 */
module Access {
  import opened Common

  /** The role the dashboard and the global leaderboard require (app/routes.py:37, 226, 253). */
  const Professor: string := "profesor"

  /** Flask-Login's current user; a user document may carry no role, which reads as `None`. */
  datatype Principal = Anonymous | Authenticated(username: string, role: Option<string>)

  datatype Decision = Forbidden | Proceed

  /** The guard's test: refuse unless authenticated, and refuse a role other than `role`. */
  function RoleRequired(user: Principal, role: string): (d: Decision)
    ensures d == Proceed ==> user.Authenticated?
    ensures user.Authenticated? ==> (d == Proceed <==> user.role == Some(role))
  {
    if !user.Authenticated? || user.role != Some(role) then Forbidden else Proceed
  }

  /**
   * The dashboard and the global leaderboard, both guarded by `role_required('profesor')`,
   * admit exactly the authenticated users whose role is `profesor`; a user with no role,
   * or a student, is refused.
   */
  lemma ProfessorPagesAdmitOnlyProfessors(user: Principal)
    ensures RoleRequired(user, Professor) == Proceed <==> user.Authenticated? && user.role == Some("profesor")
    ensures user.Authenticated? && user.role == None ==> RoleRequired(user, Professor) == Forbidden
  {
  }

  /** A minor corollary of the guard: no user passes it for two different roles. */
  lemma OneRoleAtATime(user: Principal, r1: string, r2: string)
    requires RoleRequired(user, r1) == Proceed && RoleRequired(user, r2) == Proceed
    ensures r1 == r2
  {
  }
}
