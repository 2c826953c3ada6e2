/** The route guard (src/components/RequireAuth.tsx). */
module RequireAuth {
  import opened Wrappers
  import opened Common

  datatype Outcome = RedirectToLogin | RedirectHome | Render

  /** A route's required role counts only when it is a non-empty string. */
  function Decide(user: Option<Caller>, role: Option<string>): (o: Outcome)
    ensures o == RedirectToLogin <==> user.None?
    ensures o == RedirectHome <==> user.Some? && Truthy(role) && user.value.role != role.value
    ensures o == Render <==> user.Some? && (!Truthy(role) || user.value.role == role.value)
  {
    if user.None? then RedirectToLogin
    else if Truthy(role) && user.value.role != role.value then RedirectHome
    else Render
  }

  /** An administrator route renders only for administrators. */
  lemma AdminRouteOnlyForAdmins(user: Caller)
    ensures Decide(Some(user), Some(ADMIN)) == Render <==> IsAdmin(user)
  {
  }
}
