/** The session and the route guards of middleware/auth.js. */
module Guards {
  import opened Common
  import opened Constants

  /** What `req.session.user` holds once someone has logged in. */
  datatype SessionUser = SessionUser(id: Id, email: string, firstName: string, lastName: string, role: Role)

  /** How a guard ends a request: pass it on, redirect it, or answer 403. */
  datatype Outcome = Next | RedirectTo(path: string) | Denied

  class Session {
    var user: Option<SessionUser>
    var returnTo: Option<string>

    constructor ()
      ensures user.None? && returnTo.None?
    {
      user, returnTo := None, None;
    }
  }

  /** `isAuthenticated`: pass when logged in; otherwise remember the URL
      asked for and send the visitor to the login page. */
  method IsAuthenticated(session: Session, originalUrl: string) returns (o: Outcome)
    modifies session
    ensures session.user == old(session.user)
    ensures o == Next <==> session.user.Some?
    ensures session.user.Some? ==> session.returnTo == old(session.returnTo)
    ensures session.user.None? ==> o == RedirectTo("/login") && session.returnTo == Some(originalUrl)
  {
    if session.user.Some? {
      return Next;
    }
    session.returnTo := Some(originalUrl);
    return RedirectTo("/login");
  }

  /** `isNotAuthenticated`: only visitors who are not logged in reach the
      login and register pages; others go home. */
  function IsNotAuthenticated(user: Option<SessionUser>): (o: Outcome)
    ensures o == Next <==> user.None?
    ensures o != Next ==> o == RedirectTo("/")
  {
    if user.Some? then RedirectTo("/") else Next
  }

  /** The role guards: pass iff someone is logged in with one of the roles. */
  function RequireRole(user: Option<SessionUser>, allowed: set<Role>): (o: Outcome)
    ensures o == Next <==> user.Some? && user.value.role in allowed
    ensures o != Next ==> o == Denied
  {
    if user.Some? && user.value.role in allowed then Next else Denied
  }

  function IsClient(user: Option<SessionUser>): (o: Outcome)
    ensures o == Next <==> user.Some? && user.value.role == Client
    ensures o != Next ==> o == Denied
  {
    RequireRole(user, {Client})
  }

  function IsWorker(user: Option<SessionUser>): (o: Outcome)
    ensures o == Next <==> user.Some? && user.value.role == Worker
    ensures o != Next ==> o == Denied
  {
    RequireRole(user, {Worker})
  }

  function IsAdmin(user: Option<SessionUser>): (o: Outcome)
    ensures o == Next <==> user.Some? && user.value.role == Admin
    ensures o != Next ==> o == Denied
  {
    RequireRole(user, {Admin})
  }

  function IsWorkerOrAdmin(user: Option<SessionUser>): (o: Outcome)
    ensures o == Next <==> user.Some? && (user.value.role == Worker || user.value.role == Admin)
    ensures o != Next ==> o == Denied
  {
    RequireRole(user, {Worker, Admin})
  }

  /** Every logged-in user passes exactly one of the three single-role
      guards, and the worker-or-admin guard is the union of two of them. */
  lemma RoleGuardsPartition(user: Option<SessionUser>)
    ensures user.Some? ==>
      (IsClient(user) == Next) != (IsWorker(user) == Next || IsAdmin(user) == Next)
    ensures !(IsWorker(user) == Next && IsAdmin(user) == Next)
    ensures IsWorkerOrAdmin(user) == Next <==> IsWorker(user) == Next || IsAdmin(user) == Next
    ensures user.None? ==> IsClient(user) == Denied && IsWorkerOrAdmin(user) == Denied
  {
  }
}
