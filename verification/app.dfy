/** The application's routes and their access guards. Every guard reads the
    session snapshot, never the stored user records. */
module App {
  import opened Types
  import opened Seqs
  import opened Db
  import AdminDashboard

  /** The route table's paths; `AdminPath` and `MentorPath` stand for their
      whole subtrees and `OtherPath` for every path no route matches. */
  datatype Path = LoginPath | RegisterPath | DashboardPath | AdminPath | MentorPath
                | CoursePath(courseId: Id) | RootPath | OtherPath

  datatype Page = LoginPage | RegisterPage | AdminDashboardPage | MentorDashboardPage
                | StudentDashboardPage | CourseViewPage(courseId: Id)

  /** What a route produces: a redirect, a page, the signed-in layout around
      something, or nothing at all. */
  datatype View = Redirect(to: Path) | Render(page: Page) | InLayout(inner: View) | Nothing

  /** The page a view finally shows, if any. */
  function RenderedPage(v: View): Option<Page> {
    match v
    case Render(p) => Some(p)
    case InLayout(inner) => RenderedPage(inner)
    case _ => None
  }

  /** The role a dashboard page is meant for. */
  function PageRole(p: Page): Option<UserRole> {
    match p
    case AdminDashboardPage => Some(Admin)
    case MentorDashboardPage => Some(Mentor)
    case StudentDashboardPage => Some(Student)
    case _ => None
  }

  /** Any session gets the layout around the child; none goes to /login. */
  function PrivateRoute(session: Option<User>, child: View): (r: View)
    ensures session.None? ==> r == Redirect(LoginPath)
    ensures session.Some? ==> r.InLayout? && RenderedPage(r) == RenderedPage(child)
    ensures RenderedPage(r).Some? ==> session.Some?
  {
    if session.None? then Redirect(LoginPath) else InLayout(child)
  }

  /** No session goes to /login, another role to /dashboard; the matching
      role gets the child. */
  function RoleRoute(session: Option<User>, role: UserRole, child: View): (r: View)
    ensures session.None? ==> r == Redirect(LoginPath)
    ensures session.Some? && session.value.role != role ==> r == Redirect(DashboardPath)
    ensures RenderedPage(r).Some? <==>
              session.Some? && session.value.role == role && RenderedPage(child).Some?
    ensures RenderedPage(r).Some? ==> RenderedPage(r) == RenderedPage(child)
  {
    if session.None? then Redirect(LoginPath)
    else if session.value.role != role then Redirect(DashboardPath)
    else child
  }

  /** The shared dashboard route: each role gets its own dashboard. */
  function DashboardRouter(session: Option<User>): (r: View)
    ensures session.None? ==> r == Redirect(LoginPath)
    ensures session.Some? ==>
              RenderedPage(r).Some? && PageRole(RenderedPage(r).value) == Some(session.value.role)
  {
    match session
    case None => Redirect(LoginPath)
    case Some(u) =>
      match u.role
      case Admin => Render(AdminDashboardPage)
      case Mentor => Render(MentorDashboardPage)
      case Student => Render(StudentDashboardPage)
  }

  /** The route table. A dashboard is only ever shown to its own role, a
      visitor without a session only ever sees the login and registration
      pages and is sent to /login from every guarded path, and a course page
      needs a session of any role. */
  function Route(path: Path, session: Option<User>): (r: View)
    ensures path == LoginPath ==> RenderedPage(r) == Some(LoginPage)
    ensures path == RegisterPath ==> RenderedPage(r) == Some(RegisterPage)
    ensures session.None? && (path in {DashboardPath, AdminPath, MentorPath} || path.CoursePath?) ==>
              r == Redirect(LoginPath)
    ensures session.Some? && path == DashboardPath ==>
              r.InLayout? && RenderedPage(r).Some? &&
              PageRole(RenderedPage(r).value) == Some(session.value.role)
    ensures session.Some? && path == AdminPath && session.value.role == Admin ==>
              r.InLayout? && RenderedPage(r) == Some(AdminDashboardPage)
    ensures session.Some? && path == MentorPath && session.value.role == Mentor ==>
              r.InLayout? && RenderedPage(r) == Some(MentorDashboardPage)
    ensures RenderedPage(r).Some? && PageRole(RenderedPage(r).value).Some? ==>
              session.Some? && Some(session.value.role) == PageRole(RenderedPage(r).value)
    ensures session.None? ==>
              RenderedPage(r) == None || RenderedPage(r) == Some(LoginPage) ||
              RenderedPage(r) == Some(RegisterPage)
    ensures session.Some? && path.CoursePath? ==>
              RenderedPage(r) == Some(CourseViewPage(path.courseId))
    ensures session.Some? && path == AdminPath && session.value.role != Admin ==>
              r == InLayout(Redirect(DashboardPath))
    ensures session.Some? && path == MentorPath && session.value.role != Mentor ==>
              r == InLayout(Redirect(DashboardPath))
    ensures path == RootPath ==> r == Redirect(DashboardPath)
    ensures path == OtherPath ==> r == Nothing
  {
    match path
    case LoginPath => Render(LoginPage)
    case RegisterPath => Render(RegisterPage)
    case DashboardPath => PrivateRoute(session, DashboardRouter(session))
    case AdminPath => PrivateRoute(session, RoleRoute(session, Admin, Render(AdminDashboardPage)))
    case MentorPath => PrivateRoute(session, RoleRoute(session, Mentor, Render(MentorDashboardPage)))
    case CoursePath(id) => PrivateRoute(session, Render(CourseViewPage(id)))
    case RootPath => Redirect(DashboardPath)
    case OtherPath => Nothing
  }

  /** Deactivating a signed-in user changes nothing the guards see: every
      route still answers as before. Only after logging out does the change
      bite, because the next login is refused. */
  lemma DeactivationNeedsRelogin(s: Store, me: User, password: string, i: nat, path: Path)
    requires GetCurrentUser(s) == Some(me)
    requires FirstWithKey(GetUsers(s), UserId, me.id, i) && GetUsers(s)[i] == me
    requires FirstMatchAt(GetUsers(s), me.username, password, i)
    ensures var s' := AdminDashboard.StatusChange(s, me, Rejected);
            Route(path, GetCurrentUser(s')) == Route(path, GetCurrentUser(s)) &&
            Login(Logout(s'), me.username, password).0 == NotActive(NotActiveMessage)
  {
  }
}
