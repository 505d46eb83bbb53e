/** The local data store: three record collections and the session slot,
    seeded once, written by upsert-by-id, and the status-gated login. */
module Db {
  import opened Types
  import opened Seqs

  /** The four storage slots. A collection slot is `None` until something
      writes it; the session slot holds a copy of the user taken at login. */
  datatype Store = Store(
    users: Option<seq<User>>,
    courses: Option<seq<Course>>,
    submissions: Option<seq<Submission>>,
    currentUser: Option<User>)

  /** Browser storage with nothing in it. */
  const Blank: Store := Store(None, None, None, None)

  /** The account seeded into a store that has no users. */
  const SeedAdmin: User :=
    User("admin-1", "admin", Some("team21admin"), "System Admin", Admin, Active, None)

  /** Seeding: each absent collection is created, the users with the one
      seeded administrator and the others empty; present ones are kept. */
  function InitDB(s: Store): (r: Store)
    ensures r.users.Some? && r.courses.Some? && r.submissions.Some?
    ensures s.users.Some? ==> r.users == s.users
    ensures s.courses.Some? ==> r.courses == s.courses
    ensures s.submissions.Some? ==> r.submissions == s.submissions
    ensures s.users.None? ==>
      |r.users.value| == 1 && r.users.value[0].id == "admin-1" &&
      r.users.value[0].username == "admin" &&
      r.users.value[0].role == Admin && r.users.value[0].status == Active
    ensures s.courses.None? ==> r.courses.value == []
    ensures s.submissions.None? ==> r.submissions.value == []
    ensures r.currentUser == s.currentUser
  {
    Store(
      if s.users.None? then Some([SeedAdmin]) else s.users,
      if s.courses.None? then Some([]) else s.courses,
      if s.submissions.None? then Some([]) else s.submissions,
      s.currentUser)
  }

  /** Reading a collection: an absent slot reads as the empty sequence. */
  function Items<T>(slot: Option<seq<T>>): seq<T> {
    match slot
    case None => []
    case Some(xs) => xs
  }

  function GetUsers(s: Store): seq<User> { Items(s.users) }
  function GetCourses(s: Store): seq<Course> { Items(s.courses) }
  function GetSubmissions(s: Store): seq<Submission> { Items(s.submissions) }

  /** Upsert a user by id; only the users slot is written. */
  function SaveUser(s: Store, u: User): (r: Store)
    ensures r.courses == s.courses && r.submissions == s.submissions
    ensures r.currentUser == s.currentUser
    ensures r.users.Some?
    ensures s.users.None? ==> GetUsers(r) == [u]
    ensures HasKey(GetUsers(s), UserId, u.id) ==> |GetUsers(r)| == |GetUsers(s)|
    ensures forall i :: FirstWithKey(GetUsers(s), UserId, u.id, i) ==>
              GetUsers(r) == GetUsers(s)[i := u]
    ensures !HasKey(GetUsers(s), UserId, u.id) ==> GetUsers(r) == GetUsers(s) + [u]
  {
    s.(users := Some(Upsert(GetUsers(s), u, UserId)))
  }

  /** Upsert a course by id; only the courses slot is written. */
  function SaveCourse(s: Store, c: Course): (r: Store)
    ensures r.users == s.users && r.submissions == s.submissions
    ensures r.currentUser == s.currentUser
    ensures r.courses.Some?
    ensures s.courses.None? ==> GetCourses(r) == [c]
    ensures HasKey(GetCourses(s), CourseId, c.id) ==> |GetCourses(r)| == |GetCourses(s)|
    ensures forall i :: FirstWithKey(GetCourses(s), CourseId, c.id, i) ==>
              GetCourses(r) == GetCourses(s)[i := c]
    ensures !HasKey(GetCourses(s), CourseId, c.id) ==> GetCourses(r) == GetCourses(s) + [c]
  {
    s.(courses := Some(Upsert(GetCourses(s), c, CourseId)))
  }

  /** Upsert a submission by id; only the submissions slot is written. */
  function SaveSubmission(s: Store, x: Submission): (r: Store)
    ensures r.users == s.users && r.courses == s.courses
    ensures r.currentUser == s.currentUser
    ensures r.submissions.Some?
    ensures s.submissions.None? ==> GetSubmissions(r) == [x]
    ensures HasKey(GetSubmissions(s), SubmissionId, x.id) ==>
              |GetSubmissions(r)| == |GetSubmissions(s)|
    ensures forall i :: FirstWithKey(GetSubmissions(s), SubmissionId, x.id, i) ==>
              GetSubmissions(r) == GetSubmissions(s)[i := x]
    ensures !HasKey(GetSubmissions(s), SubmissionId, x.id) ==>
              GetSubmissions(r) == GetSubmissions(s) + [x]
  {
    s.(submissions := Some(Upsert(GetSubmissions(s), x, SubmissionId)))
  }

  /** The message of the error raised for an account that is not active. */
  const NotActiveMessage: string := "Account is not active. Please contact admin."

  /** The three results of `login`: `null`, the raised error, or the user. */
  datatype LoginOutcome = NoMatch | NotActive(message: string) | LoggedIn(user: User)

  /** Exact, case-sensitive match of both credentials; an account without a
      stored password never matches. */
  predicate Matches(u: User, username: string, password: string) {
    u.username == username && u.password == Some(password)
  }

  /** `i` is the position of the first user matching the credentials. */
  predicate FirstMatchAt(users: seq<User>, username: string, password: string, i: int) {
    0 <= i < |users| && Matches(users[i], username, password) &&
    forall j :: 0 <= j < i ==> !Matches(users[j], username, password)
  }

  /** Login is decided by the first user matching both credentials alone:
      an active one becomes the session, any other status raises. */
  function Login(s: Store, username: string, password: string): (r: (LoginOutcome, Store))
    ensures r.0.NoMatch? <==>
              forall i :: 0 <= i < |GetUsers(s)| ==> !Matches(GetUsers(s)[i], username, password)
    ensures forall i :: FirstMatchAt(GetUsers(s), username, password, i) ==>
              (r.0.LoggedIn? <==> GetUsers(s)[i].status == Active) &&
              (r.0.NotActive? <==> GetUsers(s)[i].status != Active) &&
              (r.0.LoggedIn? ==> r.0.user == GetUsers(s)[i])
    ensures r.0.NotActive? ==> r.0.message == NotActiveMessage
    ensures !r.0.LoggedIn? ==> r.1 == s
    ensures r.0.LoggedIn? ==> r.1 == s.(currentUser := Some(r.0.user))
  {
    match Find(GetUsers(s), u => Matches(u, username, password))
    case None => (NoMatch, s)
    case Some(u) =>
      if u.status != Active then (NotActive(NotActiveMessage), s)
      else (LoggedIn(u), s.(currentUser := Some(u)))
  }

  /** Logout clears the session slot and nothing else. */
  function Logout(s: Store): (r: Store)
    ensures GetCurrentUser(r).None?
    ensures r.users == s.users && r.courses == s.courses && r.submissions == s.submissions
  {
    s.(currentUser := None)
  }

  /** The session snapshot, if any. */
  function GetCurrentUser(s: Store): Option<User> {
    s.currentUser
  }

  /** The session slot is a snapshot taken at login: a successful login
      puts the matched record there, and saving any user, even the signed-in
      one, leaves it as it was. */
  lemma SessionIsSnapshot(s: Store, username: string, password: string, u: User)
    ensures Login(s, username, password).0.LoggedIn? ==>
              GetCurrentUser(Login(s, username, password).1) == Some(Login(s, username, password).0.user)
    ensures GetCurrentUser(SaveUser(s, u)) == GetCurrentUser(s)
    ensures GetCurrentUser(Logout(s)).None?
  {
  }

  /** Logging out twice is the same as logging out once. */
  lemma LogoutIdempotent(s: Store)
    ensures Logout(Logout(s)) == Logout(s)
  {
  }

  /** A blank store seeds to exactly the administrator account and two empty
      collections, and that account can log in with the seeded password. */
  lemma SeededAdminLogsIn()
    ensures GetUsers(InitDB(Blank)) == [SeedAdmin]
    ensures GetCourses(InitDB(Blank)) == [] && GetSubmissions(InitDB(Blank)) == []
    ensures Login(InitDB(Blank), "admin", "team21admin").0 == LoggedIn(SeedAdmin)
  {
  }
}
