/** The administrator's dashboard: approving, rejecting and deactivating
    accounts, assigning students and mentors to courses, and turning a
    generated outline into a course. */
module AdminDashboard {
  import opened Types
  import opened Seqs
  import opened Db
  import Auth

  /** Saving the displayed user with a new status. The session slot is not
      touched, so a logged-in user's snapshot keeps its old status. */
  function StatusChange(s: Store, user: User, status: UserStatus): (r: Store)
    ensures r.courses == s.courses && r.submissions == s.submissions
    ensures r.currentUser == s.currentUser
    ensures forall i :: FirstWithKey(GetUsers(s), UserId, user.id, i) && GetUsers(s)[i] == user ==>
              |GetUsers(r)| == |GetUsers(s)| &&
              GetUsers(r)[i] == GetUsers(s)[i].(status := status) &&
              forall j :: 0 <= j < |GetUsers(s)| && j != i ==> GetUsers(r)[j] == GetUsers(s)[j]
  {
    SaveUser(s, user.(status := status))
  }

  /** The users in the "Pending Approvals" panel, each with Approve and Reject. */
  function PendingPanel(users: seq<User>): seq<User> {
    Filter(users, (u: User) => u.status == Pending)
  }

  /** The users in the "All Active Users" table, each with Deactivate. */
  function ActiveTable(users: seq<User>): seq<User> {
    Filter(users, (u: User) => u.status == Active)
  }

  /** The status changes the dashboard offers for a listed user `u`, read
      off the two panels it may appear in. */
  function ActionsFor(users: seq<User>, u: User): (r: seq<UserStatus>)
    ensures u !in users ==> r == []
    ensures Pending !in r
    ensures u in users && u.status == Pending ==> r == [Active, Rejected]
    ensures u in users && u.status == Active ==> r == [Rejected]
    ensures u.status == Rejected ==> r == []
  {
    (if u in PendingPanel(users) then [Active, Rejected] else []) +
    (if u in ActiveTable(users) then [Rejected] else [])
  }

  /** Position of a status in the one-way lifecycle. */
  function Rank(st: UserStatus): nat {
    match st
    case Pending => 0
    case Active => 1
    case Rejected => 2
  }

  /** The status machine: what an account in each status can be moved to.
      Every move goes strictly forward, and none leads back to PENDING. */
  function OfferedStatuses(st: UserStatus): (r: seq<UserStatus>)
    ensures Pending !in r
    ensures forall t :: t in r ==> Rank(st) < Rank(t)
    ensures st == Pending ==> Active in r && Rejected in r
    ensures st == Active ==> Rejected in r
    ensures st == Rejected ==> r == []
  {
    match st
    case Pending => [Active, Rejected]
    case Active => [Rejected]
    case Rejected => []
  }

  /** The panels offer exactly the moves of the status machine. */
  lemma ActionsFollowStatusMachine(users: seq<User>, u: User)
    requires u in users
    ensures ActionsFor(users, u) == OfferedStatuses(u.status)
  {
  }

  /** A history of statuses in which every step is an offered move. */
  predicate AdminHistory(h: seq<UserStatus>) {
    forall i :: 0 <= i < |h| - 1 ==> h[i + 1] in OfferedStatuses(h[i])
  }

  /** Along any history of offered moves the rank strictly increases: no
      account returns to PENDING, and at most two moves are ever possible. */
  lemma {:induction false} HistoryIsOneWay(h: seq<UserStatus>)
    requires AdminHistory(h) && |h| > 0
    ensures Rank(h[0]) + |h| - 1 <= Rank(h[|h| - 1])
    ensures |h| <= 3
    ensures forall i :: 0 < i < |h| ==> h[i] != Pending
    decreases |h|
  {
    if |h| > 1 {
      var t := h[1..];
      assert AdminHistory(t) by {
        forall i | 0 <= i < |t| - 1
          ensures t[i + 1] in OfferedStatuses(t[i])
        {
          assert h[(i + 1) + 1] in OfferedStatuses(h[i + 1]);
        }
      }
      HistoryIsOneWay(t);
      assert h[1] in OfferedStatuses(h[0]);
      assert forall i :: 0 < i < |h| ==> h[i] == t[i - 1];
    }
  }

  /** An approved registrant can log in, and becomes the session user. */
  lemma ApprovedRegistrantLogsIn(s: Store, form: Auth.RegisterForm, newId: Id)
    requires Auth.Register(s, form, newId).0.Registered?
    ensures var (o, s1) := Auth.Register(s, form, newId);
            var s2 := StatusChange(s1, o.user, Active);
            var (lo, s3) := Login(s2, form.username, form.password);
            lo == LoggedIn(o.user.(status := Active)) &&
            GetCurrentUser(s3) == Some(o.user.(status := Active))
  {
    var (o, s1) := Auth.Register(s, form, newId);
    var s2 := StatusChange(s1, o.user, Active);
    var users1, users2 := GetUsers(s1), GetUsers(s2);
    Auth.RegisteredIsOnlyHolder(s, form, newId);
    var k :| 0 <= k < |users1| && users1[k] == o.user &&
             forall j :: 0 <= j < |users1| && j != k ==> users1[j].username != form.username;
    assert HasKey(users1, UserId, newId) by { assert UserId(users1[k]) == newId; }
    FirstWithKeyExists(users1, UserId, newId);
    var i :| FirstWithKey(users1, UserId, newId, i);
    assert users2 == users1[i := o.user.(status := Active)];
    if i != k {
      assert users1[i].username != form.username;
    }
    assert i <= k;
    assert FirstMatchAt(users2, form.username, form.password, i);
  }

  /** Which list of a course an assignment extends. */
  datatype AssignKind = AssignStudent | AssignMentor

  function AssignedIds(c: Course, kind: AssignKind): seq<Id> {
    match kind
    case AssignStudent => c.assignedStudentIds
    case AssignMentor => c.assignedMentorIds
  }

  function WithAssigned(c: Course, kind: AssignKind, ids: seq<Id>): Course {
    match kind
    case AssignStudent => c.(assignedStudentIds := ids)
    case AssignMentor => c.(assignedMentorIds := ids)
  }

  /** The assignment handler: an unknown course or an id already listed
      changes nothing; otherwise the id is appended to that one list and the
      course is saved in place. */
  function Assign(s: Store, courseId: Id, userId: Id, kind: AssignKind): (r: Store)
    ensures r.users == s.users && r.submissions == s.submissions
    ensures r.currentUser == s.currentUser
    ensures !HasKey(GetCourses(s), CourseId, courseId) ==> r == s
    ensures forall i :: FirstWithKey(GetCourses(s), CourseId, courseId, i) ==>
              var c := GetCourses(s)[i];
              var cs, cs' := GetCourses(s), GetCourses(r);
              (userId in AssignedIds(c, kind) ==> r == s) &&
              (userId !in AssignedIds(c, kind) ==>
                 |cs'| == |cs| &&
                 (forall j :: 0 <= j < |cs| && j != i ==> cs'[j] == cs[j]) &&
                 AssignedIds(cs'[i], kind) == AssignedIds(c, kind) + [userId] &&
                 (forall k: AssignKind :: k != kind ==> AssignedIds(cs'[i], k) == AssignedIds(c, k)) &&
                 cs'[i].id == c.id && cs'[i].title == c.title &&
                 cs'[i].description == c.description && cs'[i].lessons == c.lessons)
  {
    match Find(GetCourses(s), (c: Course) => c.id == courseId)
    case None => s
    case Some(c) =>
      if userId in AssignedIds(c, kind) then s
      else SaveCourse(s, WithAssigned(c, kind, AssignedIds(c, kind) + [userId]))
  }

  /** Every course's assignment lists are duplicate-free. */
  predicate AssignmentsDistinct(cs: seq<Course>) {
    forall i :: 0 <= i < |cs| ==> NoDup(cs[i].assignedStudentIds) && NoDup(cs[i].assignedMentorIds)
  }

  /** Assignment never introduces a duplicate into any list. */
  lemma AssignKeepsListsDistinct(s: Store, courseId: Id, userId: Id, kind: AssignKind)
    requires AssignmentsDistinct(GetCourses(s))
    ensures AssignmentsDistinct(GetCourses(Assign(s, courseId, userId, kind)))
  {
  }

  function RoleFor(kind: AssignKind): UserRole {
    match kind
    case AssignStudent => Student
    case AssignMentor => Mentor
  }

  /** The selector's candidates: active users of the list's role (mentors or
      students) that the course does not list yet, in stored order. */
  function Candidates(users: seq<User>, c: Course, kind: AssignKind): (r: seq<User>)
    ensures forall u :: u in r <==>
              u in users && u.role == RoleFor(kind) && u.status == Active &&
              u.id !in AssignedIds(c, kind)
    ensures SubSeq(r, Filter(users, (u: User) => u.role == RoleFor(kind) && u.status == Active))
  {
    var eligible := Filter(users, (u: User) => u.role == RoleFor(kind) && u.status == Active);
    Filter(eligible, (u: User) => u.id !in AssignedIds(c, kind))
  }

  /** The selector never offers a no-op: picking any candidate appends
      exactly that id. */
  lemma CandidatesAreAppended(s: Store, i: nat, kind: AssignKind)
    requires i < |GetCourses(s)| && FirstWithKey(GetCourses(s), CourseId, GetCourses(s)[i].id, i)
    ensures forall u :: u in Candidates(GetUsers(s), GetCourses(s)[i], kind) ==>
              var cs' := GetCourses(Assign(s, GetCourses(s)[i].id, u.id, kind));
              |cs'| == |GetCourses(s)| &&
              AssignedIds(cs'[i], kind) == AssignedIds(GetCourses(s)[i], kind) + [u.id]
  {
  }

  /** An outline as returned by the course generator. */
  datatype LessonDraft = LessonDraft(title: string, content: string)
  datatype Outline = Outline(title: string, description: string, lessons: seq<LessonDraft>)

  /** The course built from an outline: fresh ids for it and for each lesson,
      nobody assigned. */
  function GenerateCourse(o: Outline, courseId: Id, lessonIds: seq<Id>): (r: Course)
    requires |lessonIds| == |o.lessons|
    ensures r.id == courseId && r.title == o.title && r.description == o.description
    ensures r.assignedStudentIds == [] && r.assignedMentorIds == []
    ensures |r.lessons| == |o.lessons|
    ensures forall k :: 0 <= k < |r.lessons| ==>
              r.lessons[k] == Lesson(lessonIds[k], o.lessons[k].title, o.lessons[k].content)
  {
    Course(courseId, o.title, o.description,
           seq(|o.lessons|, k requires 0 <= k < |o.lessons| =>
                 Lesson(lessonIds[k], o.lessons[k].title, o.lessons[k].content)),
           [], [])
  }

  /** The generate handler. An empty topic, or no outline (the generator
      failed or returned nothing), saves nothing. */
  function HandleGenerate(s: Store, topic: string, outline: Option<Outline>,
                          courseId: Id, lessonIds: seq<Id>): (r: Store)
    requires outline.Some? ==> |lessonIds| == |outline.value.lessons|
    ensures topic == "" || outline.None? ==> r == s
    ensures r.users == s.users && r.submissions == s.submissions && r.currentUser == s.currentUser
    ensures topic != "" && outline.Some? && !HasKey(GetCourses(s), CourseId, courseId) ==>
              |GetCourses(r)| == |GetCourses(s)| + 1 &&
              GetCourses(r)[..|GetCourses(s)|] == GetCourses(s) &&
              var c := GetCourses(r)[|GetCourses(s)|];
              c == GenerateCourse(outline.value, courseId, lessonIds)
  {
    if topic == "" then s
    else match outline
      case None => s
      case Some(o) => SaveCourse(s, GenerateCourse(o, courseId, lessonIds))
  }
}
