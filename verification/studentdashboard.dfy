/** The student's dashboard: the courses the session user is enrolled in. */
module StudentDashboard {
  import opened Types
  import opened Seqs
  import opened Db
  import AdminDashboard

  /** The courses listing the session user among their students, in stored
      order; nothing without a session. The dashboard only reads the store. */
  function StudentCourses(s: Store): (r: seq<Course>)
    ensures GetCurrentUser(s).None? ==> r == []
    ensures GetCurrentUser(s).Some? ==>
              forall c :: c in r <==>
                c in GetCourses(s) && GetCurrentUser(s).value.id in c.assignedStudentIds
    ensures SubSeq(r, GetCourses(s))
  {
    match GetCurrentUser(s)
    case None => []
    case Some(me) => Filter(GetCourses(s), (c: Course) => me.id in c.assignedStudentIds)
  }

  /** Once an administrator assigns the session user to a course, that
      course is on the user's dashboard. */
  lemma AssignedCourseIsShown(s: Store, courseId: Id, i: nat)
    requires GetCurrentUser(s).Some?
    requires FirstWithKey(GetCourses(s), CourseId, courseId, i)
    ensures var s' := AdminDashboard.Assign(s, courseId, GetCurrentUser(s).value.id, AdminDashboard.AssignStudent);
            GetCourses(s')[i] in StudentCourses(s')
  {
  }

  /** A freshly generated course is on no student's dashboard: the course
      list grows by one course whose student list is empty, and filtering
      the grown list keeps exactly the old selection. */
  lemma {:induction false} GeneratedCourseIsOnNoDashboard(s: Store, topic: string, o: AdminDashboard.Outline,
                                                          courseId: Id, lessonIds: seq<Id>)
    requires |lessonIds| == |o.lessons|
    requires !HasKey(GetCourses(s), CourseId, courseId)
    ensures StudentCourses(AdminDashboard.HandleGenerate(s, topic, Some(o), courseId, lessonIds)) ==
            StudentCourses(s)
  {
    var s' := AdminDashboard.HandleGenerate(s, topic, Some(o), courseId, lessonIds);
    if topic != "" && GetCurrentUser(s).Some? {
      var me := GetCurrentUser(s).value;
      var c := AdminDashboard.GenerateCourse(o, courseId, lessonIds);
      var enrolled := (x: Course) => me.id in x.assignedStudentIds;
      assert GetCourses(s') == GetCourses(s) + [c];
      FilterConcat(GetCourses(s), [c], enrolled);
      assert Filter([c], enrolled) == [];
    }
  }
}
