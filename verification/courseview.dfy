/** The course page a student works in: opening a course on its first
    lesson, finding the student's earlier submission for the lesson, and
    submitting or resubmitting work. */
module CourseView {
  import opened Types
  import opened Seqs
  import opened Db
  import MentorDashboard

  /** The page's selection: the course, and the lesson shown. */
  datatype Opened = Opened(course: Option<Course>, activeLesson: Option<Lesson>)

  /** Opening `/course/:id`: the first course with that id, on its first
      lesson. An unknown id or a course without lessons shows no lesson. */
  function OpenCourse(courses: seq<Course>, courseId: Id): (r: Opened)
    ensures r.course.None? <==> !HasKey(courses, CourseId, courseId)
    ensures forall i :: FirstWithKey(courses, CourseId, courseId, i) ==> r.course == Some(courses[i])
    ensures r.activeLesson.Some? <==> r.course.Some? && |r.course.value.lessons| > 0
    ensures r.activeLesson.Some? ==> r.activeLesson.value == r.course.value.lessons[0]
  {
    match Find(courses, (c: Course) => c.id == courseId)
    case None => Opened(None, None)
    case Some(c) => Opened(Some(c), if |c.lessons| > 0 then Some(c.lessons[0]) else None)
  }

  /** `x` is this student's work on this lesson. */
  predicate ForLesson(x: Submission, studentId: Id, lessonId: Id) {
    x.studentId == studentId && x.lessonId == lessonId
  }

  /** `i` is the first stored submission of this student for this lesson. */
  predicate FirstForLesson(subs: seq<Submission>, studentId: Id, lessonId: Id, i: int) {
    0 <= i < |subs| && ForLesson(subs[i], studentId, lessonId) &&
    forall j :: 0 <= j < i ==> !ForLesson(subs[j], studentId, lessonId)
  }

  /** The student's earlier submission for the lesson: the first match. */
  function ExistingSubmission(subs: seq<Submission>, studentId: Id, lessonId: Id): (r: Option<Submission>)
    ensures r.None? <==> forall i :: 0 <= i < |subs| ==> !ForLesson(subs[i], studentId, lessonId)
    ensures forall i :: FirstForLesson(subs, studentId, lessonId, i) ==> r == Some(subs[i])
  {
    Find(subs, (x: Submission) => ForLesson(x, studentId, lessonId))
  }

  /** The submit form is disabled when the earlier submission's grade is
      truthy: present and non-zero. */
  function ResubmissionLocked(previous: Option<Submission>): (r: bool)
    ensures previous.None? || previous.value.grade.None? ==> !r
    ensures previous.Some? && previous.value.grade == Some(0) ==> !r
    ensures previous.Some? && previous.value.grade.Some? && previous.value.grade.value != 0 ==> r
  {
    previous.Some? && previous.value.grade.Some? && previous.value.grade.value != 0
  }

  /** The id the handler saves under: the earlier submission's id when it is
      a non-empty string, otherwise the freshly drawn one. */
  function ChosenId(previous: Option<Submission>, freshId: Id): (r: Id)
    ensures previous.Some? && previous.value.id != "" ==> r == previous.value.id
    ensures previous.None? || previous.value.id == "" ==> r == freshId
    ensures r != "" || freshId == ""
  {
    if previous.Some? && previous.value.id != "" then previous.value.id else freshId
  }

  /** The record a submission stores: no grade, feedback or grading time. */
  predicate IsSubmitted(x: Submission, id: Id, studentId: Id, courseId: Id, lessonId: Id,
                        content: string, now: string) {
    x == Submission(id, studentId, courseId, lessonId, content, None, None, now, None)
  }

  /** The handler's guard: a session, a course and a lesson. */
  predicate CanSubmit(s: Store, o: Opened) {
    GetCurrentUser(s).Some? && o.course.Some? && o.activeLesson.Some?
  }

  /** The submit handler. Without a session, course or lesson nothing
      happens. A resubmission replaces the earlier record in place; a first
      submission under a fresh id is appended. */
  function SubmitWork(s: Store, o: Opened, content: string, now: string, freshId: Id): (r: Store)
    ensures !CanSubmit(s, o) ==> r == s
    ensures CanSubmit(s, o) ==>
              r.users == s.users && r.courses == s.courses && r.currentUser == s.currentUser
    ensures CanSubmit(s, o) ==>
              var me, c, l := GetCurrentUser(s).value, o.course.value, o.activeLesson.value;
              var subs, subs' := GetSubmissions(s), GetSubmissions(r);
              forall i :: FirstForLesson(subs, me.id, l.id, i) && subs[i].id != "" &&
                          FirstWithKey(subs, SubmissionId, subs[i].id, i) ==>
                |subs'| == |subs| &&
                IsSubmitted(subs'[i], subs[i].id, me.id, c.id, l.id, content, now) &&
                forall j :: 0 <= j < |subs| && j != i ==> subs'[j] == subs[j]
    ensures CanSubmit(s, o) ==>
              var me, c, l := GetCurrentUser(s).value, o.course.value, o.activeLesson.value;
              var subs, subs' := GetSubmissions(s), GetSubmissions(r);
              (forall i :: 0 <= i < |subs| ==> !ForLesson(subs[i], me.id, l.id)) &&
              !HasKey(subs, SubmissionId, freshId) ==>
                |subs'| == |subs| + 1 && subs'[..|subs|] == subs &&
                IsSubmitted(subs'[|subs|], freshId, me.id, c.id, l.id, content, now)
  {
    if !CanSubmit(s, o) then s
    else
      var me, c, l := GetCurrentUser(s).value, o.course.value, o.activeLesson.value;
      var previous := ExistingSubmission(GetSubmissions(s), me.id, l.id);
      SaveSubmission(s, Submission(ChosenId(previous, freshId), me.id, c.id, l.id,
                                   content, None, None, now, None))
  }

  /** Whatever was there before, the submitted work is stored ungraded and
      so is back in the grading queue of every mentor of the course. */
  lemma SubmissionEntersQueue(s: Store, o: Opened, content: string, now: string, freshId: Id,
                              myCourses: seq<Course>)
    requires CanSubmit(s, o) && MentorDashboard.CourseListed(myCourses, o.course.value.id)
    ensures var subs' := GetSubmissions(SubmitWork(s, o, content, now, freshId));
            var me, l := GetCurrentUser(s).value, o.activeLesson.value;
            exists x :: x in MentorDashboard.PendingSubmissions(MentorDashboard.VisibleSubmissions(subs', myCourses)) &&
                        ForLesson(x, me.id, l.id) && x.content == content
  {
    var me, c, l := GetCurrentUser(s).value, o.course.value, o.activeLesson.value;
    var subs := GetSubmissions(s);
    var subs' := GetSubmissions(SubmitWork(s, o, content, now, freshId));
    var id := ChosenId(ExistingSubmission(subs, me.id, l.id), freshId);
    var rec := Submission(id, me.id, c.id, l.id, content, None, None, now, None);
    assert subs' == GetSubmissions(SaveSubmission(s, rec));
    if HasKey(subs, SubmissionId, id) {
      FirstWithKeyExists(subs, SubmissionId, id);
      var i :| FirstWithKey(subs, SubmissionId, id, i);
      assert subs'[i] == rec;
      assert rec in subs';
    } else {
      assert subs'[|subs|] == rec;
      assert rec in subs';
    }
    assert rec in MentorDashboard.PendingSubmissions(MentorDashboard.VisibleSubmissions(subs', myCourses));
  }

  /** Grading the student's submission for a lesson locks resubmission
      exactly when the grade is non-zero: a grade of 0 leaves it open. */
  lemma GradeLocksIffNonZero(s: Store, view: seq<Submission>, grade: int, feedback: string,
                             now: string, i: nat)
    requires i < |GetSubmissions(s)|
    requires FirstWithKey(GetSubmissions(s), SubmissionId, GetSubmissions(s)[i].id, i)
    requires FirstForLesson(GetSubmissions(s), GetSubmissions(s)[i].studentId,
                            GetSubmissions(s)[i].lessonId, i)
    ensures var sub := GetSubmissions(s)[i];
            var panel := MentorDashboard.GradingPanel(Some(sub), grade, feedback);
            var s' := MentorDashboard.GradeSubmit(s, view, panel, now).0;
            var prev := ExistingSubmission(GetSubmissions(s'), sub.studentId, sub.lessonId);
            prev.Some? && (ResubmissionLocked(prev) <==> grade != 0)
  {
  }
}
