/** The mentor's dashboard: the courses, submissions and students a mentor
    sees, the pending-grading queue, and grading. */
module MentorDashboard {
  import opened Types
  import opened Seqs
  import opened Db

  /** The courses listing `mentorId` among their mentors, in stored order. */
  function MentorCourses(courses: seq<Course>, mentorId: Id): (r: seq<Course>)
    ensures forall c :: c in r <==> c in courses && mentorId in c.assignedMentorIds
    ensures SubSeq(r, courses)
  {
    Filter(courses, (c: Course) => mentorId in c.assignedMentorIds)
  }

  /** A course of `myCourses` has id `courseId`. */
  predicate CourseListed(myCourses: seq<Course>, courseId: Id) {
    exists c :: c in myCourses && c.id == courseId
  }

  /** The submissions belonging to one of the mentor's courses. */
  function VisibleSubmissions(subs: seq<Submission>, myCourses: seq<Course>): (r: seq<Submission>)
    ensures forall x :: x in r <==> x in subs && CourseListed(myCourses, x.courseId)
    ensures SubSeq(r, subs)
  {
    Filter(subs, (x: Submission) => CourseListed(myCourses, x.courseId))
  }

  /** A submission counts as graded when its grading time is truthy: present
      and not the empty string. */
  predicate Graded(x: Submission) {
    x.gradedAt.Some? && x.gradedAt.value != ""
  }

  /** The grading queue: visible submissions not graded yet. */
  function PendingSubmissions(visible: seq<Submission>): (r: seq<Submission>)
    ensures forall x :: x in r <==> x in visible && (x.gradedAt.None? || x.gradedAt.value == "")
    ensures SubSeq(r, visible)
  {
    Filter(visible, (x: Submission) => !Graded(x))
  }

  /** "My Students": stored users listed as a student of a mentor course. */
  function MyStudents(users: seq<User>, myCourses: seq<Course>): (r: seq<User>)
    ensures forall u :: u in r <==>
              u in users && exists c :: c in myCourses && u.id in c.assignedStudentIds
    ensures SubSeq(r, users)
  {
    Filter(users, (u: User) => exists c :: c in myCourses && u.id in c.assignedStudentIds)
  }

  /** What the dashboard loads for the session user. */
  datatype MentorView = MentorView(courses: seq<Course>, submissions: seq<Submission>)

  /** Loading the dashboard. Without a session nothing is loaded; otherwise
      a submission is shown exactly when its course lists the session user
      as a mentor. */
  function LoadView(s: Store): (r: MentorView)
    ensures GetCurrentUser(s).None? ==> r == MentorView([], [])
    ensures GetCurrentUser(s).Some? ==>
              var me := GetCurrentUser(s).value.id;
              (forall c :: c in r.courses <==> c in GetCourses(s) && me in c.assignedMentorIds) &&
              SubSeq(r.courses, GetCourses(s)) && SubSeq(r.submissions, GetSubmissions(s))
    ensures GetCurrentUser(s).Some? ==>
              var me := GetCurrentUser(s).value.id;
              forall x :: x in r.submissions <==>
                x in GetSubmissions(s) &&
                exists c :: c in GetCourses(s) && c.id == x.courseId && me in c.assignedMentorIds
  {
    match GetCurrentUser(s)
    case None => MentorView([], [])
    case Some(me) =>
      var mine := MentorCourses(GetCourses(s), me.id);
      MentorView(mine, VisibleSubmissions(GetSubmissions(s), mine))
  }

  /** The grading panel: the selected submission and the form's values. */
  datatype GradingPanel = GradingPanel(selected: Option<Submission>, grade: int, feedback: string)

  /** The panel as first shown: nothing selected, grade 0, no feedback. */
  const ClosedPanel: GradingPanel := GradingPanel(None, 0, "")

  /** Clicking "Grade" on a queued submission selects it and resets the form. */
  function OpenGrading(sub: Submission): (r: GradingPanel)
    ensures r.selected == Some(sub)
    ensures r.(selected := None) == ClosedPanel
  {
    GradingPanel(Some(sub), 0, "")
  }

  /** `g` is `sel` with the given grade, feedback and grading time, and
      every other field kept. */
  predicate GradedFrom(g: Submission, sel: Submission, grade: int, feedback: string, now: string) {
    g.id == sel.id && g.studentId == sel.studentId && g.courseId == sel.courseId &&
    g.lessonId == sel.lessonId && g.content == sel.content && g.submittedAt == sel.submittedAt &&
    g.grade == Some(grade) && g.feedback == Some(feedback) && g.gradedAt == Some(now)
  }

  /** The dashboard's local list after a save: every entry with the updated
      id shows the updated record. */
  function ReplaceById(view: seq<Submission>, updated: Submission): (r: seq<Submission>)
    ensures |r| == |view|
    ensures forall k :: 0 <= k < |view| && view[k].id == updated.id ==> r[k] == updated
    ensures forall k :: 0 <= k < |view| && view[k].id != updated.id ==> r[k] == view[k]
    ensures forall x :: x in r && x.id == updated.id ==> x == updated
    ensures forall x :: x in r ==> x == updated || x in view
  {
    seq(|view|, k requires 0 <= k < |view| => if view[k].id == updated.id then updated else view[k])
  }

  /** The grade handler: with nothing selected nothing happens; otherwise the
      selected record is saved by id with grade, feedback and time set, the
      local list shows it, and the panel closes. */
  function GradeSubmit(s: Store, view: seq<Submission>, panel: GradingPanel, now: string)
    : (r: (Store, seq<Submission>, GradingPanel))
    ensures panel.selected.None? ==> r == (s, view, panel)
    ensures panel.selected.Some? ==>
              var sel, subs, subs' := panel.selected.value, GetSubmissions(s), GetSubmissions(r.0);
              r.0.users == s.users && r.0.courses == s.courses && r.0.currentUser == s.currentUser &&
              (HasKey(subs, SubmissionId, sel.id) ==> |subs'| == |subs|) &&
              (forall i :: FirstWithKey(subs, SubmissionId, sel.id, i) ==>
                 GradedFrom(subs'[i], sel, panel.grade, panel.feedback, now) &&
                 forall j :: 0 <= j < |subs| && j != i ==> subs'[j] == subs[j]) &&
              |r.1| == |view| &&
              (forall k :: 0 <= k < |view| && view[k].id != sel.id ==> r.1[k] == view[k]) &&
              (forall k :: 0 <= k < |view| && view[k].id == sel.id ==>
                 GradedFrom(r.1[k], sel, panel.grade, panel.feedback, now)) &&
              r.2 == panel.(selected := None) &&
              (now != "" ==> forall x :: x in PendingSubmissions(r.1) ==> x.id != sel.id) &&
              (now == "" ==> forall x :: x in r.1 && x.id == sel.id ==> x in PendingSubmissions(r.1)) &&
              r.2.selected.None?
  {
    match panel.selected
    case None => (s, view, panel)
    case Some(sel) =>
      var updated := sel.(grade := Some(panel.grade), feedback := Some(panel.feedback),
                          gradedAt := Some(now));
      (SaveSubmission(s, updated), ReplaceById(view, updated), panel.(selected := None))
  }

  /** Grading a queued submission straight after opening it records grade 0
      and empty feedback. */
  lemma OpenThenGradeRecordsZero(s: Store, view: seq<Submission>, sub: Submission, now: string, i: nat)
    requires FirstWithKey(GetSubmissions(s), SubmissionId, sub.id, i)
    ensures var r := GradeSubmit(s, view, OpenGrading(sub), now);
            GetSubmissions(r.0)[i].grade == Some(0) && GetSubmissions(r.0)[i].feedback == Some("")
  {
  }
}
