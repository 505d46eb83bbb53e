/** The records of the learning platform: users, courses with their lessons,
    and lesson submissions, together with the two user enumerations. */
module Types {

  /** A value that may be absent (an optional field, or `null`). */
  datatype Option<T> = None | Some(value: T)

  /** Record identifiers are opaque strings. */
  type Id = string

  datatype UserRole = Admin | Mentor | Student

  datatype UserStatus = Pending | Active | Rejected

  /** A stored account. The password is optional in the record type; every
      account created by the application carries one. `mentorId` names the
      student's mentor, if any; it is never checked against the users. */
  datatype User = User(
    id: Id,
    username: string,
    password: Option<string>,
    fullName: string,
    role: UserRole,
    status: UserStatus,
    mentorId: Option<Id>)

  datatype Lesson = Lesson(id: Id, title: string, content: string)

  /** A course owns its ordered lessons and lists the ids of the students and
      mentors assigned to it. */
  datatype Course = Course(
    id: Id,
    title: string,
    description: string,
    lessons: seq<Lesson>,
    assignedStudentIds: seq<Id>,
    assignedMentorIds: seq<Id>)

  /** A student's work on one lesson. `grade`, `feedback` and `gradedAt` are
      set by a mentor; timestamps are opaque strings. */
  datatype Submission = Submission(
    id: Id,
    studentId: Id,
    courseId: Id,
    lessonId: Id,
    content: string,
    feedback: Option<string>,
    grade: Option<int>,
    submittedAt: string,
    gradedAt: Option<string>)

  function UserId(u: User): Id { u.id }
  function CourseId(c: Course): Id { c.id }
  function SubmissionId(s: Submission): Id { s.id }
}
