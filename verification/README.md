# Team21 learning platform — a Dafny model of its store and page handlers

The platform is a browser-only learning front-end. Administrators approve
accounts and build courses. Mentors grade the work submitted on their
courses. Students work through lessons. All state lives in four slots of the
browser's local storage: the users, courses and submissions collections, and
the session user.

This project models that state as an immutable `Store` record. Each
collection slot is an `Option<seq<T>>`, and the session slot is an
`Option<User>`. Every handler is a pure function of the store. The
modules follow the source files:

| module | models |
|---|---|
| `Types` (types.dfy) | `types.ts`: users, courses, lessons, submissions, roles, statuses |
| `Seqs` (seqs.dfy) | `findIndex`/`find` first-match search, order-preserving `filter`, and upsert by id |
| `Db` (db.dfy) | `services/db.ts`: seeding, collection reads, the three `save` functions, `login`, `logout`, `getCurrentUser` |
| `Auth` (auth.dfy) | `pages/Auth.tsx`: the login outcome mapping and registration |
| `AdminDashboard` (admindashboard.dfy) | `pages/admin/AdminDashboard.tsx`: status changes, the offered actions, assignment, candidates, course generation |
| `MentorDashboard` (mentordashboard.dfy) | `pages/mentor/MentorDashboard.tsx`: visibility filters, the pending queue, grading |
| `CourseView` (courseview.dfy) | `pages/student/CourseView.tsx`: opening a course, the earlier submission, submitting, the resubmission lock |
| `StudentDashboard` (studentdashboard.dfy) | `pages/student/StudentDashboard.tsx`: the enrolled-course filter |
| `App` (app.dfy) | `App.tsx`: `PrivateRoute`, `RoleRoute`, `DashboardRouter` and the route table |

Ids, timestamps and the course generator's output are parameters. This
covers `crypto.randomUUID`, `new Date().toISOString()` and the AI service.
Where an id is meant to be fresh, the contract says what happens when it is
fresh. It does not forbid a colliding id. The model pins down these behaviours:

- The session slot is a detached copy of the user. Saving a user never changes it.
- A grade of 0 does not lock resubmission.

Two consequences of the code are worth stating:

- Login is decided by the first record matching both credentials. A later ACTIVE duplicate is never reached (`Db.Login`).
- Usernames are checked for uniqueness only at registration. `Auth.RegisterKeepsUsernamesDistinct` proves that registration preserves uniqueness. Nothing else enforces it.

## Model

| member | source | states |
|---|---|---|
| Db.InitDB | services/db.ts:11-29 | on absent slots: users become the single ACTIVE ADMIN `admin-1`/`admin`, and courses and submissions become empty; a present slot and the session are never overwritten |
| Db.SeededAdminLogsIn | services/db.ts:11-29 | a blank store seeds to exactly `[admin]`, `[]`, `[]`, and the seeded credentials log in |
| Db.SaveUser | services/db.ts:45-54 | an existing id keeps the length and replaces only the first index with that id; a new id appends; an absent slot reads as empty, so the first save yields `[u]`; courses, submissions and the session are unchanged |
| Db.SaveCourse | services/db.ts:58-67 | the same upsert guarantees for courses; only the courses slot changes |
| Db.SaveSubmission | services/db.ts:71-80 | the same upsert guarantees for submissions; only the submissions slot changes |
| Seqs.Upsert | services/db.ts:47-52 | replace the first element with the key in place (same length), or append when the key is absent |
| Seqs.UpsertKeys | services/db.ts:47-52 | after an upsert, the keys present are exactly the old keys plus the saved record's key |
| Seqs.FindIndex | services/db.ts:47 | the index returned is the first one satisfying the predicate; none is returned only when no element satisfies it |
| Seqs.Find | services/db.ts:85 | the element returned is the first match; there is none exactly when nothing matches |
| Seqs.Filter | pages/student/StudentDashboard.tsx:15 | the result holds exactly the satisfying elements, with their multiplicities, as a subsequence of the input |
| Seqs.FilterConcat | pages/student/StudentDashboard.tsx:15 | filtering distributes over concatenation, so stored order is kept |
| Seqs.FirstWithKeyExists | services/db.ts:47 | a key that occurs has a first occurrence |
| Db.Login | services/db.ts:83-94 | no match gives null and leaves the store as it was; otherwise the first match decides: if ACTIVE it becomes the session and is returned, and any other status raises the not-active error with the session unchanged |
| Db.Logout | services/db.ts:96-98 | afterwards there is no session user, and the collections are untouched |
| Db.SessionIsSnapshot | services/db.ts:100-103 | the session read returns the record a successful login stored; saving any user leaves it unchanged, and after logout it is empty |
| Db.LogoutIdempotent | services/db.ts:96-98 | logging out twice equals logging out once |
| Auth.HandleLogin | pages/Auth.tsx:13-26 | "Invalid credentials" exactly when nothing matches; the not-active message exactly when the first match is not ACTIVE; the dashboard exactly when it is ACTIVE, and then only the session changes, to that first matching record |
| Auth.Register | pages/Auth.tsx:100-117 | a taken username (exact comparison) saves nothing; otherwise a PENDING user with the form's username, password, name and role is saved; with a fresh id exactly one user is appended; a form from the page never creates an ADMIN; the "already exists" message is shown exactly when the name is taken |
| Auth.InitialFormRegistersStudent | pages/Auth.tsx:91-96 | the form as first shown has role STUDENT, which the selector offers, so submitting it unchanged registers a STUDENT |
| Auth.RegisterKeepsUsernamesDistinct | pages/Auth.tsx:102-114 | if usernames are pairwise distinct before a registration, they are distinct after it |
| Auth.RegisteredIsOnlyHolder | pages/Auth.tsx:102-114 | after a successful registration the new account is the only user with that username |
| Auth.RegistrantIsNotActive | pages/Auth.tsx:111 | a freshly registered account's own credentials raise "not active" |
| AdminDashboard.StatusChange | pages/admin/AdminDashboard.tsx:17-21 | for a displayed user that is stored first under its id, only that user's status changes; the count, all other users, the other collections and the session are unchanged |
| AdminDashboard.OfferedStatuses | pages/admin/AdminDashboard.tsx:56-124 | PENDING is offered ACTIVE and REJECTED, ACTIVE is offered REJECTED, REJECTED is offered nothing; PENDING is never a target and every move raises the rank |
| AdminDashboard.ActionsFor | pages/admin/AdminDashboard.tsx:56-124 | a user not in the list gets no action; a PENDING user gets Approve and Reject, an ACTIVE user gets Deactivate, a REJECTED user gets none; no action sets PENDING |
| AdminDashboard.ActionsFollowStatusMachine | pages/admin/AdminDashboard.tsx:56-124 | the actions the pending panel and the active table offer for a user are exactly the status machine's moves |
| AdminDashboard.HistoryIsOneWay | pages/admin/AdminDashboard.tsx:56-124 | along any history of offered moves the rank strictly increases, so an account never returns to PENDING and makes at most two moves |
| AdminDashboard.ApprovedRegistrantLogsIn | pages/admin/AdminDashboard.tsx:17-21 | a registrant whom the admin sets ACTIVE then logs in, and becomes the session user |
| AdminDashboard.Assign | pages/admin/AdminDashboard.tsx:170-183 | an unknown course, or an id already listed, leaves the store unchanged; otherwise exactly that id is appended to that one list, the other list and the other fields are kept, and other courses are unchanged |
| AdminDashboard.AssignKeepsListsDistinct | pages/admin/AdminDashboard.tsx:174-180 | duplicate-free assignment lists stay duplicate-free |
| AdminDashboard.Candidates | pages/admin/AdminDashboard.tsx:140-141 | the candidates are exactly the ACTIVE users of the list's role that the course does not list yet, in stored order |
| AdminDashboard.CandidatesAreAppended | pages/admin/AdminDashboard.tsx:242-251 | the selector never offers a no-op: choosing any candidate appends exactly that id |
| AdminDashboard.GenerateCourse | pages/admin/AdminDashboard.tsx:149-156 | the course has empty assignment lists and the outline's lessons in order, each keeping its title and content under a fresh id |
| AdminDashboard.HandleGenerate | pages/admin/AdminDashboard.tsx:143-167 | an empty topic, or no outline, saves nothing; otherwise, with a fresh course id, exactly the generated course is appended: the outline's title and description, empty assignment lists, and each lesson under its given id with its title and content |
| MentorDashboard.MentorCourses | pages/mentor/MentorDashboard.tsx:17-20 | exactly the courses listing the mentor, in stored order |
| MentorDashboard.VisibleSubmissions | pages/mentor/MentorDashboard.tsx:22-27 | exactly the submissions whose course is one of the mentor's, in stored order |
| MentorDashboard.PendingSubmissions | pages/mentor/MentorDashboard.tsx:47 | exactly the visible submissions whose grading time is falsy: absent or the empty string |
| MentorDashboard.MyStudents | pages/mentor/MentorDashboard.tsx:89 | exactly the users listed as a student of some mentor course |
| MentorDashboard.LoadView | pages/mentor/MentorDashboard.tsx:15-29 | without a session nothing loads; otherwise the loaded courses are exactly those listing the session user as a mentor, and a stored submission is shown exactly when its course lists the session user as a mentor, both in stored order |
| MentorDashboard.GradeSubmit | pages/mentor/MentorDashboard.tsx:31-45 | no selection is a no-op; otherwise the count is kept, only the first record with that id changes, it equals the selected one with grade, feedback and time set, and the panel clears its selection and keeps its grade and feedback; in the local list every entry with that id shows the graded copy and every other entry is kept; the graded entry leaves the pending queue when the time is non-empty and stays queued when it is empty |
| MentorDashboard.OpenGrading | pages/mentor/MentorDashboard.tsx:73 | the clicked submission is selected and the grade and feedback return to the panel's initial values (0 and empty) |
| MentorDashboard.ReplaceById | pages/mentor/MentorDashboard.tsx:43 | the local list keeps its length; every entry with the saved id shows the saved record and every other entry is kept |
| MentorDashboard.OpenThenGradeRecordsZero | pages/mentor/MentorDashboard.tsx:73 | opening the panel resets the grade to 0 and the feedback to empty, so the handler, run straight after opening, stores grade 0 and empty feedback |
| CourseView.OpenCourse | pages/student/CourseView.tsx:21-27 | the first course with the id is opened on its first lesson; no lesson is selected when the id is unknown or the course has no lessons |
| CourseView.ExistingSubmission | pages/student/CourseView.tsx:29-37 | the earlier submission is the first whose student and lesson both match, and there is none exactly when nothing matches |
| CourseView.ChosenId | pages/student/CourseView.tsx:48 | the earlier submission's id is reused when it is truthy (present and non-empty); otherwise the fresh id is used |
| CourseView.ResubmissionLocked | pages/student/CourseView.tsx:104-121 | the form is locked exactly when the earlier submission's grade is truthy: no earlier submission, no grade, or grade 0 leaves it open, and any other grade locks it |
| CourseView.SubmitWork | pages/student/CourseView.tsx:43-60 | without a session, course or lesson it is a no-op; a resubmission replaces in place; a first submission under a fresh id is appended; either way the record has the session user, course, lesson and content, and no grade, feedback or grading time |
| CourseView.SubmissionEntersQueue | pages/student/CourseView.tsx:47-56 | after a submission, the student's work for that lesson is in the pending queue of every mentor of the course |
| CourseView.GradeLocksIffNonZero | pages/student/CourseView.tsx:104-121 | after a mentor grades a student's lesson submission, resubmission is locked exactly when the grade is non-zero |
| StudentDashboard.StudentCourses | pages/student/StudentDashboard.tsx:12-17 | without a session, no courses; otherwise exactly the courses listing the session user as a student, in stored order |
| StudentDashboard.AssignedCourseIsShown | pages/student/StudentDashboard.tsx:14-15 | once a student is assigned to a course, the course is on that student's dashboard |
| StudentDashboard.GeneratedCourseIsOnNoDashboard | pages/student/StudentDashboard.tsx:12-17 | generating a course under a fresh id leaves every student's dashboard exactly as it was, until someone assigns the student |
| App.DashboardRouter | App.tsx:24-37 | no session redirects to /login; each role gets the dashboard meant for that role |
| App.Route | App.tsx:39-80 | /login and /register render their pages; without a session /dashboard, /admin/*, /mentor/* and /course/:id redirect to /login and only login and registration ever render; with one, /dashboard renders the session role's dashboard in the layout, /admin/* and /mentor/* render their dashboard in the layout for their own role and send other roles to /dashboard, and /course/:id renders for any role; a dashboard page renders only for its own role; / redirects to /dashboard and unknown paths render nothing |
| App.PrivateRoute | App.tsx:12-15 | no session redirects to /login; a session gets the layout showing exactly what the child shows; nothing renders without a session |
| App.RoleRoute | App.tsx:17-22 | no session redirects to /login, another role to /dashboard; a page renders exactly when the session has the required role and the child renders one, and it is the child's page |
| App.DeactivationNeedsRelogin | App.tsx:12-22 | deactivating a signed-in user changes no route's answer, because the guards read the session snapshot; that user's next login is refused |

## Left out

- JSON serialisation and `localStorage`: slots are abstract values, so the parse-failure path does not exist. `getItems`/`setItems` become a slot read (`Db.Items`) and a slot write.
- `services/gemini.ts`: the course generator is an outline parameter (`None` when it fails or returns nothing). The tutor chat (`handleChat` in `pages/student/CourseView.tsx`) is not modelled, because it is a network call.
- `components/Layout.tsx` and all rendering, `useState`/`useEffect` timing, navigation, `alert` and `setTimeout`. These are UI plumbing. A route's result is a `View` value.
- The local refresh in `pages/student/CourseView.tsx:58`: the earlier submission is always re-read from the store. This is because the page reloads it from storage on every render.
- The admin's local course list: `AdminDashboard.Assign` reads the store's list. The dashboard reloads it after every write.
- Multi-tab races on shared storage: every handler is modelled as one atomic step on one store.
- HTML form constraints (required fields, the grade input's 0–100 range): the browser enforces them, not the handlers.
- The admin table's mentor-name column: display only.
- AdminDashboard.CandidatesAreAppended: the selectors' `if (e.target.value)` guard (`pages/admin/AdminDashboard.tsx:239`, `:248`) is not modelled. A candidate whose id is the empty string would be a no-op there. Registered ids come from `crypto.randomUUID()`, so they are never empty.
- `DashboardRouter`'s "Unknown Role" branch: roles are an enumeration, so it cannot be reached.
- CourseView.ResubmissionLocked: grades are integers, so JavaScript's `NaN` (also falsy) is not represented.
- AdminDashboard.HandleGenerate: states the outcome only for a fresh course id. A colliding id replaces that course in place, as `Db.SaveCourse` states.
- CourseView.SubmitWork: the submitted `content` is a free parameter standing for the textarea's value. In the code as written, the effect at `pages/student/CourseView.tsx:29-37` depends on `user`, a fresh object on every render, so it runs after every render. Each run resets the textarea to the earlier submission's content (or empty) and resets the chat, so typed text is overwritten before it can be submitted. The model does not capture this render loop.
- CourseView.SubmitWork: states in-place replacement only when the earlier submission is also the first record with its id. With duplicate ids, the first record carrying that id is replaced, as `Db.SaveSubmission` states.
- AdminDashboard.StatusChange: states "only the status changes" for a displayed user equal to the stored record. A stale displayed copy overwrites the stored fields with its own.
