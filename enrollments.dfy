/** The enrollments router: the role-scoped learner report and the
    caller's enrolled courses. Both only read the tables. */
module Enrollments {
  import opened Wrappers
  import opened Seqs
  import opened Text
  import opened DbModels
  import opened Courses

  // -------------------------------------------------------- learner report

  /** `role_str`: the role's value, lower-cased. */
  function RoleKey(u: User): string
  {
    Lower(u.role.Value())
  }

  /** The lower-cased role picks out exactly the admins and the instructors. */
  lemma RoleKeyOf(u: User)
    ensures RoleKey(u) == "admin" <==> u.role == Admin
    ensures RoleKey(u) == "instructor" <==> u.role == Instructor
  {
    var v := u.role.Value();
    assert forall i :: 0 <= i < |v| ==> !IsUpperAscii(v[i]);
    LowerOfLowercase(v);
  }

  /** The rows each role sees: an admin every enrollment, an instructor the
      enrollments joined to a course they author, anyone else their own. */
  predicate Visible(d: Db, caller: User, e: Enrollment)
  {
    if RoleKey(caller) == "admin" then true
    else if RoleKey(caller) == "instructor" then
      exists i :: 0 <= i < |d.courses| && d.courses[i].id == e.courseId && d.courses[i].instructorId == caller.id
    else e.userId == caller.id
  }

  function VisibleTo(d: Db, caller: User): Enrollment -> bool
  {
    (e: Enrollment) => Visible(d, caller, e)
  }

  function VisibleEnrollments(d: Db, caller: User): seq<Enrollment>
  {
    Filter(d.enrollments, VisibleTo(d, caller))
  }

  /** An admin's report covers every enrollment, in table order. */
  lemma AdminSeesAll(d: Db, caller: User)
    requires caller.role == Admin
    ensures VisibleEnrollments(d, caller) == d.enrollments
  {
    RoleKeyOf(caller);
    FilterAll(d.enrollments, VisibleTo(d, caller));
  }

  /** An instructor's report covers exactly the enrollments in courses they author. */
  lemma InstructorSeesOwnCourses(d: Db, caller: User)
    requires caller.role == Instructor
    ensures forall e :: e in VisibleEnrollments(d, caller) <==>
      e in d.enrollments &&
      exists i :: 0 <= i < |d.courses| && d.courses[i].id == e.courseId && d.courses[i].instructorId == caller.id
  {
    RoleKeyOf(caller);
    VisibleMembers(d, caller);
  }

  /** A student's report covers exactly their own enrollments. */
  lemma StudentSeesOwnEnrollments(d: Db, caller: User)
    requires caller.role == Student
    ensures forall e :: e in VisibleEnrollments(d, caller) <==> e in d.enrollments && e.userId == caller.id
  {
    RoleKeyOf(caller);
    VisibleMembers(d, caller);
  }

  lemma VisibleMembers(d: Db, caller: User)
    ensures forall e :: e in VisibleEnrollments(d, caller) <==> e in d.enrollments && Visible(d, caller, e)
  {
    FilterMembers(d.enrollments, VisibleTo(d, caller));
    forall e | e in d.enrollments && Visible(d, caller, e) ensures e in VisibleEnrollments(d, caller) {
      var i :| 0 <= i < |d.enrollments| && d.enrollments[i] == e;
    }
  }

  /** `LearnerReportResponse`. */
  datatype LearnerRow = LearnerRow(
    id: Id,
    courseId: Id,
    courseName: string,
    userId: Id,
    userName: string,
    userEmail: string,
    enrolledAt: Timestamp,
    startedAt: Option<Timestamp>,
    timeSpent: int,
    progressPercentage: int,
    status: EnrollmentStatus)

  function CompletedOf(eid: Id): LessonProgress -> bool
  {
    (p: LessonProgress) => p.enrollmentId == eid && p.isCompleted
  }

  /** `completed_at` of the first row under `ORDER BY completed_at` on
      SQLite, where a null sorts before every time: null when some row has
      no time, otherwise the earliest time; no row gives null as well. */
  function FirstCompletedAt(rows: seq<LessonProgress>): (r: Option<Timestamp>)
    ensures rows == [] ==> r == None
    ensures (exists i :: 0 <= i < |rows| && rows[i].completedAt.None?) ==> r == None
    ensures rows != [] && (forall i :: 0 <= i < |rows| ==> rows[i].completedAt.Some?) ==> r.Some?
    ensures r.Some? ==>
      && (exists i :: 0 <= i < |rows| && rows[i].completedAt == r)
      && (forall i :: 0 <= i < |rows| ==> rows[i].completedAt.Some? && r.value <= rows[i].completedAt.value)
  {
    if rows == [] || rows[0].completedAt.None? then None
    else if |rows| == 1 then rows[0].completedAt
    else
      match FirstCompletedAt(rows[1..])
      case None => None
      case Some(t) => Some(if rows[0].completedAt.value <= t then rows[0].completedAt.value else t)
  }

  /** `started_at` of an enrollment: over its completed progress rows. */
  function StartedAt(d: Db, eid: Id): Option<Timestamp>
  {
    FirstCompletedAt(Filter(d.progress, CompletedOf(eid)))
  }

  /** When completions carry their time, `started_at` is the earliest
      completion time of the enrollment, and null exactly when none of its
      rows is completed. */
  lemma StartedAtIsEarliestCompletion(d: Db, eid: Id)
    requires forall i :: 0 <= i < |d.progress| && d.progress[i].isCompleted ==> d.progress[i].completedAt.Some?
    ensures StartedAt(d, eid).None? <==>
      forall i :: 0 <= i < |d.progress| ==> !(d.progress[i].enrollmentId == eid && d.progress[i].isCompleted)
    ensures StartedAt(d, eid).Some? ==>
      forall i :: 0 <= i < |d.progress| && d.progress[i].enrollmentId == eid && d.progress[i].isCompleted
        ==> StartedAt(d, eid).value <= d.progress[i].completedAt.value
  {
    var rows := Filter(d.progress, CompletedOf(eid));
    FilterMembers(d.progress, CompletedOf(eid));
    assert forall i :: 0 <= i < |rows| ==> rows[i].completedAt.Some? by {
      forall i | 0 <= i < |rows| ensures rows[i].completedAt.Some? {
        var j :| 0 <= j < |d.progress| && d.progress[j] == rows[i];
      }
    }
    forall i | 0 <= i < |d.progress| && d.progress[i].enrollmentId == eid && d.progress[i].isCompleted
      ensures d.progress[i] in rows {
    }
    if StartedAt(d, eid).Some? {
      forall i | 0 <= i < |d.progress| && d.progress[i].enrollmentId == eid && d.progress[i].isCompleted
        ensures StartedAt(d, eid).value <= d.progress[i].completedAt.value {
        var k :| 0 <= k < |rows| && rows[k] == d.progress[i];
      }
    }
  }

  /** The report row of one enrollment, or none when its user or its course
      row is missing (the source then fails with 500). */
  function RowFor(d: Db, e: Enrollment): Option<LearnerRow>
  {
    var user := First(d.users, UserWithId(e.userId));
    var course := First(d.courses, CourseWithId(e.courseId));
    if user.None? || course.None? then None
    else
      Some(LearnerRow(e.id, course.value.id, course.value.title, user.value.id, user.value.fullName,
                      user.value.email, e.enrolledAt, StartedAt(d, e.id), 0, e.progressPercentage, e.status))
  }

  /** The report row copies the enrollment, its user and its course. */
  lemma RowForMeaning(d: Db, e: Enrollment)
    ensures var r := RowFor(d, e);
      && (r.None? <==>
            (forall i :: 0 <= i < |d.users| ==> d.users[i].id != e.userId) ||
            (forall i :: 0 <= i < |d.courses| ==> d.courses[i].id != e.courseId))
      && (r.Some? ==>
            && r.value.id == e.id && r.value.userId == e.userId && r.value.courseId == e.courseId
            && r.value.enrolledAt == e.enrolledAt && r.value.timeSpent == 0
            && r.value.progressPercentage == e.progressPercentage && r.value.status == e.status
            && r.value.startedAt == StartedAt(d, e.id)
            && (exists i :: 0 <= i < |d.courses| && d.courses[i].id == e.courseId && d.courses[i].title == r.value.courseName)
            && (exists i :: 0 <= i < |d.users| && d.users[i].id == e.userId
                  && d.users[i].fullName == r.value.userName && d.users[i].email == r.value.userEmail))
  {
  }

  /** The loop of `get_learner_report` over the enrollments `es`: one row
      each, in order, or 500 at the first enrollment without a row. */
  method ReportRows(d: Db, es: seq<Enrollment>) returns (r: Result<seq<LearnerRow>, ApiError>)
    ensures r.Failure? <==> exists i :: 0 <= i < |es| && RowFor(d, es[i]).None?
    ensures r.Failure? ==> r.error == Internal
    ensures r.Success? ==> |r.value| == |es| && forall i :: 0 <= i < |es| ==> RowFor(d, es[i]) == Some(r.value[i])
  {
    var result: seq<LearnerRow> := [];
    var i := 0;
    while i < |es|
      invariant 0 <= i <= |es|
      invariant |result| == i
      invariant forall k :: 0 <= k < i ==> RowFor(d, es[k]) == Some(result[k])
    {
      var row := RowFor(d, es[i]);
      if row.None? {
        return Failure(Internal);
      }
      result := result + [row.value];
      i := i + 1;
    }
    r := Success(result);
  }

  /** `get_learner_report`: one row per visible enrollment, in order; 500 if
      some visible enrollment has no user or course row. */
  method LearnerReport(db: Store, caller: User) returns (r: Result<seq<LearnerRow>, ApiError>)
    ensures var vis := VisibleEnrollments(db.State(), caller);
      && (r.Failure? <==> exists i :: 0 <= i < |vis| && RowFor(db.State(), vis[i]).None?)
      && (r.Failure? ==> r.error == Internal)
      && (r.Success? ==> |r.value| == |vis|)
      && (r.Success? ==> forall i :: 0 <= i < |vis| ==> RowFor(db.State(), vis[i]) == Some(r.value[i]))
  {
    var d := db.State();
    r := ReportRows(d, VisibleEnrollments(d, caller));
  }

  // ------------------------------------------------------ my enrolled courses

  /** `get_my_enrolled_courses`: one course per enrollment of the caller whose
      course exists, annotated with that enrollment's status and progress.
      The response schema reads `lessons_count` before it loads `lessons`,
      so the count is 0 while the lesson list is the course's. */
  method MyEnrolledCourses(db: Store, caller: User) returns (r: seq<CourseDetail>)
    ensures var joined := JoinedEnrollments(db.State(), caller.id);
      && |r| == |joined|
      && forall i :: 0 <= i < |r| ==>
           var c := CourseOf(db.courses, joined[i]);
           r[i] == CourseDetail(Annotated(c, joined[i]), Filter(db.lessons, LessonOfCourse(c.id)))
  {
    var rows := EnrolledCourseRows(db, caller.id);
    r := [];
    var i := 0;
    while i < |rows|
      invariant 0 <= i <= |rows|
      invariant |r| == i
      invariant forall k :: 0 <= k < i ==> r[k] == CourseDetail(rows[k], Filter(db.lessons, LessonOfCourse(rows[k].course.id)))
    {
      r := r + [CourseDetail(rows[i], Filter(db.lessons, LessonOfCourse(rows[i].course.id)))];
      i := i + 1;
    }
  }
}
