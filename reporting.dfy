/** The reporting router: one row per course the caller authors, with the
    course's enrollment counts and its mean progress. It only reads. */
module Reporting {
  import opened Wrappers
  import opened Seqs
  import opened Rounding
  import opened DbModels
  import opened Auth

  /** `CourseReport`. */
  datatype CourseReport = CourseReport(
    courseId: Id,
    courseTitle: string,
    totalEnrollments: nat,
    activeCount: nat,
    completedCount: nat,
    averageProgress: real)

  function EnrollmentIn(cid: Id, s: EnrollmentStatus): Enrollment -> bool
  {
    (e: Enrollment) => e.courseId == cid && e.status == s
  }

  function ProgressOfEnrollment(e: Enrollment): int
  {
    e.progressPercentage
  }

  /** `round(avg(progress_percentage) or 0.0, 2)`: the mean of the rows,
      rounded to two decimals, and 0.0 over no rows. */
  function AverageProgress(es: seq<Enrollment>): (r: real)
    ensures es == [] ==> r == 0.0
  {
    if |es| == 0 then 0.0
    else RoundTo(Sum(es, ProgressOfEnrollment) as real / |es| as real, 2)
  }

  /** The row the loop builds for one course. */
  function ReportOf(d: Db, c: Course): CourseReport
  {
    CourseReport(
      c.id, c.title,
      Count(d.enrollments, EnrollmentOfCourse(c.id)),
      Count(d.enrollments, EnrollmentIn(c.id, Active)),
      Count(d.enrollments, EnrollmentIn(c.id, Completed)),
      AverageProgress(Filter(d.enrollments, EnrollmentOfCourse(c.id))))
  }

  /** The courses reported on: those whose instructor is the caller, so an
      admin gets their own courses only. */
  function ReportedCourses(d: Db, caller: User): seq<Course>
  {
    Filter(d.courses, CourseByInstructor(caller.id))
  }

  /** `get_instructor_report` as written: 403 below the staff roles. The
      aggregate query of each loop pass calls `func.cast(…, 1)` and
      `func.case([…], else_=0)`, which are generic SQL function calls and not
      SQLAlchemy's `cast` and `case` constructs: a Python list is no SQL
      argument, `else_` is no argument of a generic function, and a two-
      argument `cast` without `AS type` is not SQL. So the first pass raises
      and the endpoint answers 500; only a caller who authors no course gets
      through, with the empty list. */
  method InstructorReport(db: Store, caller: User) returns (r: Result<seq<CourseReport>, ApiError>)
    ensures !(caller.role == Instructor || caller.role == Admin) ==> r == Failure(Forbidden)
    ensures (caller.role == Instructor || caller.role == Admin) ==>
      (r.Failure? <==> ReportedCourses(db.State(), caller) != [])
    ensures r.Failure? && (caller.role == Instructor || caller.role == Admin) ==> r.error == Internal
    ensures r.Success? ==> r.value == []
  {
    StaffGate(caller);
    if RoleRequired(caller, StaffRoles).Failure? {
      return Failure(Forbidden);
    }
    var courses := Filter(db.courses, CourseByInstructor(caller.id));
    if courses != [] {
      return Failure(Internal);
    }
    r := Success([]);
  }

  /** The report the endpoint evidently means to give, with `case` built by
      SQLAlchemy's own `case` construct and the unused `cast` column gone:
      403 below the staff roles; otherwise one row per authored course, in
      table order. */
  method InstructorReportCorrected(db: Store, caller: User) returns (r: Result<seq<CourseReport>, ApiError>)
    ensures r.Failure? <==> !(caller.role == Instructor || caller.role == Admin)
    ensures r.Failure? ==> r.error == Forbidden
    ensures r.Success? ==> |r.value| == |ReportedCourses(db.State(), caller)|
    ensures r.Success? ==> forall i :: 0 <= i < |r.value| ==>
      r.value[i] == ReportOf(db.State(), ReportedCourses(db.State(), caller)[i])
  {
    StaffGate(caller);
    if RoleRequired(caller, StaffRoles).Failure? {
      return Failure(Forbidden);
    }
    var courses := Filter(db.courses, CourseByInstructor(caller.id));
    var reports: seq<CourseReport> := [];
    var i := 0;
    while i < |courses|
      invariant 0 <= i <= |courses|
      invariant |reports| == i
      invariant forall k :: 0 <= k < i ==> reports[k] == ReportOf(db.State(), courses[k])
    {
      var course := courses[i];
      var rows := Filter(db.enrollments, EnrollmentOfCourse(course.id));
      var total := |rows|;
      var active := Count(db.enrollments, EnrollmentIn(course.id, Active));
      var completed := Count(db.enrollments, EnrollmentIn(course.id, Completed));
      var avg := if total == 0 then 0.0 else Sum(rows, ProgressOfEnrollment) as real / total as real;
      reports := reports + [CourseReport(course.id, course.title, total, active, completed, RoundTo(avg, 2))];
      i := i + 1;
    }
    r := Success(reports);
  }

  /** Exactly the authored courses are reported on. */
  lemma ReportedCoursesContents(d: Db, caller: User)
    ensures forall c :: c in ReportedCourses(d, caller) <==> c in d.courses && c.instructorId == caller.id
    ensures IsSubsequence(ReportedCourses(d, caller), d.courses)
  {
    FilterMembers(d.courses, CourseByInstructor(caller.id));
    forall c | c in d.courses && c.instructorId == caller.id ensures c in ReportedCourses(d, caller) {
      var i :| 0 <= i < |d.courses| && d.courses[i] == c;
    }
  }

  /** Every enrollment of a course is active, completed or dropped, so the
      three status counts add up to the course's total. */
  lemma {:induction false} StatusCountsPartition(es: seq<Enrollment>, cid: Id)
    ensures Count(es, EnrollmentOfCourse(cid)) ==
      Count(es, EnrollmentIn(cid, Active)) + Count(es, EnrollmentIn(cid, Completed)) + Count(es, EnrollmentIn(cid, Dropped))
  {
    if es != [] {
      StatusCountsPartition(es[1..], cid);
    }
  }

  /** The report's counts: the total is the course's enrollment count, and
      active plus completed is at most the total, the rest being dropped. */
  lemma ReportCounts(d: Db, c: Course)
    ensures ReportOf(d, c).totalEnrollments == Count(d.enrollments, EnrollmentOfCourse(c.id))
    ensures ReportOf(d, c).activeCount + ReportOf(d, c).completedCount <= ReportOf(d, c).totalEnrollments
    ensures ReportOf(d, c).totalEnrollments - ReportOf(d, c).activeCount - ReportOf(d, c).completedCount
      == Count(d.enrollments, EnrollmentIn(c.id, Dropped))
  {
    StatusCountsPartition(d.enrollments, c.id);
  }

  /** A course without enrollments reports zeros throughout. */
  lemma ReportOfUnenrolledCourse(d: Db, c: Course)
    requires forall i :: 0 <= i < |d.enrollments| ==> d.enrollments[i].courseId != c.id
    ensures ReportOf(d, c) == CourseReport(c.id, c.title, 0, 0, 0, 0.0)
  {
    FilterNone(d.enrollments, EnrollmentOfCourse(c.id));
    FilterNone(d.enrollments, EnrollmentIn(c.id, Active));
    FilterNone(d.enrollments, EnrollmentIn(c.id, Completed));
  }

  /** Progress values that all lie in [0, 100] average to a value in [0, 100]. */
  lemma AverageProgressBounds(d: Db, c: Course)
    requires forall i :: 0 <= i < |d.enrollments| ==> 0 <= d.enrollments[i].progressPercentage <= 100
    ensures 0.0 <= ReportOf(d, c).averageProgress <= 100.0
  {
    var rows := Filter(d.enrollments, EnrollmentOfCourse(c.id));
    if rows != [] {
      FilterMembers(d.enrollments, EnrollmentOfCourse(c.id));
      forall i | 0 <= i < |rows| ensures 0 <= ProgressOfEnrollment(rows[i]) <= 100 {
        var j :| 0 <= j < |d.enrollments| && d.enrollments[j] == rows[i];
      }
      SumBounds(rows, ProgressOfEnrollment, 0, 100);
      MeanBounds(Sum(rows, ProgressOfEnrollment), |rows|, 0, 100);
      RoundToBounds(Sum(rows, ProgressOfEnrollment) as real / |rows| as real, 2, 0, 100);
    }
  }

  /** When every enrollment of the course has the same progress, that is the average. */
  lemma AverageProgressUniform(es: seq<Enrollment>, v: int)
    requires es != []
    requires forall i :: 0 <= i < |es| ==> es[i].progressPercentage == v
    ensures AverageProgress(es) == v as real
  {
    SumBounds(es, ProgressOfEnrollment, v, v);
    MeanBounds(Sum(es, ProgressOfEnrollment), |es|, v, v);
    RoundToOfInt(v, 2);
  }
}
