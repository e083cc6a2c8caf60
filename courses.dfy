/** The courses router: creating, updating and publishing courses behind the
    staff gate and the ownership guard, enrolling, the published catalogue
    with its search, the course page with its rating, and the caller's own
    course list. */
module Courses {
  import opened Wrappers
  import opened Seqs
  import opened Text
  import opened Rounding
  import opened DbModels
  import opened Auth
  import opened Lessons

  // ------------------------------------------------------------- create

  /** The `CourseCreate` payload. The schema types `level` as any string; it
      is typed by the enum here, and a value outside it stands for the flush
      that fails at commit, a 500 that is not modelled. */
  datatype CourseCreate = CourseCreate(
    title: string,
    description: Option<string>,
    thumbnailUrl: Option<string>,
    category: Option<string>,
    price: real,
    level: CourseLevel)

  /** The row `create_course` inserts: the payload's fields, the caller as
      instructor and status draft. */
  function NewCourse(id: Id, instructorId: Id, input: CourseCreate): Course
  {
    Course(id, instructorId, input.title, input.description, input.thumbnailUrl,
           input.category, input.price, input.level, Draft)
  }

  /** `create_course`: 403 for a non-staff caller; otherwise one new course. */
  function CreateCourseSpec(d: Db, caller: User, input: CourseCreate): (r: Response<Course>)
  {
    if RoleRequired(caller, StaffRoles).Failure? then Response(d, Failure(Forbidden))
    else
      var c := NewCourse(d.nextId, caller.id, input);
      Response(d.(courses := d.courses + [c], nextId := d.nextId + 1), Success(c))
  }

  /** The new course belongs to the caller and starts as a draft, whatever
      the payload; students are refused without a write. */
  lemma CreateCourseOutcome(d: Db, caller: User, input: CourseCreate)
    ensures var r := CreateCourseSpec(d, caller, input);
      && (r.result.Failure? <==> caller.role == Student)
      && (r.result.Failure? ==> r == Response(d, Failure(Forbidden)))
      && (r.result.Success? ==>
            && r.result.value.instructorId == caller.id
            && r.result.value.status == Draft
            && r.result.value.title == input.title && r.result.value.price == input.price
            && r.result.value.level == input.level && r.result.value.category == input.category
            && r.result.value.description == input.description
            && r.result.value.thumbnailUrl == input.thumbnailUrl
            && r.db == d.(courses := d.courses + [r.result.value], nextId := d.nextId + 1))
  {
    StaffGate(caller);
  }

  lemma CreateCoursePreservesWellFormed(d: Db, caller: User, input: CourseCreate)
    requires WellFormed(d)
    ensures WellFormed(CreateCourseSpec(d, caller, input).db)
  {
    var r := CreateCourseSpec(d, caller, input);
    if r.result.Success? {
      AppendFresh(d.courses, r.result.value, CourseId, d.nextId);
      RaiseBound(d.users, UserId, d.nextId, d.nextId + 1);
      RaiseBound(d.lessons, LessonId, d.nextId, d.nextId + 1);
      RaiseBound(d.enrollments, EnrollmentId, d.nextId, d.nextId + 1);
      RaiseBound(d.progress, ProgressId, d.nextId, d.nextId + 1);
      RaiseBound(d.reviews, ReviewId, d.nextId, d.nextId + 1);
    }
  }

  // ------------------------------------------------------------- update

  /** The `CourseUpdate` payload: each field absent or given. */
  datatype CourseUpdate = CourseUpdate(
    title: Patch<string>,
    description: Patch<Option<string>>,
    thumbnailUrl: Patch<Option<string>>,
    category: Patch<Option<string>>,
    price: Patch<real>,
    level: Patch<CourseLevel>,
    status: Patch<CourseStatus>)

  /** The update that only sets the status. */
  function OnlyStatus(s: CourseStatus): CourseUpdate
  {
    CourseUpdate(Keep, Keep, Keep, Keep, Keep, Keep, Put(s))
  }

  /** The `setattr` loop over the fields present in the request. */
  function ApplyCourseUpdate(c: Course, u: CourseUpdate): (c': Course)
    ensures c'.id == c.id && c'.instructorId == c.instructorId
    ensures u.title.Keep? ==> c'.title == c.title
    ensures u.title.Put? ==> c'.title == u.title.value
    ensures u.description.Keep? ==> c'.description == c.description
    ensures u.description.Put? ==> c'.description == u.description.value
    ensures u.thumbnailUrl.Keep? ==> c'.thumbnailUrl == c.thumbnailUrl
    ensures u.thumbnailUrl.Put? ==> c'.thumbnailUrl == u.thumbnailUrl.value
    ensures u.category.Keep? ==> c'.category == c.category
    ensures u.category.Put? ==> c'.category == u.category.value
    ensures u.price.Keep? ==> c'.price == c.price
    ensures u.price.Put? ==> c'.price == u.price.value
    ensures u.level.Keep? ==> c'.level == c.level
    ensures u.level.Put? ==> c'.level == u.level.value
    ensures u.status.Keep? ==> c'.status == c.status
    ensures u.status.Put? ==> c'.status == u.status.value
  {
    c.(title := u.title.Apply(c.title),
       description := u.description.Apply(c.description),
       thumbnailUrl := u.thumbnailUrl.Apply(c.thumbnailUrl),
       category := u.category.Apply(c.category),
       price := u.price.Apply(c.price),
       level := u.level.Apply(c.level),
       status := u.status.Apply(c.status))
  }

  /** Sending the same update twice has the effect of sending it once, and
      an update with no field set changes nothing. */
  lemma ApplyCourseUpdateIdempotent(c: Course, u: CourseUpdate)
    ensures ApplyCourseUpdate(ApplyCourseUpdate(c, u), u) == ApplyCourseUpdate(c, u)
    ensures ApplyCourseUpdate(c, CourseUpdate(Keep, Keep, Keep, Keep, Keep, Keep, Keep)) == c
  {
  }

  /** The guards shared by `update_course` and `publish_course`: 403 for a
      non-staff caller, 404 for an unknown course, 403 unless the caller
      owns the course or is an admin; otherwise the course's position. */
  function OwnedCourse(d: Db, caller: User, courseId: Id): (r: Result<nat, ApiError>)
    ensures r.Success? ==> r.value < |d.courses| && d.courses[r.value].id == courseId
  {
    if RoleRequired(caller, StaffRoles).Failure? then Failure(Forbidden)
    else
      match FirstIndex(d.courses, CourseWithId(courseId))
      case None => Failure(NotFound)
      case Some(ci) =>
        if !OwnerOrAdmin(d.courses[ci], caller) then Failure(Forbidden)
        else Success(ci)
  }

  /** The error order of the guards: role, then existence, then ownership. */
  lemma OwnedCourseOrder(d: Db, caller: User, courseId: Id)
    ensures caller.role == Student ==> OwnedCourse(d, caller, courseId) == Failure(Forbidden)
    ensures caller.role != Student && (forall i :: 0 <= i < |d.courses| ==> d.courses[i].id != courseId)
      ==> OwnedCourse(d, caller, courseId) == Failure(NotFound)
    ensures caller.role != Student && (exists i :: 0 <= i < |d.courses| && d.courses[i].id == courseId)
      ==> OwnedCourse(d, caller, courseId) != Failure(NotFound)
    ensures OwnedCourse(d, caller, courseId).Success? <==>
      caller.role != Student &&
      exists i :: 0 <= i < |d.courses| && d.courses[i].id == courseId &&
        FirstIndex(d.courses, CourseWithId(courseId)) == Some(i) && OwnerOrAdmin(d.courses[i], caller)
  {
    StaffGate(caller);
  }

  /** `update_course`: the guards, then the supplied fields replaced. */
  function UpdateCourseSpec(d: Db, caller: User, courseId: Id, u: CourseUpdate): (r: Response<Course>)
  {
    match OwnedCourse(d, caller, courseId)
    case Failure(e) => Response(d, Failure(e))
    case Success(ci) =>
      var c' := ApplyCourseUpdate(d.courses[ci], u);
      Response(d.(courses := d.courses[ci := c']), Success(c'))
  }

  /** `update_course` touches only the one course, an error writes nothing. */
  lemma UpdateCourseOutcome(d: Db, caller: User, courseId: Id, u: CourseUpdate)
    ensures var r := UpdateCourseSpec(d, caller, courseId, u);
      && (r.result.Failure? ==> r.db == d && r.result.error == OwnedCourse(d, caller, courseId).error)
      && (r.result.Success? ==>
            exists i :: 0 <= i < |d.courses| && d.courses[i].id == courseId
              && OwnerOrAdmin(d.courses[i], caller)
              && r.result.value == ApplyCourseUpdate(d.courses[i], u)
              && r.db == d.(courses := d.courses[i := r.result.value])
              && (forall j :: 0 <= j < |d.courses| && j != i ==> r.db.courses[j] == d.courses[j]))
  {
  }

  lemma UpdateCoursePreservesWellFormed(d: Db, caller: User, courseId: Id, u: CourseUpdate)
    requires WellFormed(d)
    ensures WellFormed(UpdateCourseSpec(d, caller, courseId, u).db)
  {
    var r := UpdateCourseSpec(d, caller, courseId, u);
    if r.result.Success? {
      var ci := OwnedCourse(d, caller, courseId).value;
      UpdateSameKey(d.courses, ci, r.result.value, CourseId);
      UpdateSameIdBelow(d.courses, ci, r.result.value, CourseId, d.nextId);
    }
  }

  // ------------------------------------------------------------ publish

  /** `publish_course`: the guards, then status published, with no check of
      the prior status or of the lessons. */
  function PublishCourseSpec(d: Db, caller: User, courseId: Id): (r: Response<Course>)
  {
    match OwnedCourse(d, caller, courseId)
    case Failure(e) => Response(d, Failure(e))
    case Success(ci) =>
      var c' := d.courses[ci].(status := Published);
      Response(d.(courses := d.courses[ci := c']), Success(c'))
  }

  /** Publishing is the update that only sets the status to published. */
  lemma PublishIsStatusUpdate(d: Db, caller: User, courseId: Id)
    ensures PublishCourseSpec(d, caller, courseId) == UpdateCourseSpec(d, caller, courseId, OnlyStatus(Published))
  {
  }

  /** A published course is published whatever it was, and keeps every other field. */
  lemma PublishOutcome(d: Db, caller: User, courseId: Id)
    ensures var r := PublishCourseSpec(d, caller, courseId);
      && (r.result.Failure? ==> r.db == d)
      && (r.result.Success? ==>
            exists i :: 0 <= i < |d.courses| && d.courses[i].id == courseId
              && r.result.value == d.courses[i].(status := Published)
              && r.db == d.(courses := d.courses[i := r.result.value]))
  {
  }

  /** Publishing twice is publishing once. */
  lemma PublishIdempotent(d: Db, caller: User, courseId: Id)
    requires PublishCourseSpec(d, caller, courseId).result.Success?
    ensures var d1 := PublishCourseSpec(d, caller, courseId).db;
      PublishCourseSpec(d1, caller, courseId) == PublishCourseSpec(d, caller, courseId)
  {
    var ci := OwnedCourse(d, caller, courseId).value;
    var d1 := PublishCourseSpec(d, caller, courseId).db;
    FirstIndexUpdate(d.courses, ci, d1.courses[ci], CourseWithId(courseId));
    assert d1.courses[ci := d1.courses[ci]] == d1.courses;
  }

  // ------------------------------------------------------------- enroll

  /** `enroll_course`: any authenticated caller; 404 for an unknown course;
      the caller's existing enrollment in the course is returned unchanged;
      otherwise one new active enrollment at 0 percent. */
  function EnrollSpec(d: Db, caller: User, courseId: Id, now: Timestamp): (r: Response<Enrollment>)
  {
    if First(d.courses, CourseWithId(courseId)).None? then Response(d, Failure(NotFound))
    else
      match First(d.enrollments, EnrollmentOf(caller.id, courseId))
      case Some(e) => Response(d, Success(e))
      case None =>
        var e := NewEnrollment(d.nextId, caller.id, courseId, now);
        Response(d.(enrollments := d.enrollments + [e], nextId := d.nextId + 1), Success(e))
  }

  predicate HasCourse(d: Db, courseId: Id)
  {
    exists i :: 0 <= i < |d.courses| && d.courses[i].id == courseId
  }

  predicate IsEnrolled(d: Db, uid: Id, courseId: Id)
  {
    exists j :: 0 <= j < |d.enrollments| && d.enrollments[j].userId == uid && d.enrollments[j].courseId == courseId
  }

  /** The three outcomes of `enroll_course`. */
  lemma EnrollOutcome(d: Db, caller: User, courseId: Id, now: Timestamp)
    ensures var r := EnrollSpec(d, caller, courseId, now);
      && (!HasCourse(d, courseId) <==> r == Response(d, Failure(NotFound)))
      && (r.result.Success? ==> r.result.value.userId == caller.id && r.result.value.courseId == courseId)
      && (HasCourse(d, courseId) && IsEnrolled(d, caller.id, courseId) ==>
            r.db == d && r.result.value in d.enrollments)
      && (HasCourse(d, courseId) && !IsEnrolled(d, caller.id, courseId) ==>
            && r.result.value.status == Active && r.result.value.progressPercentage == 0
            && r.result.value.enrolledAt == now
            && r.db == d.(enrollments := d.enrollments + [r.result.value], nextId := d.nextId + 1))
  {
  }

  lemma EnrollPreservesWellFormed(d: Db, caller: User, courseId: Id, now: Timestamp)
    requires WellFormed(d)
    ensures WellFormed(EnrollSpec(d, caller, courseId, now).db)
  {
    var r := EnrollSpec(d, caller, courseId, now);
    if r.db != d {
      var e := r.result.value;
      AppendFresh(d.enrollments, e, EnrollmentId, d.nextId);
      AppendNewKey(d.enrollments, e, EnrollmentKey);
      RaiseBound(d.users, UserId, d.nextId, d.nextId + 1);
      RaiseBound(d.courses, CourseId, d.nextId, d.nextId + 1);
      RaiseBound(d.lessons, LessonId, d.nextId, d.nextId + 1);
      RaiseBound(d.progress, ProgressId, d.nextId, d.nextId + 1);
      RaiseBound(d.reviews, ReviewId, d.nextId, d.nextId + 1);
    }
  }

  /** Enrolling again changes nothing and returns the same enrollment, even
      at a later time. */
  lemma EnrollIdempotent(d: Db, caller: User, courseId: Id, now: Timestamp, later: Timestamp)
    ensures var r1 := EnrollSpec(d, caller, courseId, now);
      var r2 := EnrollSpec(r1.db, caller, courseId, later);
      r2 == Response(r1.db, r1.result)
  {
    var r1 := EnrollSpec(d, caller, courseId, now);
    if r1.db != d {
      var e := r1.result.value;
      FirstIndexAppend(d.enrollments, e, EnrollmentOf(caller.id, courseId));
      assert r1.db.enrollments[|d.enrollments|] == e;
    }
  }

  /** Once enrolled, the caller has exactly one enrollment in the course,
      as long as the tables kept their constraints. */
  lemma EnrollLeavesOne(d: Db, caller: User, courseId: Id, now: Timestamp)
    requires WellFormed(d)
    requires EnrollSpec(d, caller, courseId, now).result.Success?
    ensures Count(EnrollSpec(d, caller, courseId, now).db.enrollments, EnrollmentOf(caller.id, courseId)) == 1
  {
    var d1 := EnrollSpec(d, caller, courseId, now).db;
    EnrollPreservesWellFormed(d, caller, courseId, now);
    var p := EnrollmentOf(caller.id, courseId);
    CountAtMostOneByKey(d1.enrollments, EnrollmentKey, p, (caller.id, courseId));
    var e := EnrollSpec(d, caller, courseId, now).result.value;
    assert e in d1.enrollments;
    FilterMembers(d1.enrollments, p);
    var j :| 0 <= j < |d1.enrollments| && d1.enrollments[j] == e;
    assert e in Filter(d1.enrollments, p);
  }

  // ---------------------------------------------------------- read views

  /** `CourseBriefResponse`: the course's columns plus the values the
      endpoints attach to it; attributes an endpoint does not set take the
      schema's defaults (0, 0.0, null). */
  datatype CourseBrief = CourseBrief(
    course: Course,
    lessonsCount: nat,
    rating: real,
    reviewsCount: nat,
    enrollmentStatus: Option<EnrollmentStatus>,
    progress: Option<int>)

  /** `CourseResponse`: a brief plus the course's lessons. */
  datatype CourseDetail = CourseDetail(brief: CourseBrief, lessons: seq<Lesson>)

  /** The response for a course whose lessons relationship is not loaded
      and on which nothing was set. */
  function Plain(c: Course): (b: CourseBrief)
  {
    CourseBrief(c, LessonsCount(None), 0.0, 0, None, None)
  }

  function ReviewRating(r: Review): int { r.rating }

  function ReviewsOf(d: Db, courseId: Id): seq<Review>
  {
    Filter(d.reviews, ReviewOfCourse(courseId))
  }

  /** The course rating: 0.0 without reviews, otherwise the mean rating
      rounded to one decimal. */
  function CourseRating(reviews: seq<Review>): (r: real)
    ensures reviews == [] ==> r == 0.0
  {
    if |reviews| == 0 then 0.0
    else RoundTo(Sum(reviews, ReviewRating) as real / |reviews| as real, 1)
  }

  /** Ratings that all lie in [lo, hi] give a course rating in [lo, hi]:
      a one-to-five scale keeps the average on that scale. */
  lemma CourseRatingBounds(reviews: seq<Review>, lo: int, hi: int)
    requires reviews != []
    requires forall i :: 0 <= i < |reviews| ==> lo <= reviews[i].rating <= hi
    ensures lo as real <= CourseRating(reviews) <= hi as real
  {
    SumBounds(reviews, ReviewRating, lo, hi);
    var mean := Sum(reviews, ReviewRating) as real / |reviews| as real;
    MeanBounds(Sum(reviews, ReviewRating), |reviews|, lo, hi);
    RoundToBounds(mean, 1, lo, hi);
  }

  /** When every review gives the same rating, that is the course rating. */
  lemma CourseRatingUniform(reviews: seq<Review>, v: int)
    requires reviews != []
    requires forall i :: 0 <= i < |reviews| ==> reviews[i].rating == v
    ensures CourseRating(reviews) == v as real
  {
    CourseRatingBounds(reviews, v, v);
  }

  /** An example: ratings 4 and 2 average to 3.0. */
  lemma CourseRatingExample(a: Review, b: Review)
    requires a.rating == 4 && b.rating == 2
    ensures CourseRating([a, b]) == 3.0
  {
    var s := [a, b];
    assert s[1..] == [b] && [b][1..] == [];
    assert Sum([b], ReviewRating) == 2;
    assert Sum(s, ReviewRating) == 6;
    assert 6 as real / 2 as real == 3.0;
    RoundToOfInt(3, 1);
  }

  /** The rating and review count a listing or course page attaches. */
  function Rated(d: Db, c: Course, lessonsCount: nat): (b: CourseBrief)
  {
    CourseBrief(c, lessonsCount, CourseRating(ReviewsOf(d, c.id)), |ReviewsOf(d, c.id)|, None, None)
  }

  // ---------------------------------------------------- published listing

  /** The search of the catalogue: `title`, `description` or `category`
      contains `q`, ignoring case; a null column never matches. */
  predicate MatchesQuery(c: Course, q: string)
  {
    || ContainsIgnoringCase(c.title, q)
    || (c.description.Some? && ContainsIgnoringCase(c.description.value, q))
    || (c.category.Some? && ContainsIgnoringCase(c.category.value, q))
  }

  /** Published, and matching the search when one is given (`if q:` skips
      both a missing and an empty `q`). */
  predicate Listed(c: Course, q: Option<string>)
  {
    c.status == Published && (q.None? || q.value == [] || MatchesQuery(c, q.value))
  }

  function ListedFor(q: Option<string>): Course -> bool
  {
    (c: Course) => Listed(c, q)
  }

  /** The courses the catalogue shows, in table order. */
  function Catalogue(d: Db, q: Option<string>): seq<Course>
  {
    Filter(d.courses, ListedFor(q))
  }

  /** The catalogue holds exactly the published courses matching the
      search, in table order. */
  lemma CatalogueContents(d: Db, q: Option<string>)
    ensures forall c :: c in Catalogue(d, q) <==> c in d.courses && Listed(c, q)
    ensures IsSubsequence(Catalogue(d, q), d.courses)
  {
    FilterMembers(d.courses, ListedFor(q));
    forall c | c in d.courses && Listed(c, q) ensures c in Catalogue(d, q) {
      var i :| 0 <= i < |d.courses| && d.courses[i] == c;
    }
  }

  /** Without a search, every published course is listed. */
  lemma CatalogueWithoutQuery(d: Db, c: Course)
    requires c in d.courses && c.status == Published
    ensures c in Catalogue(d, None) && c in Catalogue(d, Some(""))
  {
    CatalogueContents(d, None);
    CatalogueContents(d, Some(""));
  }

  /** `get_published_courses`: the query, then the loop that sets
      `reviewsCount` and `rating` on each course. The lessons relationship
      is not loaded, so `lessons_count` is 0. */
  method PublishedCourses(db: Store, q: Option<string>) returns (r: seq<CourseBrief>)
    ensures |r| == |Catalogue(db.State(), q)|
    ensures forall i :: 0 <= i < |r| ==> r[i] == Rated(db.State(), Catalogue(db.State(), q)[i], 0)
  {
    var courses := Filter(db.courses, ListedFor(q));
    r := [];
    var i := 0;
    while i < |courses|
      invariant 0 <= i <= |courses|
      invariant |r| == i
      invariant forall k :: 0 <= k < i ==> r[k] == Rated(db.State(), courses[k], 0)
    {
      var course := courses[i];
      var reviews := Filter(db.reviews, ReviewOfCourse(course.id));
      var rating := 0.0;
      if |reviews| > 0 {
        var avg := Sum(reviews, ReviewRating) as real / |reviews| as real;
        rating := RoundTo(avg, 1);
      }
      r := r + [CourseBrief(course, LessonsCount(None), rating, |reviews|, None, None)];
      i := i + 1;
    }
  }

  // ---------------------------------------------------------- course page

  /** `get_course`: 404 for an unknown course; otherwise the course with its
      lessons loaded (so `lessons_count` counts them), its rating and its
      review count. */
  function GetCourse(d: Db, courseId: Id): (r: Result<CourseDetail, ApiError>)
    ensures r.Failure? <==> forall i :: 0 <= i < |d.courses| ==> d.courses[i].id != courseId
    ensures r.Failure? ==> r.error == NotFound
    ensures r.Success? ==>
      && r.value.brief.course in d.courses && r.value.brief.course.id == courseId
      && r.value.lessons == Filter(d.lessons, LessonOfCourse(courseId))
      && r.value.brief.lessonsCount == TotalLessons(d, courseId)
      && r.value.brief.reviewsCount == Count(d.reviews, ReviewOfCourse(courseId))
      && r.value.brief.rating == CourseRating(ReviewsOf(d, courseId))
      && r.value.brief.enrollmentStatus == None && r.value.brief.progress == None
  {
    match First(d.courses, CourseWithId(courseId))
    case None => Failure(NotFound)
    case Some(c) =>
      var lessons := Filter(d.lessons, LessonOfCourse(c.id));
      Success(CourseDetail(Rated(d, c, LessonsCount(Some(lessons))), lessons))
  }

  // ---------------------------------------------------------- my courses

  /** The inner join of an enrollment of `uid` with its course. */
  predicate JoinsCourse(courses: seq<Course>, uid: Id, e: Enrollment)
  {
    e.userId == uid && First(courses, CourseWithId(e.courseId)).Some?
  }

  function EnrolledBy(courses: seq<Course>, uid: Id): Enrollment -> bool
  {
    (e: Enrollment) => JoinsCourse(courses, uid, e)
  }

  /** The caller's enrollments that join a course, in table order. */
  function JoinedEnrollments(d: Db, uid: Id): seq<Enrollment>
  {
    Filter(d.enrollments, EnrolledBy(d.courses, uid))
  }

  /** A course annotated with an enrollment's status and progress. */
  function Annotated(c: Course, e: Enrollment): CourseBrief
  {
    CourseBrief(c, LessonsCount(None), 0.0, 0, Some(e.status), Some(e.progressPercentage))
  }

  /** The course row an enrollment of the join refers to. */
  function CourseOf(courses: seq<Course>, e: Enrollment): (c: Course)
    requires First(courses, CourseWithId(e.courseId)).Some?
    ensures c in courses && c.id == e.courseId
  {
    First(courses, CourseWithId(e.courseId)).value
  }

  /** The rows of the join come from the caller's enrollments, and each of
      the caller's enrollments whose course exists gives a row. */
  lemma JoinedEnrollmentsContents(d: Db, uid: Id)
    ensures forall e :: e in JoinedEnrollments(d, uid) <==>
      e in d.enrollments && e.userId == uid &&
      exists i :: 0 <= i < |d.courses| && d.courses[i].id == e.courseId
  {
    FilterMembers(d.enrollments, EnrolledBy(d.courses, uid));
    forall e | e in d.enrollments && JoinsCourse(d.courses, uid, e) ensures e in JoinedEnrollments(d, uid) {
      var i :| 0 <= i < |d.enrollments| && d.enrollments[i] == e;
    }
  }

  /** Students' join of enrollments with courses, as the source's loop
      that sets `enrollment_status` and `progress` on each course. */
  method EnrolledCourseRows(db: Store, uid: Id) returns (r: seq<CourseBrief>)
    ensures |r| == |JoinedEnrollments(db.State(), uid)|
    ensures forall i :: 0 <= i < |r| ==>
      var e := JoinedEnrollments(db.State(), uid)[i];
      r[i] == Annotated(CourseOf(db.courses, e), e)
  {
    var p := EnrolledBy(db.courses, uid);
    r := [];
    var j := 0;
    while j < |db.enrollments|
      invariant 0 <= j <= |db.enrollments|
      invariant |r| == |Filter(db.enrollments[..j], p)|
      invariant forall i :: 0 <= i < |r| ==>
        var e := Filter(db.enrollments[..j], p)[i];
        First(db.courses, CourseWithId(e.courseId)).Some? && r[i] == Annotated(CourseOf(db.courses, e), e)
    {
      FilterSnoc(db.enrollments, j, p);
      var e := db.enrollments[j];
      if e.userId == uid {
        var c := First(db.courses, CourseWithId(e.courseId));
        if c.Some? {
          r := r + [Annotated(c.value, e)];
        }
      }
      j := j + 1;
    }
    assert db.enrollments[..j] == db.enrollments;
  }

  /** `get_my_courses`: instructors and admins get the courses they author;
      everyone else gets their enrolled courses, annotated. */
  method MyCourses(db: Store, caller: User) returns (r: seq<CourseBrief>)
    ensures caller.role.Value() in StaffRoles ==>
      var authored := Filter(db.courses, CourseByInstructor(caller.id));
      |r| == |authored| && forall i :: 0 <= i < |r| ==> r[i] == Plain(authored[i])
    ensures caller.role.Value() !in StaffRoles ==>
      |r| == |JoinedEnrollments(db.State(), caller.id)| &&
      forall i :: 0 <= i < |r| ==>
        var e := JoinedEnrollments(db.State(), caller.id)[i];
        r[i] == Annotated(CourseOf(db.courses, e), e)
  {
    if caller.role.Value() in StaffRoles {
      var authored := Filter(db.courses, CourseByInstructor(caller.id));
      r := seq(|authored|, i requires 0 <= i < |authored| => Plain(authored[i]));
    } else {
      r := EnrolledCourseRows(db, caller.id);
    }
  }

  /** Staff see only their own courses; the others see only courses they
      are enrolled in, each with that enrollment's status and progress. */
  lemma MyCoursesMeaning(d: Db, caller: User)
    ensures forall c :: c in Filter(d.courses, CourseByInstructor(caller.id)) ==>
      c in d.courses && c.instructorId == caller.id
    ensures forall i :: 0 <= i < |JoinedEnrollments(d, caller.id)| ==>
      var e := JoinedEnrollments(d, caller.id)[i];
      e in d.enrollments && e.userId == caller.id && CourseOf(d.courses, e).id == e.courseId
  {
    FilterMembers(d.courses, CourseByInstructor(caller.id));
    FilterMembers(d.enrollments, EnrolledBy(d.courses, caller.id));
  }

  // ------------------------------------------------- the endpoints, imperative

  /** `create_course` on the session. */
  method CreateCourse(db: Store, caller: User, input: CourseCreate) returns (r: Result<Course, ApiError>)
    modifies db
    ensures db.State() == CreateCourseSpec(old(db.State()), caller, input).db
    ensures r == CreateCourseSpec(old(db.State()), caller, input).result
  {
    if RoleRequired(caller, StaffRoles).Failure? {
      return Failure(Forbidden);
    }
    var id := db.FreshId();
    var course := NewCourse(id, caller.id, input);
    db.courses := db.courses + [course];
    r := Success(course);
  }

  /** `update_course` on the session. */
  method UpdateCourse(db: Store, caller: User, courseId: Id, u: CourseUpdate) returns (r: Result<Course, ApiError>)
    modifies db
    ensures db.State() == UpdateCourseSpec(old(db.State()), caller, courseId, u).db
    ensures r == UpdateCourseSpec(old(db.State()), caller, courseId, u).result
  {
    if RoleRequired(caller, StaffRoles).Failure? {
      return Failure(Forbidden);
    }
    var fc := FirstIndex(db.courses, CourseWithId(courseId));
    if fc.None? {
      return Failure(NotFound);
    }
    var course := db.courses[fc.value];
    if !OwnerOrAdmin(course, caller) {
      return Failure(Forbidden);
    }
    course := ApplyCourseUpdate(course, u);
    db.courses := db.courses[fc.value := course];
    r := Success(course);
  }

  /** `publish_course` on the session. */
  method PublishCourse(db: Store, caller: User, courseId: Id) returns (r: Result<Course, ApiError>)
    modifies db
    ensures db.State() == PublishCourseSpec(old(db.State()), caller, courseId).db
    ensures r == PublishCourseSpec(old(db.State()), caller, courseId).result
  {
    if RoleRequired(caller, StaffRoles).Failure? {
      return Failure(Forbidden);
    }
    var fc := FirstIndex(db.courses, CourseWithId(courseId));
    if fc.None? {
      return Failure(NotFound);
    }
    var course := db.courses[fc.value];
    if !OwnerOrAdmin(course, caller) {
      return Failure(Forbidden);
    }
    course := course.(status := Published);
    db.courses := db.courses[fc.value := course];
    r := Success(course);
  }

  /** `enroll_course` on the session. */
  method Enroll(db: Store, caller: User, courseId: Id, now: Timestamp) returns (r: Result<Enrollment, ApiError>)
    modifies db
    ensures db.State() == EnrollSpec(old(db.State()), caller, courseId, now).db
    ensures r == EnrollSpec(old(db.State()), caller, courseId, now).result
  {
    var course := First(db.courses, CourseWithId(courseId));
    if course.None? {
      return Failure(NotFound);
    }
    var existing := First(db.enrollments, EnrollmentOf(caller.id, courseId));
    if existing.Some? {
      return Success(existing.value);
    }
    var id := db.FreshId();
    var e := NewEnrollment(id, caller.id, courseId, now);
    db.enrollments := db.enrollments + [e];
    r := Success(e);
  }
}
