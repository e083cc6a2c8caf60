/** The persistent tables of the learning platform: enumerations, one row
    datatype per table with its column defaults, the database as a value,
    the invariants the tables keep, and the session object the endpoints
    update in place. */
module DbModels {
  import opened Wrappers
  import opened Seqs

  /** Primary and foreign keys. The uuid4 values are drawn here from a
      counter, so a fresh key is never equal to an earlier one. */
  type Id = nat

  /** A `datetime.utcnow()` reading, supplied to each operation by its caller. */
  type Timestamp = nat

  // ---------------------------------------------------------------- enums

  datatype UserRole = Student | Instructor | Admin
  {
    function Value(): string
    {
      match this
      case Student => "student"
      case Instructor => "instructor"
      case Admin => "admin"
    }
  }

  datatype CourseLevel = Beginner | Intermediate | Advanced
  {
    function Value(): string
    {
      match this
      case Beginner => "Beginner"
      case Intermediate => "Intermediate"
      case Advanced => "Advanced"
    }
  }

  datatype CourseStatus = Draft | Published | Archived
  {
    function Value(): string
    {
      match this
      case Draft => "draft"
      case Published => "published"
      case Archived => "archived"
    }
  }

  datatype LessonType = Video | Article | Document | Image | Quiz
  {
    function Value(): string
    {
      match this
      case Video => "video"
      case Article => "article"
      case Document => "document"
      case Image => "image"
      case Quiz => "quiz"
    }
  }

  datatype EnrollmentStatus = Active | Completed | Dropped
  {
    function Value(): string
    {
      match this
      case Active => "active"
      case Completed => "completed"
      case Dropped => "dropped"
    }
  }

  /** `UserRole(s)`: the member whose value is `s`, if there is one. */
  function ParseUserRole(s: string): (r: Option<UserRole>)
    ensures r.Some? ==> r.value.Value() == s
    ensures r.None? ==> forall x: UserRole :: x.Value() != s
  {
    if s == "student" then Some(Student)
    else if s == "instructor" then Some(Instructor)
    else if s == "admin" then Some(Admin)
    else None
  }

  function ParseCourseLevel(s: string): (r: Option<CourseLevel>)
    ensures r.Some? ==> r.value.Value() == s
    ensures r.None? ==> forall x: CourseLevel :: x.Value() != s
  {
    if s == "Beginner" then Some(Beginner)
    else if s == "Intermediate" then Some(Intermediate)
    else if s == "Advanced" then Some(Advanced)
    else None
  }

  function ParseCourseStatus(s: string): (r: Option<CourseStatus>)
    ensures r.Some? ==> r.value.Value() == s
    ensures r.None? ==> forall x: CourseStatus :: x.Value() != s
  {
    if s == "draft" then Some(Draft)
    else if s == "published" then Some(Published)
    else if s == "archived" then Some(Archived)
    else None
  }

  function ParseLessonType(s: string): (r: Option<LessonType>)
    ensures r.Some? ==> r.value.Value() == s
    ensures r.None? ==> forall x: LessonType :: x.Value() != s
  {
    if s == "video" then Some(Video)
    else if s == "article" then Some(Article)
    else if s == "document" then Some(Document)
    else if s == "image" then Some(Image)
    else if s == "quiz" then Some(Quiz)
    else None
  }

  function ParseEnrollmentStatus(s: string): (r: Option<EnrollmentStatus>)
    ensures r.Some? ==> r.value.Value() == s
    ensures r.None? ==> forall x: EnrollmentStatus :: x.Value() != s
  {
    if s == "active" then Some(Active)
    else if s == "completed" then Some(Completed)
    else if s == "dropped" then Some(Dropped)
    else None
  }

  // ----------------------------------------------------------------- rows

  /** A stored password hash. Hashing is abstracted: the hash of `p` is
      `Hashed(p)`, and a password verifies exactly against its own hash. */
  datatype Credential = Hashed(secret: string)

  function HashPassword(password: string): Credential
  {
    Hashed(password)
  }

  predicate VerifyPassword(password: string, hash: Credential)
  {
    hash == HashPassword(password)
  }

  datatype User = User(
    id: Id,
    email: string,
    passwordHash: Credential,
    fullName: string,
    role: UserRole,
    avatarUrl: Option<string>)

  /** `instructorId` is the owning user. Timestamps are left out of the row. */
  datatype Course = Course(
    id: Id,
    instructorId: Id,
    title: string,
    description: Option<string>,
    thumbnailUrl: Option<string>,
    category: Option<string>,
    price: real,
    level: CourseLevel,
    status: CourseStatus)

  /** `content` is a JSON document, kept opaque as its text. */
  datatype Lesson = Lesson(
    id: Id,
    courseId: Id,
    title: string,
    kind: LessonType,
    contentUrl: Option<string>,
    content: Option<string>,
    description: Option<string>,
    duration: int,
    order: int,
    isFreePreview: bool)

  datatype Enrollment = Enrollment(
    id: Id,
    userId: Id,
    courseId: Id,
    enrolledAt: Timestamp,
    status: EnrollmentStatus,
    progressPercentage: int)

  datatype LessonProgress = LessonProgress(
    id: Id,
    enrollmentId: Id,
    lessonId: Id,
    isCompleted: bool,
    lastWatchedPosition: int,
    completedAt: Option<Timestamp>)

  datatype Review = Review(
    id: Id,
    courseId: Id,
    userId: Id,
    rating: int,
    comment: Option<string>,
    createdAt: Timestamp)

  /** A field of a partial update: left out of the request (`Keep`, not in
      `model_dump(exclude_unset=True)`) or sent with a value (`Put`). */
  datatype Patch<T> = Keep | Put(value: T)
  {
    function Apply(current: T): T
    {
      match this
      case Keep => current
      case Put(v) => v
    }
  }

  // ------------------------------------------------------ column defaults

  /** A user row built with the `role` column left to its default. */
  function NewUserWithDefaultRole(id: Id, email: string, hash: Credential, fullName: string): (u: User)
    ensures u.role == Student && u.avatarUrl == None
    ensures u.id == id && u.email == email && u.passwordHash == hash && u.fullName == fullName
  {
    User(id, email, hash, fullName, Student, None)
  }

  /** A course row with `price`, `level` and `status` left to their defaults. */
  function NewCourseWithDefaults(id: Id, instructorId: Id, title: string): (c: Course)
    ensures c.price == 0.0 && c.level == Beginner && c.status == Draft
    ensures c.description == None && c.thumbnailUrl == None && c.category == None
    ensures c.id == id && c.instructorId == instructorId && c.title == title
  {
    Course(id, instructorId, title, None, None, None, 0.0, Beginner, Draft)
  }

  /** An enrollment row with `status` and `progress_percentage` left to their defaults. */
  function NewEnrollment(id: Id, userId: Id, courseId: Id, now: Timestamp): (e: Enrollment)
    ensures e.status == Active && e.progressPercentage == 0
    ensures e.id == id && e.userId == userId && e.courseId == courseId && e.enrolledAt == now
  {
    Enrollment(id, userId, courseId, now, Active, 0)
  }

  /** A progress row built from its two keys only. */
  function NewProgress(id: Id, enrollmentId: Id, lessonId: Id): (p: LessonProgress)
    ensures !p.isCompleted && p.completedAt == None && p.lastWatchedPosition == 0
    ensures p.id == id && p.enrollmentId == enrollmentId && p.lessonId == lessonId
  {
    LessonProgress(id, enrollmentId, lessonId, false, 0, None)
  }

  /** `Course.lessons_count`: 0 while the relationship is not loaded
      (`None`), otherwise the number of loaded lessons. */
  function LessonsCount(loaded: Option<seq<Lesson>>): (n: nat)
    ensures loaded.None? ==> n == 0
    ensures loaded.Some? ==> n == |loaded.value|
  {
    match loaded
    case None => 0
    case Some(ls) => |ls|
  }

  // ------------------------------------------------- the database, as a value

  datatype Db = Db(
    users: seq<User>,
    courses: seq<Course>,
    lessons: seq<Lesson>,
    enrollments: seq<Enrollment>,
    progress: seq<LessonProgress>,
    reviews: seq<Review>,
    nextId: Id)

  /** HTTP error kinds the endpoints raise: 401, 403, 404, 400 and 500. */
  datatype ApiError = Unauthorized | Forbidden | NotFound | BadRequest | Internal
  {
    function Status(): nat
    {
      match this
      case Unauthorized => 401
      case Forbidden => 403
      case NotFound => 404
      case BadRequest => 400
      case Internal => 500
    }
  }

  /** Outcome of an endpoint: the database after it, and its answer. */
  datatype Response<T> = Response(db: Db, result: Result<T, ApiError>)

  // -------------------------------------------------------------- keys

  function UserId(u: User): Id { u.id }
  function UserEmail(u: User): string { u.email }
  function CourseId(c: Course): Id { c.id }
  function LessonId(l: Lesson): Id { l.id }
  function EnrollmentId(e: Enrollment): Id { e.id }
  function ProgressId(p: LessonProgress): Id { p.id }
  function ReviewId(r: Review): Id { r.id }
  function ProgressLesson(p: LessonProgress): Id { p.lessonId }
  function EnrollmentKey(e: Enrollment): (Id, Id) { (e.userId, e.courseId) }
  function ProgressKey(p: LessonProgress): (Id, Id) { (p.enrollmentId, p.lessonId) }
  function ReviewKey(r: Review): (Id, Id) { (r.userId, r.courseId) }

  // -------------------------------------------------- row selectors (filters)

  function UserWithId(id: Id): User -> bool { (u: User) => u.id == id }
  function UserWithEmail(email: string): User -> bool { (u: User) => u.email == email }
  function CourseWithId(id: Id): Course -> bool { (c: Course) => c.id == id }
  function CourseByInstructor(uid: Id): Course -> bool { (c: Course) => c.instructorId == uid }
  function LessonWithId(id: Id): Lesson -> bool { (l: Lesson) => l.id == id }
  function LessonOfCourse(cid: Id): Lesson -> bool { (l: Lesson) => l.courseId == cid }
  function EnrollmentOf(uid: Id, cid: Id): Enrollment -> bool { (e: Enrollment) => e.userId == uid && e.courseId == cid }
  function EnrollmentOfUser(uid: Id): Enrollment -> bool { (e: Enrollment) => e.userId == uid }
  function EnrollmentOfCourse(cid: Id): Enrollment -> bool { (e: Enrollment) => e.courseId == cid }
  function ProgressOf(eid: Id, lid: Id): LessonProgress -> bool { (p: LessonProgress) => p.enrollmentId == eid && p.lessonId == lid }
  function ReviewOf(uid: Id, cid: Id): Review -> bool { (r: Review) => r.userId == uid && r.courseId == cid }
  function ReviewOfCourse(cid: Id): Review -> bool { (r: Review) => r.courseId == cid }

  // ---------------------------------------------------------- invariants

  predicate IdsBelow<T>(s: seq<T>, key: T -> Id, bound: Id)
  {
    forall i :: 0 <= i < |s| ==> key(s[i]) < bound
  }

  /** The constraints the tables keep. Primary keys are distinct and below
      the counter, and user emails are unique: these are column constraints.
      At most one enrollment per (user, course), one progress row per
      (enrollment, lesson) and one review per (user, course): the schema
      does not enforce these, the endpoints keep them by looking a row up
      before inserting one. */
  predicate WellFormed(d: Db)
  {
    && IdsBelow(d.users, UserId, d.nextId) && DistinctBy(d.users, UserId)
    && DistinctBy(d.users, UserEmail)
    && IdsBelow(d.courses, CourseId, d.nextId) && DistinctBy(d.courses, CourseId)
    && IdsBelow(d.lessons, LessonId, d.nextId) && DistinctBy(d.lessons, LessonId)
    && IdsBelow(d.enrollments, EnrollmentId, d.nextId) && DistinctBy(d.enrollments, EnrollmentId)
    && DistinctBy(d.enrollments, EnrollmentKey)
    && IdsBelow(d.progress, ProgressId, d.nextId) && DistinctBy(d.progress, ProgressId)
    && DistinctBy(d.progress, ProgressKey)
    && IdsBelow(d.reviews, ReviewId, d.nextId) && DistinctBy(d.reviews, ReviewId)
    && DistinctBy(d.reviews, ReviewKey)
  }

  /** Appending a row whose key is the counter keeps the key constraints. */
  lemma AppendFresh<T>(s: seq<T>, x: T, key: T -> Id, bound: Id)
    requires IdsBelow(s, key, bound) && DistinctBy(s, key) && key(x) == bound
    ensures IdsBelow(s + [x], key, bound + 1) && DistinctBy(s + [x], key)
  {
    var t := s + [x];
    assert forall i :: 0 <= i < |s| ==> t[i] == s[i];
  }

  /** Raising the counter keeps every key below it. */
  lemma RaiseBound<T>(s: seq<T>, key: T -> Id, bound: Id, bound': Id)
    requires IdsBelow(s, key, bound) && bound <= bound'
    ensures IdsBelow(s, key, bound')
  {
  }

  /** Appending a row whose key no existing row has keeps keys distinct. */
  lemma AppendNewKey<T, K>(s: seq<T>, x: T, key: T -> K)
    requires DistinctBy(s, key)
    requires forall i :: 0 <= i < |s| ==> key(s[i]) != key(x)
    ensures DistinctBy(s + [x], key)
  {
    var t := s + [x];
    assert forall i :: 0 <= i < |s| ==> t[i] == s[i];
  }

  /** Replacing a row by one with the same key keeps that key's constraints. */
  lemma UpdateSameKey<T, K>(s: seq<T>, i: nat, x: T, key: T -> K)
    requires i < |s| && key(x) == key(s[i]) && DistinctBy(s, key)
    ensures DistinctBy(s[i := x], key)
  {
    var t := s[i := x];
    assert forall j :: 0 <= j < |s| ==> key(t[j]) == key(s[j]);
  }

  lemma UpdateSameIdBelow<T>(s: seq<T>, i: nat, x: T, key: T -> Id, bound: Id)
    requires i < |s| && key(x) == key(s[i]) && IdsBelow(s, key, bound)
    ensures IdsBelow(s[i := x], key, bound)
  {
    var t := s[i := x];
    assert forall j :: 0 <= j < |s| ==> key(t[j]) == key(s[j]);
  }

  /** Removing row `k` keeps keys distinct and below the counter. */
  lemma RemoveKeepsKeys<T>(s: seq<T>, k: nat, key: T -> Id, bound: Id)
    requires k < |s| && DistinctBy(s, key) && IdsBelow(s, key, bound)
    ensures DistinctBy(s[..k] + s[k + 1..], key) && IdsBelow(s[..k] + s[k + 1..], key, bound)
  {
    var t := s[..k] + s[k + 1..];
    assert forall j :: 0 <= j < |t| ==> t[j] == if j < k then s[j] else s[j + 1];
    forall i, j | 0 <= i < j < |t| ensures key(t[i]) != key(t[j]) {
      var i' := if i < k then i else i + 1;
      var j' := if j < k then j else j + 1;
      assert t[i] == s[i'] && t[j] == s[j'] && i' < j';
    }
  }

  /** With distinct keys, a lookup by the key of row `i` finds row `i`. */
  lemma FirstByKeyIsUnique<T, K>(s: seq<T>, key: T -> K, i: nat, p: T -> bool)
    requires DistinctBy(s, key) && i < |s|
    requires forall x :: p(x) <==> key(x) == key(s[i])
    ensures FirstIndex(s, p) == Some(i)
  {
    FirstIndexIs(s, p, i);
  }

  // ------------------------------------------------------ the ORM cascade

  /** Deleting a course with `cascade="all, delete-orphan"` on `lessons`:
      the course row and all its lessons go. Enrollments and reviews of the
      course, and progress rows of its lessons, keep the old ids where the ORM
      writes NULL into `course_id` and `lesson_id` (those relationships have
      no cascade); since ids are never reused, a dangling id matches no row,
      as NULL matches none. */
  function DeleteCourse(d: Db, cid: Id): (d': Db)
    ensures forall i :: 0 <= i < |d'.courses| ==> d'.courses[i].id != cid
    ensures forall i :: 0 <= i < |d'.lessons| ==> d'.lessons[i].courseId != cid
    ensures forall i :: 0 <= i < |d.lessons| && d.lessons[i].courseId != cid ==> d.lessons[i] in d'.lessons
    ensures forall i :: 0 <= i < |d.courses| && d.courses[i].id != cid ==> d.courses[i] in d'.courses
    ensures IsSubsequence(d'.lessons, d.lessons) && IsSubsequence(d'.courses, d.courses)
    ensures d'.users == d.users && d'.enrollments == d.enrollments
    ensures d'.progress == d.progress && d'.reviews == d.reviews && d'.nextId == d.nextId
  {
    var keepCourse := (c: Course) => c.id != cid;
    var keepLesson := (l: Lesson) => l.courseId != cid;
    FilterMembers(d.courses, keepCourse);
    FilterMembers(d.lessons, keepLesson);
    d.(courses := Filter(d.courses, keepCourse), lessons := Filter(d.lessons, keepLesson))
  }

  // ------------------------------------------------------- the session

  /** The SQLAlchemy session: the tables as fields that the endpoints
      update in place, committed as one step at the end of each endpoint. */
  class Store {
    var users: seq<User>
    var courses: seq<Course>
    var lessons: seq<Lesson>
    var enrollments: seq<Enrollment>
    var progress: seq<LessonProgress>
    var reviews: seq<Review>
    var nextId: Id

    /** The tables as a value. */
    function State(): (d: Db)
      reads this
      ensures d.users == users && d.courses == courses && d.lessons == lessons
      ensures d.enrollments == enrollments && d.progress == progress
      ensures d.reviews == reviews && d.nextId == nextId
    {
      Db(users, courses, lessons, enrollments, progress, reviews, nextId)
    }

    /** An empty database. */
    constructor ()
      ensures State() == Db([], [], [], [], [], [], 0)
      ensures WellFormed(State())
    {
      users, courses, lessons, enrollments, progress, reviews := [], [], [], [], [], [];
      nextId := 0;
    }

    /** `uuid.uuid4()`: a key no row has yet. */
    method FreshId() returns (id: Id)
      modifies this
      ensures id == old(nextId) && nextId == old(nextId) + 1
      ensures users == old(users) && courses == old(courses) && lessons == old(lessons)
      ensures enrollments == old(enrollments) && progress == old(progress) && reviews == old(reviews)
    {
      id := nextId;
      nextId := nextId + 1;
    }
  }
}
