/** The course page: the completed and remaining lesson counts, the lesson
    search, the completed and locked flags of each row, and the button the
    side panel offers. */
module CourseDetailPage {
  import opened Wrappers
  import opened Seqs
  import opened Text
  import opened Rounding
  import opened UiTypes
  import opened Catalog

  /** `Math.ceil(x)` in exact arithmetic. */
  function Ceil(x: real): (r: int)
    ensures r as real - 1.0 < x <= r as real
  {
    -((-x).Floor)
  }

  /** `enrollment ? Math.ceil((enrollment.progress / 100) * lessons.length) : 0`. */
  function CompletedLessonsCount(enrollment: Option<UiEnrollment>, lessonCount: nat): (r: int)
    ensures enrollment.None? ==> r == 0
    ensures enrollment.Some? ==>
      var x := enrollment.value.progress as real / 100.0 * lessonCount as real;
      r as real - 1.0 < x <= r as real
  {
    if enrollment.None? then 0 else Ceil(enrollment.value.progress as real / 100.0 * lessonCount as real)
  }

  /** With a progress between 0 and 100 the count lies between 0 and the
      number of lessons, is 0 at 0% and all of them at 100%. */
  lemma CompletedCountBounds(enrollment: UiEnrollment, lessonCount: nat)
    requires 0 <= enrollment.progress <= 100
    ensures 0 <= CompletedLessonsCount(Some(enrollment), lessonCount) <= lessonCount
    ensures enrollment.progress == 0 ==> CompletedLessonsCount(Some(enrollment), lessonCount) == 0
    ensures enrollment.progress == 100 ==> CompletedLessonsCount(Some(enrollment), lessonCount) == lessonCount
  {
    var f := enrollment.progress as real / 100.0;
    var n := lessonCount as real;
    assert 0.0 <= f <= 1.0;
    MulMono(0.0, f, n);
    MulMono(f, 1.0, n);
    var r := CompletedLessonsCount(Some(enrollment), lessonCount);
    assert r as real - 1.0 < f * n <= r as real;
    if enrollment.progress == 100 {
      assert f == 1.0;
    }
  }

  /** Any started progress counts at least one lesson done: 1% of ten
      lessons is one lesson. */
  lemma CompletedCountRoundsUp()
    ensures CompletedLessonsCount(Some(UiEnrollment("e", "u", "c", InProgress, 1, "", None, None, 0)), 10) == 1
  {
    assert 1 as real / 100.0 * 10 as real == 0.1;
  }

  /** `lessons.length - completedLessonsCount`. */
  function IncompleteLessonsCount(enrollment: Option<UiEnrollment>, lessonCount: nat): (r: int)
    ensures r + CompletedLessonsCount(enrollment, lessonCount) == lessonCount
    ensures enrollment.None? ==> r == lessonCount
    ensures enrollment.Some? && 0 <= enrollment.value.progress <= 100 ==> 0 <= r <= lessonCount
  {
    if enrollment.Some? && 0 <= enrollment.value.progress <= 100 then
      CompletedCountBounds(enrollment.value, lessonCount);
      lessonCount - CompletedLessonsCount(enrollment, lessonCount)
    else lessonCount - CompletedLessonsCount(enrollment, lessonCount)
  }

  predicate TitleMatches(search: string, l: UiLesson)
  {
    ContainsIgnoringCase(l.title, search)
  }

  /** `filteredLessons`: the lessons whose title contains the search text,
      ignoring case, in their order. */
  function FilteredLessons(lessons: seq<UiLesson>, search: string): (r: seq<UiLesson>)
    ensures IsSubsequence(r, lessons)
    ensures forall l :: l in r <==> l in lessons && ContainsIgnoringCase(l.title, search)
  {
    FilterMembers(lessons, (l: UiLesson) => TitleMatches(search, l));
    Filter(lessons, (l: UiLesson) => TitleMatches(search, l))
  }

  /** An empty search shows every lesson. */
  lemma EmptySearchKeepsAll(lessons: seq<UiLesson>)
    ensures FilteredLessons(lessons, "") == lessons
  {
    forall i | 0 <= i < |lessons| ensures TitleMatches("", lessons[i]) {
      ContainsEmpty(Lower(lessons[i].title));
    }
    FilterAll(lessons, (l: UiLesson) => TitleMatches("", l));
  }

  /** One row of the lesson list. */
  datatype LessonRow = LessonRow(lesson: UiLesson, icon: Icon, isCompleted: bool, isLocked: bool)

  /** The rows of the filtered list: completed by position, locked when the
      caller is not enrolled and the row is not completed. */
  function Rows(filtered: seq<UiLesson>, completedCount: int, enrolled: bool): (rows: seq<LessonRow>)
    ensures |rows| == |filtered|
    ensures forall i :: 0 <= i < |rows| ==> rows[i].lesson == filtered[i] && rows[i].icon == LessonIcon(filtered[i].kind, BookOpenIcon)
    ensures forall i :: 0 <= i < |rows| ==> (rows[i].isCompleted <==> i < completedCount)
    ensures forall i :: 0 <= i < |rows| ==> (rows[i].isLocked <==> !enrolled && !rows[i].isCompleted)
  {
    seq(|filtered|, (i: int) requires 0 <= i < |filtered| =>
      LessonRow(filtered[i], LessonIcon(filtered[i].kind, BookOpenIcon), i < completedCount, !enrolled && !(i < completedCount)))
  }

  /** The rows the page shows for the course's lessons, the search text and
      the caller's enrollment. */
  function PageRows(lessons: seq<UiLesson>, search: string, enrollment: Option<UiEnrollment>): seq<LessonRow>
  {
    Rows(FilteredLessons(lessons, search), CompletedLessonsCount(enrollment, |lessons|), enrollment.Some?)
  }

  /** Without an enrollment every row is locked and none is completed; with
      one, no row is locked. */
  lemma LockedIffNotEnrolled(lessons: seq<UiLesson>, search: string, enrollment: Option<UiEnrollment>)
    ensures var rows := PageRows(lessons, search, enrollment);
      forall i :: 0 <= i < |rows| ==> (rows[i].isLocked <==> enrollment.None?)
    ensures enrollment.None? ==> var rows := PageRows(lessons, search, enrollment);
      forall i :: 0 <= i < |rows| ==> !rows[i].isCompleted
  {
  }

  /** The completed rows are a prefix of the list: a completed row has only
      completed rows before it. */
  lemma CompletedRowsArePrefix(filtered: seq<UiLesson>, completedCount: int, enrolled: bool, i: nat, j: nat)
    requires i < j < |filtered|
    requires Rows(filtered, completedCount, enrolled)[j].isCompleted
    ensures Rows(filtered, completedCount, enrolled)[i].isCompleted
  {
  }

  /** Completion is by position in the filtered list, not by lesson: while
      searching, the first matching rows show as completed whichever
      lessons they are. */
  lemma CompletionFollowsPosition(lessons: seq<UiLesson>, search: string, enrollment: Option<UiEnrollment>)
    requires |FilteredLessons(lessons, search)| > 0
    requires CompletedLessonsCount(enrollment, |lessons|) > 0
    ensures PageRows(lessons, search, enrollment)[0].isCompleted
  {
  }

  /** Where clicking a row leads: the lesson player of the course, opened on
      that lesson; a locked row does nothing. */
  datatype Navigation = Navigation(path: string, lessonId: string)

  function LessonClick(courseId: string, row: LessonRow): (r: Option<Navigation>)
    ensures r.None? <==> row.isLocked
    ensures r.Some? ==> r.value.path == "/course/" + courseId + "/learn" && r.value.lessonId == row.lesson.id
  {
    if row.isLocked then None else Some(Navigation("/course/" + courseId + "/learn", row.lesson.id))
  }

  /** The side panel's button. */
  datatype DetailAction =
    | StartLearning
    | ContinueLearning
    | BuyNow(price: real)
    | InvitationOnly
    | EnrollFree
    | SignInToEnroll

  /** A payment course with a truthy price. */
  predicate Priced(course: UiCourse)
  {
    course.accessRule == Payment && PriceIsSet(course.price)
  }

  /** The side panel: enrolled callers continue (or start) learning; the
      others get, in this order, the purchase of a priced payment course,
      the disabled invitation button, the free enrollment when signed in,
      and the sign-in link. */
  function ChooseAction(course: UiCourse, enrollment: Option<UiEnrollment>, isAuthenticated: bool): DetailAction
  {
    if enrollment.Some? then
      if enrollment.value.status == YetToStart then StartLearning else ContinueLearning
    else if Priced(course) then BuyNow(course.price.value)
    else if course.accessRule == Invitation then InvitationOnly
    else if isAuthenticated then EnrollFree
    else SignInToEnroll
  }

  /** Each button, and exactly when it is offered. */
  lemma ChooseActionCases(course: UiCourse, enrollment: Option<UiEnrollment>, isAuthenticated: bool)
    ensures var a := ChooseAction(course, enrollment, isAuthenticated);
      && (a.StartLearning? <==> enrollment.Some? && enrollment.value.status == YetToStart)
      && (a.ContinueLearning? <==> enrollment.Some? && enrollment.value.status != YetToStart)
      && (a.BuyNow? <==> enrollment.None? && Priced(course))
      && (a.BuyNow? ==> a.price == course.price.value && a.price != 0.0)
      && (a.InvitationOnly? <==> enrollment.None? && course.accessRule == Invitation)
      && (a.EnrollFree? <==> enrollment.None? && isAuthenticated && course.accessRule != Invitation && !Priced(course))
      && (a.SignInToEnroll? <==> enrollment.None? && !isAuthenticated && course.accessRule != Invitation && !Priced(course))
  {
  }

  /** A payment course with no price, or a price of 0, is enrolled for free. */
  lemma UnpricedPaymentIsFree(course: UiCourse)
    requires course.accessRule == Payment && !PriceIsSet(course.price)
    ensures ChooseAction(course, None, true) == EnrollFree
    ensures ChooseAction(course, None, false) == SignInToEnroll
  {
  }

  /** The page for a course id: "Course not found" when the id is unknown. */
  datatype DetailView = CourseNotFound | Detail(course: UiCourse, rows: seq<LessonRow>, action: DetailAction)

  function DetailPage(courses: seq<UiCourse>, lessons: seq<UiLesson>, enrollments: seq<UiEnrollment>,
                      courseId: string, userId: Option<string>, search: string): (v: DetailView)
    ensures v.CourseNotFound? <==> forall i :: 0 <= i < |courses| ==> courses[i].id != courseId
    ensures v.Detail? ==> v.course in courses && v.course.id == courseId
    ensures v.Detail? ==> v.rows == PageRows(CourseLessons(lessons, courseId), search, FindEnrollment(enrollments, courseId, userId))
  {
    match FindCourse(courses, courseId)
    case None => CourseNotFound
    case Some(c) =>
      var enrollment := FindEnrollment(enrollments, courseId, userId);
      Detail(c, PageRows(CourseLessons(lessons, courseId), search, enrollment), ChooseAction(c, enrollment, userId.Some?))
  }
}
