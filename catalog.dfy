/** The lookups the pages make in the front end's course, lesson and
    enrollment lists. */
module Catalog {
  import opened Wrappers
  import opened Seqs
  import opened UiTypes

  predicate CourseIdIs(id: string, c: UiCourse)
  {
    c.id == id
  }

  /** `mockCourses.find((c) => c.id === courseId)`: the first course with the id. */
  function FindCourse(courses: seq<UiCourse>, courseId: string): (r: Option<UiCourse>)
    ensures r.None? <==> forall i :: 0 <= i < |courses| ==> courses[i].id != courseId
    ensures r.Some? ==>
      exists i :: 0 <= i < |courses| && r.value == courses[i] && r.value.id == courseId
        && forall j :: 0 <= j < i ==> courses[j].id != courseId
  {
    match FirstIndex(courses, (c: UiCourse) => CourseIdIs(courseId, c))
    case None => None
    case Some(i) => Some(courses[i])
  }

  predicate OfCourse(courseId: string, l: UiLesson)
  {
    l.courseId == courseId
  }

  /** `mockLessons.filter((l) => l.courseId === courseId)`. */
  function CourseLessons(lessons: seq<UiLesson>, courseId: string): (r: seq<UiLesson>)
    ensures forall l :: l in r <==> l in lessons && l.courseId == courseId
    ensures IsSubsequence(r, lessons)
  {
    FilterMembers(lessons, (l: UiLesson) => OfCourse(courseId, l));
    Filter(lessons, (l: UiLesson) => OfCourse(courseId, l))
  }

  predicate EnrollmentIs(courseId: string, userId: string, e: UiEnrollment)
  {
    e.courseId == courseId && e.userId == userId
  }

  /** `mockEnrollments.find((e) => e.courseId === courseId && e.userId === user?.id)`:
      the first matching row; with no user, `undefined` matches no row. */
  function FindEnrollment(enrollments: seq<UiEnrollment>, courseId: string, userId: Option<string>): (r: Option<UiEnrollment>)
    ensures userId.None? ==> r.None?
    ensures userId.Some? ==>
      (r.None? <==> forall i :: 0 <= i < |enrollments| ==> !(enrollments[i].courseId == courseId && enrollments[i].userId == userId.value))
    ensures r.Some? ==>
      exists i :: 0 <= i < |enrollments| && r.value == enrollments[i]
        && r.value.courseId == courseId && userId == Some(r.value.userId)
        && forall j :: 0 <= j < i ==> !(enrollments[j].courseId == courseId && enrollments[j].userId == userId.value)
  {
    if userId.None? then None
    else
      match FirstIndex(enrollments, (e: UiEnrollment) => EnrollmentIs(courseId, userId.value, e))
      case None => None
      case Some(i) => Some(enrollments[i])
  }
}
