/** The learner's own course list: the enrollments joined with their
    courses, the status tabs with the search box, and the tab counters. */
module MyCoursesPage {
  import opened Wrappers
  import opened Seqs
  import opened Text
  import opened UiTypes
  import opened Catalog

  /** One entry of `enrolledCourses`. */
  datatype EnrolledItem = EnrolledItem(course: UiCourse, enrollment: UiEnrollment)

  predicate OwnedBy(userId: Option<string>, e: UiEnrollment)
  {
    userId.Some? && e.userId == userId.value
  }

  /** The course of each enrollment, skipping those whose course is missing. */
  function JoinCourses(es: seq<UiEnrollment>, courses: seq<UiCourse>): (r: seq<EnrolledItem>)
    ensures |r| <= |es|
    ensures forall i :: 0 <= i < |r| ==> r[i].enrollment in es && FindCourse(courses, r[i].enrollment.courseId) == Some(r[i].course)
  {
    if es == [] then []
    else
      var rest := JoinCourses(es[1..], courses);
      match FindCourse(courses, es[0].courseId)
      case None => rest
      case Some(c) => [EnrolledItem(c, es[0])] + rest
  }

  function Enrollments(items: seq<EnrolledItem>): (r: seq<UiEnrollment>)
    ensures |r| == |items|
    ensures forall i :: 0 <= i < |items| ==> r[i] == items[i].enrollment
  {
    if items == [] then [] else [items[0].enrollment] + Enrollments(items[1..])
  }

  predicate HasCourse(courses: seq<UiCourse>, e: UiEnrollment)
  {
    FindCourse(courses, e.courseId).Some?
  }

  /** The joined list holds, in order, exactly the enrollments whose course
      exists. */
  lemma {:induction false} JoinKeepsEnrollmentsWithCourse(es: seq<UiEnrollment>, courses: seq<UiCourse>)
    ensures Enrollments(JoinCourses(es, courses)) == Filter(es, (e: UiEnrollment) => HasCourse(courses, e))
  {
    if es != [] {
      JoinKeepsEnrollmentsWithCourse(es[1..], courses);
      var r := JoinCourses(es, courses);
      if HasCourse(courses, es[0]) {
        assert r[1..] == JoinCourses(es[1..], courses);
        assert Enrollments(r)[1..] == Enrollments(r[1..]);
      }
    }
  }

  /** `enrolledCourses` for the signed-in user (none without one). */
  function EnrolledCourses(enrollments: seq<UiEnrollment>, courses: seq<UiCourse>, userId: Option<string>): seq<EnrolledItem>
  {
    JoinCourses(Filter(enrollments, (e: UiEnrollment) => OwnedBy(userId, e)), courses)
  }

  /** Every enrollment of the user whose course exists is listed once, in
      order; all listed enrollments are the user's. */
  lemma EnrolledCoursesContents(enrollments: seq<UiEnrollment>, courses: seq<UiCourse>, userId: Option<string>)
    ensures var items := EnrolledCourses(enrollments, courses, userId);
      && Enrollments(items) == Filter(Filter(enrollments, (e: UiEnrollment) => OwnedBy(userId, e)), (e: UiEnrollment) => HasCourse(courses, e))
      && (forall i :: 0 <= i < |items| ==> items[i].enrollment in enrollments && userId == Some(items[i].enrollment.userId))
      && (forall i :: 0 <= i < |items| ==> items[i].course in courses && items[i].course.id == items[i].enrollment.courseId)
    ensures userId.None? ==> EnrolledCourses(enrollments, courses, userId) == []
  {
    var mine := Filter(enrollments, (e: UiEnrollment) => OwnedBy(userId, e));
    JoinKeepsEnrollmentsWithCourse(mine, courses);
    FilterMembers(enrollments, (e: UiEnrollment) => OwnedBy(userId, e));
    if userId.None? {
      FilterNone(enrollments, (e: UiEnrollment) => OwnedBy(userId, e));
    }
  }

  predicate StatusMatches(status: string, item: EnrolledItem)
  {
    item.enrollment.status.Value() == status
  }

  predicate TagMatches(query: string, tags: seq<string>)
  {
    exists i :: 0 <= i < |tags| && ContainsIgnoringCase(tags[i], query)
  }

  predicate SearchMatches(query: string, item: EnrolledItem)
  {
    || ContainsIgnoringCase(item.course.title, query)
    || ContainsIgnoringCase(item.course.description, query)
    || TagMatches(query, item.course.tags)
  }

  /** The status tab applies when it is given, non-empty and not "all". */
  predicate StatusFilterOn(status: Option<string>)
  {
    status.Some? && status.value != "" && status.value != "all"
  }

  /** `filterByStatus(status)` with the current search text. */
  function FilterByStatus(items: seq<EnrolledItem>, status: Option<string>, searchQuery: string): seq<EnrolledItem>
  {
    var byStatus := if StatusFilterOn(status) then Filter(items, (it: EnrolledItem) => StatusMatches(status.value, it)) else items;
    if searchQuery != "" then Filter(byStatus, (it: EnrolledItem) => SearchMatches(searchQuery, it)) else byStatus
  }

  /** The tab's list keeps the order of `enrolledCourses` and holds exactly
      the items of the tab's status that match the search. */
  lemma FilterByStatusContents(items: seq<EnrolledItem>, status: Option<string>, searchQuery: string)
    ensures forall it :: it in FilterByStatus(items, status, searchQuery) <==>
      && it in items
      && (StatusFilterOn(status) ==> it.enrollment.status.Value() == status.value)
      && (searchQuery != "" ==> SearchMatches(searchQuery, it))
    ensures IsSubsequence(FilterByStatus(items, status, searchQuery), items)
  {
    var byStatus := if StatusFilterOn(status) then Filter(items, (it: EnrolledItem) => StatusMatches(status.value, it)) else items;
    if StatusFilterOn(status) {
      FilterMembers(items, (it: EnrolledItem) => StatusMatches(status.value, it));
    } else {
      SubsequenceRefl(items);
    }
    if searchQuery != "" {
      FilterMembers(byStatus, (it: EnrolledItem) => SearchMatches(searchQuery, it));
      SubsequenceTrans(Filter(byStatus, (it: EnrolledItem) => SearchMatches(searchQuery, it)), byStatus, items);
    }
  }

  /** The "all" tab with no search shows every enrolled course. */
  lemma AllTabShowsEverything(items: seq<EnrolledItem>)
    ensures FilterByStatus(items, Some("all"), "") == items
    ensures FilterByStatus(items, None, "") == items
  {
  }

  /** The tab counters. */
  datatype Stats = Stats(all: nat, yetToStart: nat, inProgress: nat, completed: nat)

  function ComputeStats(items: seq<EnrolledItem>): Stats
  {
    Stats(|items|,
      Count(items, (it: EnrolledItem) => StatusMatches("yet_to_start", it)),
      Count(items, (it: EnrolledItem) => StatusMatches("in_progress", it)),
      Count(items, (it: EnrolledItem) => StatusMatches("completed", it)))
  }

  /** Each enrolled course is counted under exactly one status tab. */
  lemma {:induction false} StatsPartition(items: seq<EnrolledItem>)
    ensures var st := ComputeStats(items); st.yetToStart + st.inProgress + st.completed == st.all
  {
    if items != [] {
      StatsPartition(items[1..]);
    }
  }

  /** Each counter is the length of its tab's list with no search. */
  lemma StatsMatchTabs(items: seq<EnrolledItem>)
    ensures ComputeStats(items).yetToStart == |FilterByStatus(items, Some("yet_to_start"), "")|
    ensures ComputeStats(items).inProgress == |FilterByStatus(items, Some("in_progress"), "")|
    ensures ComputeStats(items).completed == |FilterByStatus(items, Some("completed"), "")|
    ensures ComputeStats(items).all == |FilterByStatus(items, Some("all"), "")|
  {
  }
}
