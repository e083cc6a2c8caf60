/** The public catalogue: which courses it lists for a visitor, a search
    text and a tag, and where a card's button leads. */
module CoursesPage {
  import opened Seqs
  import opened Text
  import opened UiTypes

  const AllTags: seq<string> := ["All", "React", "JavaScript", "TypeScript", "Design", "Node.js", "Python"]

  /** The filter callback: published, visible to the visitor, matching the
      search text when there is one, and carrying the tag unless it is "All". */
  predicate Listed(isAuthenticated: bool, search: string, selectedTag: string, course: UiCourse)
  {
    if course.status != Published then false
    else if course.visibility == SignedIn && !isAuthenticated then false
    else if search != "" && !ContainsIgnoringCase(course.title, search) then false
    else if selectedTag != "All" && selectedTag !in course.tags then false
    else true
  }

  /** `filteredCourses`. */
  function FilteredCourses(courses: seq<UiCourse>, isAuthenticated: bool, search: string, selectedTag: string): seq<UiCourse>
  {
    Filter(courses, (c: UiCourse) => Listed(isAuthenticated, search, selectedTag, c))
  }

  /** The listing keeps the catalogue's order and keeps exactly the
      published courses the visitor may see that match the search and tag. */
  lemma FilteredCoursesContents(courses: seq<UiCourse>, isAuthenticated: bool, search: string, selectedTag: string)
    ensures IsSubsequence(FilteredCourses(courses, isAuthenticated, search, selectedTag), courses)
    ensures forall c :: c in FilteredCourses(courses, isAuthenticated, search, selectedTag) <==>
      && c in courses
      && c.status == Published
      && (c.visibility == SignedIn ==> isAuthenticated)
      && (search != "" ==> ContainsIgnoringCase(c.title, search))
      && (selectedTag != "All" ==> selectedTag in c.tags)
  {
    FilterMembers(courses, (c: UiCourse) => Listed(isAuthenticated, search, selectedTag, c));
  }

  /** No search and the "All" tag list every published course a visitor may
      see, and a signed-in visitor sees every published course. */
  lemma NoFilterListsAllPublished(courses: seq<UiCourse>)
    ensures FilteredCourses(courses, true, "", "All") == Filter(courses, (c: UiCourse) => c.status == Published)
  {
    FilterSame(courses, (c: UiCourse) => Listed(true, "", "All", c), (c: UiCourse) => c.status == Published);
  }

  /** Signing in never hides a course. */
  lemma SigningInHidesNothing(courses: seq<UiCourse>, search: string, selectedTag: string)
    ensures forall c :: c in FilteredCourses(courses, false, search, selectedTag) ==> c in FilteredCourses(courses, true, search, selectedTag)
  {
    FilteredCoursesContents(courses, false, search, selectedTag);
    FilteredCoursesContents(courses, true, search, selectedTag);
  }

  /** The card's button on this page: the course page when signed in, the
      login page with a redirect back to the course otherwise. */
  function CardTarget(isAuthenticated: bool, courseId: string): (path: string)
    ensures isAuthenticated ==> path == "/course/" + courseId
    ensures !isAuthenticated ==> path == "/login?redirect=" + "/course/" + courseId
  {
    if isAuthenticated then "/course/" + courseId else "/login?redirect=/course/" + courseId
  }

  /** Either way the path ends with the course's page. */
  lemma CardTargetEndsWithCourse(isAuthenticated: bool, courseId: string)
    ensures var p := CardTarget(isAuthenticated, courseId);
      var suffix := "/course/" + courseId;
      |p| >= |suffix| && p[|p| - |suffix|..] == suffix
  {
  }
}
