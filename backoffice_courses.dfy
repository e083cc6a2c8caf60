/** The backoffice course list: the title search, the create dialog that
    prepends a draft course, and delete by id. */
module BackofficeCourses {
  import opened Wrappers
  import opened Seqs
  import opened Text
  import opened UiTypes

  const NewCourseImage := "https://images.unsplash.com/photo-1516321318423-f06f85e504b3?w=800&h=450&fit=crop"

  /** The course `handleCreateCourse` builds; `stamp` is `Date.now()` and
      `nowIso` the ISO time of the click. */
  function NewCourse(title: string, stamp: nat, nowIso: string): (c: UiCourse)
  {
    UiCourse("new-course-" + NatToString(stamp), title, "New course description", Some(NewCourseImage), ["New"],
      Draft, Everyone, Open, None, None, "curr-user", "Current User", 0, 0, 0, 0, 0.0, 0, nowIso, nowIso)
  }

  /** The new course is an open, public draft with the entered title and
      every counter at zero. */
  lemma NewCourseIsEmptyDraft(title: string, stamp: nat, nowIso: string)
    ensures var c := NewCourse(title, stamp, nowIso);
      && c.title == title && c.status == Draft && c.visibility == Everyone && c.accessRule == Open
      && c.totalLessons == 0 && c.totalDuration == 0 && c.viewsCount == 0 && c.enrolledCount == 0
      && c.rating == 0.0 && c.reviewsCount == 0 && c.tags == ["New"]
      && c.id[..11] == "new-course-" && ParseNat(c.id[11..]) == stamp
  {
    ParseNatToString(stamp);
    var c := NewCourse(title, stamp, nowIso);
    assert c.id[11..] == NatToString(stamp);
  }

  predicate TitleMatches(search: string, c: UiCourse)
  {
    ContainsIgnoringCase(c.title, search)
  }

  /** `filteredCourses`: the courses whose title contains the search text,
      ignoring case, in list order. */
  function Search(courses: seq<UiCourse>, search: string): (r: seq<UiCourse>)
    ensures IsSubsequence(r, courses)
    ensures forall c :: c in r <==> c in courses && ContainsIgnoringCase(c.title, search)
  {
    FilterMembers(courses, (c: UiCourse) => TitleMatches(search, c));
    Filter(courses, (c: UiCourse) => TitleMatches(search, c))
  }

  predicate OtherId(id: string, c: UiCourse)
  {
    c.id != id
  }

  /** The list after deleting `id`. */
  function Deleted(courses: seq<UiCourse>, id: string): (r: seq<UiCourse>)
    ensures IsSubsequence(r, courses)
    ensures forall c :: c in r <==> c in courses && c.id != id
  {
    FilterMembers(courses, (c: UiCourse) => OtherId(id, c));
    Filter(courses, (c: UiCourse) => OtherId(id, c))
  }

  /** Deleting twice is deleting once. */
  lemma DeleteIdempotent(courses: seq<UiCourse>, id: string)
    ensures Deleted(Deleted(courses, id), id) == Deleted(courses, id)
  {
    FilterAll(Deleted(courses, id), (c: UiCourse) => OtherId(id, c));
  }

  /** Deleting an id no course has leaves the list as it is. */
  lemma DeleteAbsent(courses: seq<UiCourse>, id: string)
    requires forall i :: 0 <= i < |courses| ==> courses[i].id != id
    ensures Deleted(courses, id) == courses
  {
    FilterAll(courses, (c: UiCourse) => OtherId(id, c));
  }

  /** Deleting the course just created, when its id was new, restores the
      list. */
  lemma DeleteUndoesCreate(courses: seq<UiCourse>, title: string, stamp: nat, nowIso: string)
    requires forall i :: 0 <= i < |courses| ==> courses[i].id != NewCourse(title, stamp, nowIso).id
    ensures Deleted([NewCourse(title, stamp, nowIso)] + courses, NewCourse(title, stamp, nowIso).id) == courses
  {
    var c := NewCourse(title, stamp, nowIso);
    assert ([c] + courses)[1..] == courses;
    DeleteAbsent(courses, c.id);
  }

  /** The page state. */
  class CoursesBoard {
    var courses: seq<UiCourse>
    var search: string
    var dialogOpen: bool
    var newCourseName: string

    /** The page opened on the initial course list. */
    constructor (initial: seq<UiCourse>)
      ensures courses == initial && search == "" && !dialogOpen && newCourseName == ""
    {
      courses := initial;
      search := "";
      dialogOpen := false;
      newCourseName := "";
    }

    function Shown(): seq<UiCourse>
      reads this
    {
      Search(courses, search)
    }

    /** The empty state is shown iff no course matches. */
    predicate ShowsEmptyState()
      reads this
    {
      |Shown()| == 0
    }

    /** `handleCreateCourse`: the new course goes first, the others keep
        their order, and the dialog closes with its name cleared. */
    method CreateCourse(stamp: nat, nowIso: string)
      modifies this
      ensures courses == [NewCourse(old(newCourseName), stamp, nowIso)] + old(courses)
      ensures !dialogOpen && newCourseName == "" && search == old(search)
    {
      var c := NewCourse(newCourseName, stamp, nowIso);
      courses := [c] + courses;
      dialogOpen := false;
      newCourseName := "";
    }

    /** `handleDelete`. */
    method Delete(id: string)
      modifies this
      ensures courses == Deleted(old(courses), id)
      ensures dialogOpen == old(dialogOpen) && newCourseName == old(newCourseName) && search == old(search)
    {
      courses := Deleted(courses, id);
    }
  }

  /** A course just created shows first whenever its title matches the
      search, so the empty state is not shown. */
  lemma CreatedCourseShownFirst(courses: seq<UiCourse>, title: string, stamp: nat, nowIso: string, search: string)
    requires ContainsIgnoringCase(title, search)
    ensures var shown := Search([NewCourse(title, stamp, nowIso)] + courses, search);
      |shown| > 0 && shown[0] == NewCourse(title, stamp, nowIso)
  {
    var c := NewCourse(title, stamp, nowIso);
    assert ([c] + courses)[0] == c;
    assert TitleMatches(search, c);
  }
}
