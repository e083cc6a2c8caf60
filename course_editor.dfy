/** The backoffice course editor: its lesson list, the add-lesson dialog,
    the website warning and the lesson icons. */
module CourseEditor {
  import opened Wrappers
  import opened Text
  import opened UiTypes
  import opened Catalog

  /** The lesson `handleAddLesson` builds; `stamp` is `Date.now()`. */
  function NewLesson(courseId: string, title: string, kind: LessonType, order: int, stamp: nat): (l: UiLesson)
  {
    UiLesson("new-lesson-" + NatToString(stamp), courseId, title, "", kind, order, Some(10))
  }

  /** The list after adding a lesson: one more lesson at the end whose order
      is the new length; every earlier lesson unchanged. */
  function Appended(list: seq<UiLesson>, courseId: string, title: string, kind: LessonType, stamp: nat): (r: seq<UiLesson>)
    ensures |r| == |list| + 1 && r[..|list|] == list
    ensures r[|list|].order == |r| && r[|list|].title == title && r[|list|].kind == kind
    ensures r[|list|].courseId == courseId && r[|list|].duration == Some(10) && r[|list|].description == ""
  {
    list + [NewLesson(courseId, title, kind, |list| + 1, stamp)]
  }

  /** The orders run 1, 2, …, n. */
  predicate OrdersConsecutive(list: seq<UiLesson>)
  {
    forall i :: 0 <= i < |list| ==> list[i].order == i + 1
  }

  /** Adding keeps the orders consecutive when they were. */
  lemma AppendKeepsOrders(list: seq<UiLesson>, courseId: string, title: string, kind: LessonType, stamp: nat)
    requires OrdersConsecutive(list)
    ensures OrdersConsecutive(Appended(list, courseId, title, kind, stamp))
  {
    var r := Appended(list, courseId, title, kind, stamp);
    forall i | 0 <= i < |r| ensures r[i].order == i + 1 {
      if i < |list| {
        assert r[i] == r[..|list|][i];
      }
    }
  }

  /** The icon in the editor's lesson list; unknown types show the
      document icon, where the course page shows the book. */
  function EditorIcon(kind: LessonType): Icon
  {
    LessonIcon(kind, FileTextIcon)
  }

  lemma EditorFallbackIsDocumentIcon(name: string)
    ensures EditorIcon(Unlisted(name)) == EditorIcon(Document)
    ensures EditorIcon(Unlisted(name)) != LessonIcon(Unlisted(name), BookOpenIcon)
  {
  }

  /** The editor of the course `courseId`. */
  class Editor {
    const courseId: string
    var lessonsList: seq<UiLesson>
    var isPublished: bool
    var website: string
    var lessonDialogOpen: bool
    var newLessonTitle: string
    var newLessonType: LessonType

    /** The editor opened on `courseId`: its lessons, and the course's status
        and website (empty when the course or the website is missing). */
    constructor (courses: seq<UiCourse>, lessons: seq<UiLesson>, courseId: string)
      ensures this.courseId == courseId && lessonsList == CourseLessons(lessons, courseId)
      ensures var c := FindCourse(courses, courseId);
        isPublished == (c.Some? && c.value.status == Published)
      ensures var c := FindCourse(courses, courseId);
        website == if c.Some? && c.value.website.Some? then c.value.website.value else ""
      ensures !lessonDialogOpen && newLessonTitle == "" && newLessonType == Video
    {
      this.courseId := courseId;
      lessonsList := CourseLessons(lessons, courseId);
      var c := FindCourse(courses, courseId);
      isPublished := c.Some? && c.value.status == Published;
      website := if c.Some? && c.value.website.Some? then c.value.website.value else "";
      lessonDialogOpen := false;
      newLessonTitle := "";
      newLessonType := Video;
    }

    /** The "Add Lesson" button is enabled once the title has a
        non-blank character. */
    predicate CanAddLesson()
      reads this
    {
      Trim(newLessonTitle) != ""
    }

    /** The website field is marked when a published course has none. */
    predicate WebsiteFlagged()
      reads this
    {
      isPublished && website == ""
    }

    /** `handleAddLesson`: the entered lesson goes last, and the dialog
        closes with its title cleared and its type back to video. */
    method AddLesson(stamp: nat)
      modifies this
      ensures lessonsList == Appended(old(lessonsList), courseId, old(newLessonTitle), old(newLessonType), stamp)
      ensures !lessonDialogOpen && newLessonTitle == "" && newLessonType == Video
      ensures isPublished == old(isPublished) && website == old(website)
    {
      var lesson := NewLesson(courseId, newLessonTitle, newLessonType, |lessonsList| + 1, stamp);
      lessonsList := lessonsList + [lesson];
      lessonDialogOpen := false;
      newLessonTitle := "";
      newLessonType := Video;
    }
  }

  /** The editor page: "Course not found" for an unknown id. */
  datatype EditorView = CourseNotFound | Editing(course: UiCourse)

  function EditorPage(courses: seq<UiCourse>, courseId: string): (v: EditorView)
    ensures v.CourseNotFound? <==> forall i :: 0 <= i < |courses| ==> courses[i].id != courseId
    ensures v.Editing? ==> v.course in courses && v.course.id == courseId
  {
    match FindCourse(courses, courseId)
    case None => CourseNotFound
    case Some(c) => Editing(c)
  }
}
