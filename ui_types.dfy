/** The shapes the frontend works with (`src/types/index.ts`). These are the
    browser's own records, separate from the backend's tables: in particular
    the enrollment status has the three values `yet_to_start`,
    `in_progress` and `completed`. */
module UiTypes {
  import opened Wrappers

  datatype Role = Admin | Instructor | Learner | Guest
  {
    function Value(): string
    {
      match this
      case Admin => "admin"
      case Instructor => "instructor"
      case Learner => "learner"
      case Guest => "guest"
    }
  }

  datatype UiUser = UiUser(id: string, email: string, name: string, role: Role, totalPoints: int, createdAt: string)

  datatype Badge = Badge(id: string, name: string, level: nat, requiredPoints: int, icon: string, color: string)

  datatype CourseStatus = Draft | Published | Archived

  datatype Visibility = Everyone | SignedIn

  datatype AccessRule = Open | Invitation | Payment

  datatype UiCourse = UiCourse(
    id: string,
    title: string,
    description: string,
    image: Option<string>,
    tags: seq<string>,
    status: CourseStatus,
    visibility: Visibility,
    accessRule: AccessRule,
    website: Option<string>,
    price: Option<real>,
    instructorId: string,
    instructorName: string,
    totalLessons: int,
    totalDuration: nat,
    viewsCount: int,
    enrolledCount: int,
    rating: real,
    reviewsCount: int,
    createdAt: string,
    updatedAt: string)

  /** The four lesson types, and any other string a lesson list typed `any`
      may carry. */
  datatype LessonType = Video | Document | Image | QuizLesson | Unlisted(name: string)

  datatype UiLesson = UiLesson(
    id: string,
    courseId: string,
    title: string,
    description: string,
    kind: LessonType,
    order: int,
    duration: Option<int>)

  datatype EnrollmentStatus = YetToStart | InProgress | Completed
  {
    function Value(): string
    {
      match this
      case YetToStart => "yet_to_start"
      case InProgress => "in_progress"
      case Completed => "completed"
    }
  }

  datatype UiEnrollment = UiEnrollment(
    id: string,
    userId: string,
    courseId: string,
    status: EnrollmentStatus,
    progress: int,
    enrolledAt: string,
    startedAt: Option<string>,
    completedAt: Option<string>,
    timeSpent: int)

  /** A JavaScript price is truthy when it is present and not zero. */
  predicate PriceIsSet(price: Option<real>)
  {
    price.Some? && price.value != 0.0
  }

  /** The icons a lesson row can show. */
  datatype Icon = PlayIcon | FileTextIcon | ImageIcon | HelpCircleIcon | BookOpenIcon

  /** `getLessonIcon`: a fixed icon for each of the four lesson types, and the
      page's own `fallback` for any other value. */
  function LessonIcon(kind: LessonType, fallback: Icon): (i: Icon)
    ensures kind == Video ==> i == PlayIcon
    ensures kind == Document ==> i == FileTextIcon
    ensures kind == Image ==> i == ImageIcon
    ensures kind == QuizLesson ==> i == HelpCircleIcon
    ensures kind.Unlisted? ==> i == fallback
  {
    match kind
    case Video => PlayIcon
    case Document => FileTextIcon
    case Image => ImageIcon
    case QuizLesson => HelpCircleIcon
    case Unlisted(_) => fallback
  }

  /** The four lesson types get four different icons, whatever the fallback. */
  lemma ListedIconsDistinct(a: LessonType, b: LessonType, fallback: Icon)
    requires !a.Unlisted? && !b.Unlisted?
    ensures LessonIcon(a, fallback) == LessonIcon(b, fallback) <==> a == b
  {
  }
}
