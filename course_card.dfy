/** The catalogue card of a course: its button, the rating and price badges,
    the tags shown and the progress bar. */
module CourseCard {
  import opened Wrappers
  import opened UiTypes
  import CourseDetailPage

  /** The card's button; the links carry their target path. */
  datatype CardAction =
    | Buy(price: real)
    | InvitationOnly
    | Join
    | Review(link: string)
    | Start(link: string)
    | Continue(link: string)

  /** `getActionButton`: without an enrollment, purchase for a priced
      payment course, a disabled button for invitation courses, and Join
      otherwise; with one, Review once completed, Start before starting and
      Continue in between. */
  function GetActionButton(course: UiCourse, enrollment: Option<UiEnrollment>): CardAction
  {
    if enrollment.None? then
      if course.accessRule == Payment && PriceIsSet(course.price) then Buy(course.price.value)
      else if course.accessRule == Invitation then InvitationOnly
      else Join
    else if enrollment.value.status == Completed then Review("/course/" + course.id)
    else if enrollment.value.status == YetToStart then Start("/course/" + course.id + "/learn")
    else Continue("/course/" + course.id + "/learn")
  }

  /** Each button, and exactly when it is offered. */
  lemma ActionButtonCases(course: UiCourse, enrollment: Option<UiEnrollment>)
    ensures var a := GetActionButton(course, enrollment);
      && (a.Buy? <==> enrollment.None? && course.accessRule == Payment && PriceIsSet(course.price))
      && (a.Buy? ==> a.price != 0.0)
      && (a.InvitationOnly? <==> enrollment.None? && course.accessRule == Invitation)
      && (a.Join? <==> enrollment.None? && course.accessRule != Invitation && !CourseDetailPage.Priced(course))
      && (a.Review? <==> enrollment.Some? && enrollment.value.status == Completed)
      && (a.Start? <==> enrollment.Some? && enrollment.value.status == YetToStart)
      && (a.Continue? <==> enrollment.Some? && enrollment.value.status == InProgress)
      && (a.Review? ==> a.link == "/course/" + course.id)
      && ((a.Start? || a.Continue?) ==> a.link == "/course/" + course.id + "/learn")
  {
  }

  /** A payment course with no price or a zero price offers Join. */
  lemma FreePaymentCourseJoins(course: UiCourse)
    requires course.accessRule == Payment && (course.price.None? || course.price == Some(0.0))
    ensures GetActionButton(course, None) == Join
  {
  }

  /** The card and the course page agree on purchase and invitation, and on
      Start; they part on a completed enrollment, which the card reviews
      and the course page continues. */
  lemma CardAgreesWithDetailPage(course: UiCourse, enrollment: Option<UiEnrollment>, isAuthenticated: bool)
    ensures var card := GetActionButton(course, enrollment);
      var page := CourseDetailPage.ChooseAction(course, enrollment, isAuthenticated);
      && (card.Buy? <==> page.BuyNow?)
      && (card.InvitationOnly? <==> page.InvitationOnly?)
      && (card.Start? <==> page.StartLearning?)
      && (card.Join? <==> page.EnrollFree? || page.SignInToEnroll?)
      && ((card.Review? || card.Continue?) <==> page.ContinueLearning?)
  {
    CourseDetailPage.ChooseActionCases(course, enrollment, isAuthenticated);
    ActionButtonCases(course, enrollment);
  }

  /** The rating badge: only on published courses. */
  function RatingBadge(course: UiCourse): (r: Option<real>)
    ensures r.Some? <==> course.status == Published
    ensures r.Some? ==> r.value == course.rating
  {
    if course.status == Published then Some(course.rating) else None
  }

  /** The price badge: only on payment courses with a truthy price. */
  function PriceBadge(course: UiCourse): (r: Option<real>)
    ensures r.Some? <==> course.accessRule == Payment && PriceIsSet(course.price)
    ensures r.Some? ==> Some(r.value) == course.price && r.value != 0.0
  {
    if course.accessRule == Payment && PriceIsSet(course.price) then Some(course.price.value) else None
  }

  /** A price badge is shown exactly when the button is a purchase. */
  lemma PriceBadgeIffBuy(course: UiCourse)
    ensures PriceBadge(course).Some? <==> GetActionButton(course, None).Buy?
  {
  }

  /** `course.tags.slice(0, 3)`. */
  function ShownTags(tags: seq<string>): (r: seq<string>)
    ensures |r| == if |tags| < 3 then |tags| else 3
    ensures r == tags[..|r|]
  {
    if |tags| < 3 then tags else tags[..3]
  }

  /** The progress bar is shown, with the enrollment's progress, when the
      card asks for it and has an enrollment. */
  function ProgressBar(showProgress: bool, enrollment: Option<UiEnrollment>): (r: Option<int>)
    ensures r.Some? <==> showProgress && enrollment.Some?
    ensures r.Some? ==> r.value == enrollment.value.progress
  {
    if showProgress && enrollment.Some? then Some(enrollment.value.progress) else None
  }
}
