/** The reviews router: the one-review-per-user-and-course upsert and the
    list of a course's reviews with the reviewers' names. */
module Reviews {
  import opened Wrappers
  import opened Seqs
  import opened DbModels

  /** The `ReviewCreate` payload; the rating is any integer. */
  datatype ReviewCreate = ReviewCreate(rating: int, comment: Option<string>)

  /** `ReviewResponse`: the row and, when the reviewer exists, their name. */
  datatype ReviewView = ReviewView(review: Review, userFullName: Option<string>)

  /** The reviewer's `full_name`, when the user row exists. */
  function ReviewerName(d: Db, uid: Id): (n: Option<string>)
    ensures n.Some? <==> exists i :: 0 <= i < |d.users| && d.users[i].id == uid
    ensures n.Some? ==> exists i :: 0 <= i < |d.users| && d.users[i].id == uid && d.users[i].fullName == n.value
  {
    match First(d.users, UserWithId(uid))
    case None => None
    case Some(u) => Some(u.fullName)
  }

  /** The existing review overwritten in place: rating, comment and a new
      `created_at`. */
  function Overwrite(r: Review, input: ReviewCreate, now: Timestamp): Review
  {
    r.(rating := input.rating, comment := input.comment, createdAt := now)
  }

  /** `create_review`: 404 for an unknown course, with no write; otherwise the
      caller's review of the course is overwritten if there is one, and a
      new one is added if not. */
  function CreateReviewSpec(d: Db, caller: User, courseId: Id, input: ReviewCreate, now: Timestamp): (r: Response<ReviewView>)
  {
    if First(d.courses, CourseWithId(courseId)).None? then Response(d, Failure(NotFound))
    else
      match FirstIndex(d.reviews, ReviewOf(caller.id, courseId))
      case Some(ri) =>
        var rv := Overwrite(d.reviews[ri], input, now);
        var d' := d.(reviews := d.reviews[ri := rv]);
        Response(d', Success(ReviewView(rv, ReviewerName(d', rv.userId))))
      case None =>
        var rv := Review(d.nextId, courseId, caller.id, input.rating, input.comment, now);
        var d' := d.(reviews := d.reviews + [rv], nextId := d.nextId + 1);
        Response(d', Success(ReviewView(rv, ReviewerName(d', rv.userId))))
  }

  predicate HasReview(d: Db, uid: Id, courseId: Id)
  {
    exists i :: 0 <= i < |d.reviews| && d.reviews[i].userId == uid && d.reviews[i].courseId == courseId
  }

  /** The outcomes of the upsert. */
  lemma CreateReviewOutcome(d: Db, caller: User, courseId: Id, input: ReviewCreate, now: Timestamp)
    ensures var r := CreateReviewSpec(d, caller, courseId, input, now);
      && ((forall i :: 0 <= i < |d.courses| ==> d.courses[i].id != courseId) <==> r == Response(d, Failure(NotFound)))
      && (r.result.Success? ==>
            && r.result.value.review.userId == caller.id && r.result.value.review.courseId == courseId
            && r.result.value.review.rating == input.rating && r.result.value.review.comment == input.comment
            && r.result.value.review.createdAt == now
            && r.result.value.userFullName == ReviewerName(d, caller.id)
            && r.db.users == d.users && r.db.courses == d.courses && r.db.lessons == d.lessons
            && r.db.enrollments == d.enrollments && r.db.progress == d.progress)
      && (r.result.Success? && HasReview(d, caller.id, courseId) ==>
            && |r.db.reviews| == |d.reviews| && r.db.nextId == d.nextId
            && (exists i :: 0 <= i < |d.reviews| && r.db.reviews == d.reviews[i := r.result.value.review]
                  && r.result.value.review.id == d.reviews[i].id))
      && (r.result.Success? && !HasReview(d, caller.id, courseId) ==>
            && r.db.reviews == d.reviews + [r.result.value.review] && r.result.value.review.id == d.nextId
            && r.db.nextId == d.nextId + 1)
  {
  }

  /** Every review of another user or another course keeps its row. */
  lemma CreateReviewFrame(d: Db, caller: User, courseId: Id, input: ReviewCreate, now: Timestamp)
    ensures var r := CreateReviewSpec(d, caller, courseId, input, now);
      && |d.reviews| <= |r.db.reviews|
      && forall i :: 0 <= i < |d.reviews| && !(d.reviews[i].userId == caller.id && d.reviews[i].courseId == courseId)
           ==> r.db.reviews[i] == d.reviews[i]
  {
  }

  lemma CreateReviewPreservesWellFormed(d: Db, caller: User, courseId: Id, input: ReviewCreate, now: Timestamp)
    requires WellFormed(d)
    ensures WellFormed(CreateReviewSpec(d, caller, courseId, input, now).db)
  {
    var r := CreateReviewSpec(d, caller, courseId, input, now);
    if r.result.Success? {
      var rv := r.result.value.review;
      var k := FirstIndex(d.reviews, ReviewOf(caller.id, courseId));
      if k.Some? {
        UpdateSameKey(d.reviews, k.value, rv, ReviewId);
        UpdateSameKey(d.reviews, k.value, rv, ReviewKey);
        UpdateSameIdBelow(d.reviews, k.value, rv, ReviewId, d.nextId);
      } else {
        AppendFresh(d.reviews, rv, ReviewId, d.nextId);
        AppendNewKey(d.reviews, rv, ReviewKey);
        RaiseBound(d.users, UserId, d.nextId, d.nextId + 1);
        RaiseBound(d.courses, CourseId, d.nextId, d.nextId + 1);
        RaiseBound(d.lessons, LessonId, d.nextId, d.nextId + 1);
        RaiseBound(d.enrollments, EnrollmentId, d.nextId, d.nextId + 1);
        RaiseBound(d.progress, ProgressId, d.nextId, d.nextId + 1);
      }
    }
  }

  /** Posting the same review again adds no row: it overwrites the same row,
      and only `created_at` moves to the later time. */
  lemma CreateReviewRepeated(d: Db, caller: User, courseId: Id, input: ReviewCreate, now: Timestamp, later: Timestamp)
    requires CreateReviewSpec(d, caller, courseId, input, now).result.Success?
    ensures var r1 := CreateReviewSpec(d, caller, courseId, input, now);
      var r2 := CreateReviewSpec(r1.db, caller, courseId, input, later);
      && r2.result.Success?
      && |r2.db.reviews| == |r1.db.reviews| && r2.db.nextId == r1.db.nextId
      && r2.result.value.review == r1.result.value.review.(createdAt := later)
      && (now == later ==> r2 == r1)
  {
    var r1 := CreateReviewSpec(d, caller, courseId, input, now);
    var p := ReviewOf(caller.id, courseId);
    var k := FirstIndex(d.reviews, p);
    if k.Some? {
      FirstIndexUpdate(d.reviews, k.value, r1.result.value.review, p);
      assert r1.db.reviews[k.value := r1.db.reviews[k.value]] == r1.db.reviews;
    } else {
      FirstIndexAppend(d.reviews, r1.result.value.review, p);
      assert r1.db.reviews[|d.reviews| := r1.db.reviews[|d.reviews|]] == r1.db.reviews;
    }
  }

  /** With the table constraints, a user has at most one review per course. */
  lemma AtMostOneReview(d: Db, uid: Id, courseId: Id)
    requires WellFormed(d)
    ensures Count(d.reviews, ReviewOf(uid, courseId)) <= 1
  {
    CountAtMostOneByKey(d.reviews, ReviewKey, ReviewOf(uid, courseId), (uid, courseId));
  }

  /** `get_course_reviews`: 404 for an unknown course; otherwise the loop over
      the course's reviews, each with its reviewer's name. */
  method GetCourseReviews(db: Store, courseId: Id) returns (r: Result<seq<ReviewView>, ApiError>)
    ensures r.Failure? <==> forall i :: 0 <= i < |db.courses| ==> db.courses[i].id != courseId
    ensures r.Failure? ==> r.error == NotFound
    ensures r.Success? ==>
      var reviews := Filter(db.reviews, ReviewOfCourse(courseId));
      && |r.value| == |reviews|
      && forall i :: 0 <= i < |reviews| ==> r.value[i] == ReviewView(reviews[i], ReviewerName(db.State(), reviews[i].userId))
  {
    if First(db.courses, CourseWithId(courseId)).None? {
      return Failure(NotFound);
    }
    var reviews := Filter(db.reviews, ReviewOfCourse(courseId));
    var results: seq<ReviewView> := [];
    var i := 0;
    while i < |reviews|
      invariant 0 <= i <= |reviews|
      invariant |results| == i
      invariant forall k :: 0 <= k < i ==> results[k] == ReviewView(reviews[k], ReviewerName(db.State(), reviews[k].userId))
    {
      var user := First(db.users, UserWithId(reviews[i].userId));
      var name := if user.Some? then Some(user.value.fullName) else None;
      results := results + [ReviewView(reviews[i], name)];
      i := i + 1;
    }
    r := Success(results);
  }

  /** The listed reviews are exactly the course's reviews, in table order. */
  lemma CourseReviewsContents(d: Db, courseId: Id)
    ensures forall rv :: rv in Filter(d.reviews, ReviewOfCourse(courseId)) <==> rv in d.reviews && rv.courseId == courseId
  {
    FilterMembers(d.reviews, ReviewOfCourse(courseId));
    forall rv | rv in d.reviews && rv.courseId == courseId ensures rv in Filter(d.reviews, ReviewOfCourse(courseId)) {
      var i :| 0 <= i < |d.reviews| && d.reviews[i] == rv;
    }
  }

  /** `create_review` on the session. */
  method CreateReview(db: Store, caller: User, courseId: Id, input: ReviewCreate, now: Timestamp) returns (r: Result<ReviewView, ApiError>)
    modifies db
    ensures db.State() == CreateReviewSpec(old(db.State()), caller, courseId, input, now).db
    ensures r == CreateReviewSpec(old(db.State()), caller, courseId, input, now).result
  {
    if First(db.courses, CourseWithId(courseId)).None? {
      return Failure(NotFound);
    }
    var existing := FirstIndex(db.reviews, ReviewOf(caller.id, courseId));
    var review: Review;
    if existing.Some? {
      review := Overwrite(db.reviews[existing.value], input, now);
      db.reviews := db.reviews[existing.value := review];
    } else {
      var id := db.FreshId();
      review := Review(id, courseId, caller.id, input.rating, input.comment, now);
      db.reviews := db.reviews + [review];
    }
    var user := First(db.users, UserWithId(review.userId));
    var name := if user.Some? then Some(user.value.fullName) else None;
    r := Success(ReviewView(review, name));
  }
}
