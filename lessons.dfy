/** The lessons router: creating, updating and deleting lessons behind the
    staff gate and the ownership guard, and the completion engine that marks
    a lesson complete for the caller's enrollment and recomputes the
    enrollment's progress percentage. */
module Lessons {
  import opened Wrappers
  import opened Seqs
  import opened DbModels
  import opened Auth

  // ------------------------------------------------------------- create

  /** The `LessonCreate` payload. */
  datatype LessonCreate = LessonCreate(
    title: string,
    kind: LessonType,
    contentUrl: Option<string>,
    content: Option<string>,
    description: Option<string>,
    duration: int,
    order: int,
    isFreePreview: bool)

  function NewLesson(id: Id, courseId: Id, input: LessonCreate): Lesson
  {
    Lesson(id, courseId, input.title, input.kind, input.contentUrl, input.content,
           input.description, input.duration, input.order, input.isFreePreview)
  }

  /** `create_lesson`: 403 for a non-staff caller, 404 for an unknown course,
      403 unless the caller owns the course or is an admin; otherwise one
      new lesson of that course, built from the payload. */
  function CreateLessonSpec(d: Db, caller: User, courseId: Id, input: LessonCreate): (r: Response<Lesson>)
  {
    if RoleRequired(caller, StaffRoles).Failure? then Response(d, Failure(Forbidden))
    else
      match First(d.courses, CourseWithId(courseId))
      case None => Response(d, Failure(NotFound))
      case Some(course) =>
        if !OwnerOrAdmin(course, caller) then Response(d, Failure(Forbidden))
        else
          var l := NewLesson(d.nextId, courseId, input);
          Response(d.(lessons := d.lessons + [l], nextId := d.nextId + 1), Success(l))
  }

  /** Error order and effect of `create_lesson`: a student gets 403, an
      unknown course 404, and a caller who neither owns the course nor is
      an admin 403; success is exactly passing all three. */
  lemma CreateLessonOutcome(d: Db, caller: User, courseId: Id, input: LessonCreate)
    ensures var r := CreateLessonSpec(d, caller, courseId, input);
      && (r.result.Failure? ==> r.db == d)
      && (caller.role == Student ==> r.result == Failure(Forbidden))
      && (caller.role != Student && (forall i :: 0 <= i < |d.courses| ==> d.courses[i].id != courseId)
          ==> r.result == Failure(NotFound))
      && (r.result.Success? ==>
            && (exists i :: 0 <= i < |d.courses| && d.courses[i].id == courseId && OwnerOrAdmin(d.courses[i], caller))
            && r.result.value.courseId == courseId && r.result.value.title == input.title
            && r.result.value.kind == input.kind && r.result.value.order == input.order
            && r.db.lessons == d.lessons + [r.result.value]
            && r.db == d.(lessons := r.db.lessons, nextId := d.nextId + 1))
      && (forall k :: 0 <= k < |d.courses| && FirstIndex(d.courses, CourseWithId(courseId)) == Some(k) ==>
            && (r.result.Success? <==> caller.role != Student && OwnerOrAdmin(d.courses[k], caller))
            && (caller.role != Student && !OwnerOrAdmin(d.courses[k], caller) ==> r.result == Failure(Forbidden)))
  {
    StaffGate(caller);
  }

  lemma CreateLessonPreservesWellFormed(d: Db, caller: User, courseId: Id, input: LessonCreate)
    requires WellFormed(d)
    ensures WellFormed(CreateLessonSpec(d, caller, courseId, input).db)
  {
    var r := CreateLessonSpec(d, caller, courseId, input);
    if r.result.Success? {
      AppendFresh(d.lessons, r.result.value, LessonId, d.nextId);
      RaiseBound(d.users, UserId, d.nextId, d.nextId + 1);
      RaiseBound(d.courses, CourseId, d.nextId, d.nextId + 1);
      RaiseBound(d.enrollments, EnrollmentId, d.nextId, d.nextId + 1);
      RaiseBound(d.progress, ProgressId, d.nextId, d.nextId + 1);
      RaiseBound(d.reviews, ReviewId, d.nextId, d.nextId + 1);
    }
  }

  // ------------------------------------------------------------- update

  /** The `LessonUpdate` payload: each field absent or given. */
  datatype LessonUpdate = LessonUpdate(
    title: Patch<string>,
    kind: Patch<LessonType>,
    contentUrl: Patch<Option<string>>,
    content: Patch<Option<string>>,
    description: Patch<Option<string>>,
    duration: Patch<int>,
    order: Patch<int>,
    isFreePreview: Patch<bool>)

  /** The `setattr` loop over the fields present in the request. */
  function ApplyLessonUpdate(l: Lesson, u: LessonUpdate): (l': Lesson)
    ensures l'.id == l.id && l'.courseId == l.courseId
    ensures u.title.Keep? ==> l'.title == l.title
    ensures u.title.Put? ==> l'.title == u.title.value
    ensures u.kind.Keep? ==> l'.kind == l.kind
    ensures u.kind.Put? ==> l'.kind == u.kind.value
    ensures u.contentUrl.Keep? ==> l'.contentUrl == l.contentUrl
    ensures u.contentUrl.Put? ==> l'.contentUrl == u.contentUrl.value
    ensures u.content.Keep? ==> l'.content == l.content
    ensures u.content.Put? ==> l'.content == u.content.value
    ensures u.description.Keep? ==> l'.description == l.description
    ensures u.description.Put? ==> l'.description == u.description.value
    ensures u.duration.Keep? ==> l'.duration == l.duration
    ensures u.duration.Put? ==> l'.duration == u.duration.value
    ensures u.order.Keep? ==> l'.order == l.order
    ensures u.order.Put? ==> l'.order == u.order.value
    ensures u.isFreePreview.Keep? ==> l'.isFreePreview == l.isFreePreview
    ensures u.isFreePreview.Put? ==> l'.isFreePreview == u.isFreePreview.value
  {
    l.(title := u.title.Apply(l.title),
       kind := u.kind.Apply(l.kind),
       contentUrl := u.contentUrl.Apply(l.contentUrl),
       content := u.content.Apply(l.content),
       description := u.description.Apply(l.description),
       duration := u.duration.Apply(l.duration),
       order := u.order.Apply(l.order),
       isFreePreview := u.isFreePreview.Apply(l.isFreePreview))
  }

  /** Sending the same update twice has the effect of sending it once, and
      an update with no field set changes nothing. */
  lemma ApplyLessonUpdateIdempotent(l: Lesson, u: LessonUpdate)
    ensures ApplyLessonUpdate(ApplyLessonUpdate(l, u), u) == ApplyLessonUpdate(l, u)
    ensures ApplyLessonUpdate(l, LessonUpdate(Keep, Keep, Keep, Keep, Keep, Keep, Keep, Keep)) == l
  {
  }

  /** `update_lesson`: 403 for a non-staff caller, 404 for an unknown lesson,
      500 when the lesson's course row is missing (the code dereferences it),
      403 unless the caller owns the course or is an admin; otherwise the
      lesson with the supplied fields replaced. */
  function UpdateLessonSpec(d: Db, caller: User, lessonId: Id, u: LessonUpdate): (r: Response<Lesson>)
  {
    if RoleRequired(caller, StaffRoles).Failure? then Response(d, Failure(Forbidden))
    else
      match FirstIndex(d.lessons, LessonWithId(lessonId))
      case None => Response(d, Failure(NotFound))
      case Some(li) =>
        match First(d.courses, CourseWithId(d.lessons[li].courseId))
        case None => Response(d, Failure(Internal))
        case Some(course) =>
          if !OwnerOrAdmin(course, caller) then Response(d, Failure(Forbidden))
          else
            var l' := ApplyLessonUpdate(d.lessons[li], u);
            Response(d.(lessons := d.lessons[li := l']), Success(l'))
  }

  /** Row `i` is the lesson `update_lesson` and `delete_lesson` find for
      `lessonId`, and row `k` the course their ownership test reads: the first
      course whose id is that lesson's course. */
  predicate GuardCourse(d: Db, lessonId: Id, i: int, k: int)
  {
    && 0 <= i < |d.lessons| && 0 <= k < |d.courses|
    && FirstIndex(d.lessons, LessonWithId(lessonId)) == Some(i)
    && FirstIndex(d.courses, CourseWithId(d.lessons[i].courseId)) == Some(k)
  }

  /** When the lesson and its course are both found, the rows found are the
      ones `GuardCourse` names. */
  lemma GuardWitness(d: Db, lessonId: Id)
    requires FirstIndex(d.lessons, LessonWithId(lessonId)).Some?
    requires First(d.courses, CourseWithId(d.lessons[FirstIndex(d.lessons, LessonWithId(lessonId)).value].courseId)).Some?
    ensures var i := FirstIndex(d.lessons, LessonWithId(lessonId)).value;
      var k := FirstIndex(d.courses, CourseWithId(d.lessons[i].courseId));
      && k.Some? && GuardCourse(d, lessonId, i, k.value)
      && First(d.courses, CourseWithId(d.lessons[i].courseId)) == Some(d.courses[k.value])
  {
  }

  /** The guards of `update_lesson`, in order: a student gets 403, an unknown
      lesson 404, a lesson whose course row is missing 500, and a caller who
      neither owns that course nor is an admin 403. A success needs all four
      passed, touches only the one lesson, and in it only the supplied
      fields; an error writes nothing. */
  lemma UpdateLessonOutcome(d: Db, caller: User, lessonId: Id, u: LessonUpdate)
    ensures var r := UpdateLessonSpec(d, caller, lessonId, u);
      && (r.result.Failure? ==> r.db == d)
      && (caller.role == Student ==> r.result == Failure(Forbidden))
      && (caller.role != Student && (forall i :: 0 <= i < |d.lessons| ==> d.lessons[i].id != lessonId)
          ==> r.result == Failure(NotFound))
      && (forall i :: 0 <= i < |d.lessons| && FirstIndex(d.lessons, LessonWithId(lessonId)) == Some(i) ==>
            (caller.role != Student && (forall k :: 0 <= k < |d.courses| ==> d.courses[k].id != d.lessons[i].courseId)
             ==> r.result == Failure(Internal)))
      && (forall i, k :: GuardCourse(d, lessonId, i, k) ==>
            && (r.result.Success? <==> caller.role != Student && OwnerOrAdmin(d.courses[k], caller))
            && (caller.role != Student && !OwnerOrAdmin(d.courses[k], caller) ==> r.result == Failure(Forbidden)))
      && (r.result.Success? ==> exists i, k :: GuardCourse(d, lessonId, i, k) && OwnerOrAdmin(d.courses[k], caller))
      && (r.result.Success? ==>
            exists i :: 0 <= i < |d.lessons| && d.lessons[i].id == lessonId
              && r.result.value == ApplyLessonUpdate(d.lessons[i], u)
              && r.db == d.(lessons := d.lessons[i := r.result.value])
              && (forall j :: 0 <= j < |d.lessons| && j != i ==> r.db.lessons[j] == d.lessons[j]))
  {
    StaffGate(caller);
    if UpdateLessonSpec(d, caller, lessonId, u).result.Success? {
      GuardWitness(d, lessonId);
    }
  }

  lemma UpdateLessonPreservesWellFormed(d: Db, caller: User, lessonId: Id, u: LessonUpdate)
    requires WellFormed(d)
    ensures WellFormed(UpdateLessonSpec(d, caller, lessonId, u).db)
  {
    var r := UpdateLessonSpec(d, caller, lessonId, u);
    if r.result.Success? {
      var li := FirstIndex(d.lessons, LessonWithId(lessonId)).value;
      UpdateSameKey(d.lessons, li, r.result.value, LessonId);
      UpdateSameIdBelow(d.lessons, li, r.result.value, LessonId, d.nextId);
    }
  }

  // ------------------------------------------------------------- delete

  /** `delete_lesson`: the same gate and guards as `update_lesson`; otherwise
      the lesson row is removed. Its progress rows keep its id where the ORM
      writes NULL into `lesson_id` (the relationship has no cascade); since ids
      are never reused, the dangling id matches no lesson, as NULL matches none. */
  function DeleteLessonSpec(d: Db, caller: User, lessonId: Id): (r: Response<()>)
  {
    if RoleRequired(caller, StaffRoles).Failure? then Response(d, Failure(Forbidden))
    else
      match FirstIndex(d.lessons, LessonWithId(lessonId))
      case None => Response(d, Failure(NotFound))
      case Some(li) =>
        match First(d.courses, CourseWithId(d.lessons[li].courseId))
        case None => Response(d, Failure(Internal))
        case Some(course) =>
          if !OwnerOrAdmin(course, caller) then Response(d, Failure(Forbidden))
          else Response(d.(lessons := d.lessons[..li] + d.lessons[li + 1..]), Success(()))
  }

  function LessonWithoutId(id: Id): Lesson -> bool { (l: Lesson) => l.id != id }

  /** The guards of `delete_lesson` are those of `update_lesson`, in the same
      order. With unique lesson ids, a successful delete removes exactly the
      lessons with that id and keeps the others in order. No other table is
      rewritten: the progress rows keep the deleted id, standing for the NULL
      the ORM writes into their `lesson_id`. */
  lemma DeleteLessonOutcome(d: Db, caller: User, lessonId: Id)
    requires WellFormed(d)
    ensures var r := DeleteLessonSpec(d, caller, lessonId);
      && (r.result.Failure? ==> r.db == d)
      && (caller.role == Student ==> r.result == Failure(Forbidden))
      && (caller.role != Student && (forall i :: 0 <= i < |d.lessons| ==> d.lessons[i].id != lessonId)
          ==> r.result == Failure(NotFound))
      && (forall i :: 0 <= i < |d.lessons| && FirstIndex(d.lessons, LessonWithId(lessonId)) == Some(i) ==>
            (caller.role != Student && (forall k :: 0 <= k < |d.courses| ==> d.courses[k].id != d.lessons[i].courseId)
             ==> r.result == Failure(Internal)))
      && (forall i, k :: GuardCourse(d, lessonId, i, k) ==>
            && (r.result.Success? <==> caller.role != Student && OwnerOrAdmin(d.courses[k], caller))
            && (caller.role != Student && !OwnerOrAdmin(d.courses[k], caller) ==> r.result == Failure(Forbidden)))
      && (r.result.Success? ==> exists i, k :: GuardCourse(d, lessonId, i, k) && OwnerOrAdmin(d.courses[k], caller))
      && (r.result.Success? ==>
            && r.db.lessons == Filter(d.lessons, LessonWithoutId(lessonId))
            && r.db == d.(lessons := r.db.lessons))
  {
    StaffGate(caller);
    var r := DeleteLessonSpec(d, caller, lessonId);
    if r.result.Success? {
      GuardWitness(d, lessonId);
      var li := FirstIndex(d.lessons, LessonWithId(lessonId)).value;
      forall j | 0 <= j < |d.lessons| && j != li ensures d.lessons[j].id != lessonId {
        assert LessonId(d.lessons[j]) != LessonId(d.lessons[li]);
      }
      FilterDropsOne(d.lessons, li, LessonWithoutId(lessonId));
    }
  }

  lemma DeleteLessonPreservesWellFormed(d: Db, caller: User, lessonId: Id)
    requires WellFormed(d)
    ensures WellFormed(DeleteLessonSpec(d, caller, lessonId).db)
  {
    var r := DeleteLessonSpec(d, caller, lessonId);
    if r.result.Success? {
      var li := FirstIndex(d.lessons, LessonWithId(lessonId)).value;
      RemoveKeepsKeys(d.lessons, li, LessonId, d.nextId);
    }
  }

  // -------------------------------------------------- completion engine

  /** `total_lessons`: the number of lessons of course `cid`. */
  function TotalLessons(d: Db, cid: Id): nat
  {
    Count(d.lessons, LessonOfCourse(cid))
  }

  /** Some lesson row has id `lid` and belongs to course `cid` (the join
      of a progress row with its lesson, on the lesson's primary key). */
  predicate IsLessonOf(lessons: seq<Lesson>, lid: Id, cid: Id)
  {
    exists i :: 0 <= i < |lessons| && lessons[i].id == lid && lessons[i].courseId == cid
  }

  function CompletedIn(lessons: seq<Lesson>, eid: Id, cid: Id): LessonProgress -> bool
  {
    (p: LessonProgress) => p.enrollmentId == eid && p.isCompleted && IsLessonOf(lessons, p.lessonId, cid)
  }

  /** `completed_count`: this enrollment's completed progress rows whose
      lesson belongs to course `cid`. */
  function DoneLessons(d: Db, eid: Id, cid: Id): nat
  {
    Count(d.progress, CompletedIn(d.lessons, eid, cid))
  }

  /** `int((completed_count / total_lessons) * 100)`, in exact arithmetic. */
  function Percentage(done: nat, total: nat): (pct: nat)
    requires total > 0
    ensures pct * total <= 100 * done < (pct + 1) * total
  {
    (100 * done) / total
  }

  /** A progress row flagged complete at time `now`. */
  function MarkDone(p: LessonProgress, now: Timestamp): LessonProgress
  {
    p.(isCompleted := true, completedAt := Some(now))
  }

  /** Lines 153-168: recount after the flush, store the clamped percentage
      and flip the status to completed at exactly 100. */
  function Recount(d: Db, ei: nat, cid: Id): (d': Db)
    requires ei < |d.enrollments|
  {
    var total := TotalLessons(d, cid);
    if total > 0 then
      var e := d.enrollments[ei];
      var pct := Percentage(DoneLessons(d, e.id, cid), total);
      var e' := e.(progressPercentage := Min(pct, 100),
                   status := if pct == 100 then Completed else e.status);
      d.(enrollments := d.enrollments[ei := e'])
    else d
  }

  /** The part of `complete_lesson` and `complete_quiz` after the lesson is
      found: the enrollment check (403), then find or create the progress
      row, then mark and recount unless the row is already complete. */
  function FinishCompletion(d: Db, caller: User, lesson: Lesson, now: Timestamp): (r: Response<LessonProgress>)
  {
    match FirstIndex(d.enrollments, EnrollmentOf(caller.id, lesson.courseId))
    case None => Response(d, Failure(Forbidden))
    case Some(ei) =>
      var e := d.enrollments[ei];
      match FirstIndex(d.progress, ProgressOf(e.id, lesson.id))
      case None =>
        var p := MarkDone(NewProgress(d.nextId, e.id, lesson.id), now);
        var d1 := d.(progress := d.progress + [p], nextId := d.nextId + 1);
        Response(Recount(d1, ei, lesson.courseId), Success(p))
      case Some(pi) =>
        var p := d.progress[pi];
        if p.isCompleted then Response(d, Success(p))
        else
          var p' := MarkDone(p, now);
          var d1 := d.(progress := d.progress[pi := p']);
          Response(Recount(d1, ei, lesson.courseId), Success(p'))
  }

  /** `complete_lesson`. */
  function CompleteLessonSpec(d: Db, caller: User, lessonId: Id, now: Timestamp): (r: Response<LessonProgress>)
    ensures (forall i :: 0 <= i < |d.lessons| ==> d.lessons[i].id != lessonId) ==> r == Response(d, Failure(NotFound))
  {
    match FirstIndex(d.lessons, LessonWithId(lessonId))
    case None => Response(d, Failure(NotFound))
    case Some(li) => FinishCompletion(d, caller, d.lessons[li], now)
  }

  /** `complete_quiz`: 404 first, then 400 for a lesson that is not a quiz;
      for a quiz lesson it has exactly the effect of `complete_lesson`. */
  function CompleteQuizSpec(d: Db, caller: User, lessonId: Id, now: Timestamp): (r: Response<LessonProgress>)
    ensures (forall i :: 0 <= i < |d.lessons| ==> d.lessons[i].id != lessonId) ==> r == Response(d, Failure(NotFound))
    ensures FirstIndex(d.lessons, LessonWithId(lessonId)).Some? ==>
      if d.lessons[FirstIndex(d.lessons, LessonWithId(lessonId)).value].kind == Quiz
      then r == CompleteLessonSpec(d, caller, lessonId, now)
      else r == Response(d, Failure(BadRequest))
  {
    match FirstIndex(d.lessons, LessonWithId(lessonId))
    case None => Response(d, Failure(NotFound))
    case Some(li) =>
      if d.lessons[li].kind != Quiz then Response(d, Failure(BadRequest))
      else FinishCompletion(d, caller, d.lessons[li], now)
  }

  // ---------------------------------------------- completion: properties

  /** A lesson of the course is counted in its total, so the guard
      `total_lessons > 0` always holds when it is reached. */
  lemma TotalLessonsPositive(d: Db, li: nat)
    requires li < |d.lessons|
    ensures TotalLessons(d, d.lessons[li].courseId) > 0
  {
    FilterMembers(d.lessons, LessonOfCourse(d.lessons[li].courseId));
  }

  /** Error order: an unknown lesson gives 404, a lesson whose course the
      caller is not enrolled in gives 403, and neither writes anything. */
  lemma CompleteLessonErrors(d: Db, caller: User, lessonId: Id, now: Timestamp)
    requires WellFormed(d)
    ensures var r := CompleteLessonSpec(d, caller, lessonId, now);
      && (r.result.Failure? ==> r.db == d)
      && (r.result == Failure(NotFound) <==> forall i :: 0 <= i < |d.lessons| ==> d.lessons[i].id != lessonId)
      && (r.result == Failure(Forbidden) <==>
            exists i :: 0 <= i < |d.lessons| && d.lessons[i].id == lessonId
              && forall j :: 0 <= j < |d.enrollments| ==>
                   !(d.enrollments[j].userId == caller.id && d.enrollments[j].courseId == d.lessons[i].courseId))
      && (r.result.Failure? ==> r.result.error == NotFound || r.result.error == Forbidden)
  {
    var r := CompleteLessonSpec(d, caller, lessonId, now);
    var fl := FirstIndex(d.lessons, LessonWithId(lessonId));
    if fl.Some? {
      var li := fl.value;
      FirstByKeyIsUnique(d.lessons, LessonId, li, LessonWithId(lessonId));
      forall i | 0 <= i < |d.lessons| && d.lessons[i].id == lessonId ensures i == li {
        DistinctKeyIndex(d.lessons, LessonId, i, li);
      }
    }
  }

  /** A completed row makes the call a no-op: nothing is written and the
      stored row is returned as it is. */
  lemma CompleteAlreadyDone(d: Db, caller: User, li: nat, ei: nat, pi: nat, now: Timestamp)
    requires WellFormed(d)
    requires li < |d.lessons| && ei < |d.enrollments| && pi < |d.progress|
    requires d.enrollments[ei].userId == caller.id && d.enrollments[ei].courseId == d.lessons[li].courseId
    requires d.progress[pi].enrollmentId == d.enrollments[ei].id && d.progress[pi].lessonId == d.lessons[li].id
    requires d.progress[pi].isCompleted
    ensures CompleteLessonSpec(d, caller, d.lessons[li].id, now) == Response(d, Success(d.progress[pi]))
  {
    var l := d.lessons[li];
    var e := d.enrollments[ei];
    FirstByKeyIsUnique(d.lessons, LessonId, li, LessonWithId(l.id));
    FirstByKeyIsUnique(d.enrollments, EnrollmentKey, ei, EnrollmentOf(caller.id, l.courseId));
    FirstByKeyIsUnique(d.progress, ProgressKey, pi, ProgressOf(e.id, l.id));
  }

  /** Recounting touches only enrollment `ei`, and only its percentage and status. */
  lemma RecountFrame(d: Db, ei: nat, cid: Id)
    requires ei < |d.enrollments|
    ensures var d' := Recount(d, ei, cid);
      && d'.users == d.users && d'.courses == d.courses && d'.lessons == d.lessons
      && d'.progress == d.progress && d'.reviews == d.reviews && d'.nextId == d.nextId
      && |d'.enrollments| == |d.enrollments|
      && (forall j :: 0 <= j < |d.enrollments| && j != ei ==> d'.enrollments[j] == d.enrollments[j])
      && d'.enrollments[ei] == d.enrollments[ei].(progressPercentage := d'.enrollments[ei].progressPercentage,
                                                  status := d'.enrollments[ei].status)
      && (d.enrollments[ei].status == Completed ==> d'.enrollments[ei].status == Completed)
  {
  }

  /** The first-completion path: what the row and the enrollment become. */
  predicate FirstCompletionEffect(d: Db, r: Response<LessonProgress>, lesson: Lesson, ei: nat, now: Timestamp)
    requires ei < |d.enrollments|
  {
    var e := d.enrollments[ei];
    var cid := lesson.courseId;
    && r.result.Success?
    && r.result.value.isCompleted && r.result.value.completedAt == Some(now)
    && r.result.value.enrollmentId == e.id && r.result.value.lessonId == lesson.id
    && |r.db.enrollments| == |d.enrollments|
    && TotalLessons(r.db, cid) > 0
    && r.db.enrollments[ei].progressPercentage
         == Min(Percentage(DoneLessons(r.db, e.id, cid), TotalLessons(r.db, cid)), 100)
    && r.db.enrollments[ei].status
         == (if Percentage(DoneLessons(r.db, e.id, cid), TotalLessons(r.db, cid)) == 100 then Completed else e.status)
  }

  /** When the lesson exists, the caller is enrolled and the progress row is
      missing or not yet complete, the row becomes complete at `now` and the
      enrollment's percentage is recomputed from the counts after the write. */
  lemma CompleteLessonRecounts(d: Db, caller: User, li: nat, now: Timestamp)
    requires li < |d.lessons|
    requires FirstIndex(d.lessons, LessonWithId(d.lessons[li].id)) == Some(li)
    requires FirstIndex(d.enrollments, EnrollmentOf(caller.id, d.lessons[li].courseId)).Some?
    requires var ei := FirstIndex(d.enrollments, EnrollmentOf(caller.id, d.lessons[li].courseId)).value;
      var fp := FirstIndex(d.progress, ProgressOf(d.enrollments[ei].id, d.lessons[li].id));
      fp.None? || !d.progress[fp.value].isCompleted
    ensures var ei := FirstIndex(d.enrollments, EnrollmentOf(caller.id, d.lessons[li].courseId)).value;
      FirstCompletionEffect(d, CompleteLessonSpec(d, caller, d.lessons[li].id, now), d.lessons[li], ei, now)
  {
    var l := d.lessons[li];
    var ei := FirstIndex(d.enrollments, EnrollmentOf(caller.id, l.courseId)).value;
    var e := d.enrollments[ei];
    var fp := FirstIndex(d.progress, ProgressOf(e.id, l.id));
    var d1 := if fp.None? then d.(progress := d.progress + [MarkDone(NewProgress(d.nextId, e.id, l.id), now)], nextId := d.nextId + 1)
              else d.(progress := d.progress[fp.value := MarkDone(d.progress[fp.value], now)]);
    assert d1.lessons == d.lessons;
    TotalLessonsPositive(d1, li);
    RecountFrame(d1, ei, l.courseId);
  }

  /** With one progress row per (enrollment, lesson), the completed rows of
      one enrollment name distinct lessons. */
  lemma CompletedRowsDistinct(d: Db, eid: Id, cid: Id)
    requires DistinctBy(d.progress, ProgressKey)
    ensures DistinctBy(Filter(d.progress, CompletedIn(d.lessons, eid, cid)), ProgressLesson)
  {
    var pred := CompletedIn(d.lessons, eid, cid);
    var rows := Filter(d.progress, pred);
    FilterDistinct(d.progress, pred, ProgressKey);
    forall i, j | 0 <= i < j < |rows| ensures ProgressLesson(rows[i]) != ProgressLesson(rows[j]) {
      assert pred(rows[i]) && pred(rows[j]);
      assert ProgressKey(rows[i]) != ProgressKey(rows[j]);
    }
  }

  /** The lessons the completed rows name are lessons of the course. */
  lemma CompletedLessonsOfCourse(d: Db, eid: Id, cid: Id)
    ensures KeySet(Filter(d.progress, CompletedIn(d.lessons, eid, cid)), ProgressLesson)
         <= KeySet(Filter(d.lessons, LessonOfCourse(cid)), LessonId)
  {
    var pred := CompletedIn(d.lessons, eid, cid);
    var rows := Filter(d.progress, pred);
    var ofCourse := Filter(d.lessons, LessonOfCourse(cid));
    FilterMembers(d.lessons, LessonOfCourse(cid));
    forall x | x in KeySet(rows, ProgressLesson) ensures x in KeySet(ofCourse, LessonId) {
      var i :| 0 <= i < |rows| && ProgressLesson(rows[i]) == x;
      assert pred(rows[i]);
      var j :| 0 <= j < |d.lessons| && d.lessons[j].id == x && d.lessons[j].courseId == cid;
      assert d.lessons[j] in ofCourse;
      var k :| 0 <= k < |ofCourse| && ofCourse[k] == d.lessons[j];
      assert LessonId(ofCourse[k]) == x;
    }
  }

  /** The clamp to 100 never bites: with one progress row per (enrollment,
      lesson), the completed lessons of a course are at most its lessons. */
  lemma DoneAtMostTotal(d: Db, eid: Id, cid: Id)
    requires DistinctBy(d.progress, ProgressKey)
    ensures DoneLessons(d, eid, cid) <= TotalLessons(d, cid)
  {
    var rows := Filter(d.progress, CompletedIn(d.lessons, eid, cid));
    var ofCourse := Filter(d.lessons, LessonOfCourse(cid));
    CompletedRowsDistinct(d, eid, cid);
    KeySetOfDistinct(rows, ProgressLesson);
    CompletedLessonsOfCourse(d, eid, cid);
    SubsetCardinality(KeySet(rows, ProgressLesson), KeySet(ofCourse, LessonId));
  }

  /** Below the total, the percentage is at most 100, and it is 100
      exactly when every lesson is done. */
  lemma PercentageOfPart(done: nat, total: nat)
    requires 0 < total && done <= total
    ensures Percentage(done, total) <= 100
    ensures Percentage(done, total) == 100 <==> done == total
  {
    var pct := Percentage(done, total);
    assert pct * total <= 100 * total;
    MulCancel(pct, 100, total);
    if done == total {
      MulCancelStrict(99, pct, total);
    }
  }

  lemma MulCancel(a: int, b: int, c: int)
    requires c > 0 && a * c <= b * c
    ensures a <= b
  {
    assert (b - a) * c >= 0;
  }

  lemma MulCancelStrict(a: int, b: int, c: int)
    requires c > 0 && a * c < (b + 1) * c
    ensures a <= b
  {
    assert (b + 1 - a) * c > 0;
  }

  /** With the table constraints, the status becomes `completed` exactly
      when every lesson of the course is complete (or it already was). */
  lemma CompletedExactlyWhenAllDone(d: Db, caller: User, li: nat, now: Timestamp)
    requires WellFormed(d)
    requires li < |d.lessons|
    requires FirstIndex(d.enrollments, EnrollmentOf(caller.id, d.lessons[li].courseId)).Some?
    requires var ei := FirstIndex(d.enrollments, EnrollmentOf(caller.id, d.lessons[li].courseId)).value;
      var fp := FirstIndex(d.progress, ProgressOf(d.enrollments[ei].id, d.lessons[li].id));
      fp.None? || !d.progress[fp.value].isCompleted
    ensures var ei := FirstIndex(d.enrollments, EnrollmentOf(caller.id, d.lessons[li].courseId)).value;
      var e := d.enrollments[ei];
      var r := CompleteLessonSpec(d, caller, d.lessons[li].id, now);
      var cid := d.lessons[li].courseId;
      && 0 < TotalLessons(r.db, cid) && DoneLessons(r.db, e.id, cid) <= TotalLessons(r.db, cid)
      && r.db.enrollments[ei].progressPercentage == Percentage(DoneLessons(r.db, e.id, cid), TotalLessons(r.db, cid))
      && (r.db.enrollments[ei].status == Completed <==>
            DoneLessons(r.db, e.id, cid) == TotalLessons(r.db, cid) || e.status == Completed)
  {
    var l := d.lessons[li];
    var cid := l.courseId;
    var ei := FirstIndex(d.enrollments, EnrollmentOf(caller.id, cid)).value;
    var e := d.enrollments[ei];
    var r := CompleteLessonSpec(d, caller, l.id, now);
    FirstByKeyIsUnique(d.lessons, LessonId, li, LessonWithId(l.id));
    CompleteLessonRecounts(d, caller, li, now);
    assert FirstCompletionEffect(d, r, l, ei, now);
    CompletePreservesWellFormed(d, caller, l.id, now);
    DoneAtMostTotal(r.db, e.id, cid);
    PercentageOfPart(DoneLessons(r.db, e.id, cid), TotalLessons(r.db, cid));
  }

  /** Recounting rewrites one enrollment without touching its keys. */
  lemma RecountPreservesWellFormed(d: Db, ei: nat, cid: Id)
    requires WellFormed(d) && ei < |d.enrollments|
    ensures WellFormed(Recount(d, ei, cid))
  {
    var d2 := Recount(d, ei, cid);
    if d2 != d {
      var e' := d2.enrollments[ei];
      assert d2.enrollments == d.enrollments[ei := e'];
      UpdateSameKey(d.enrollments, ei, e', EnrollmentKey);
      UpdateSameKey(d.enrollments, ei, e', EnrollmentId);
      UpdateSameIdBelow(d.enrollments, ei, e', EnrollmentId, d.nextId);
    }
  }

  /** Inserting the progress row of a pair that has none keeps the constraints. */
  lemma InsertProgressPreservesWellFormed(d: Db, p: LessonProgress)
    requires WellFormed(d) && p.id == d.nextId
    requires FirstIndex(d.progress, ProgressOf(p.enrollmentId, p.lessonId)).None?
    ensures WellFormed(d.(progress := d.progress + [p], nextId := d.nextId + 1))
  {
    AppendFresh(d.progress, p, ProgressId, d.nextId);
    assert forall i :: 0 <= i < |d.progress| ==> ProgressKey(d.progress[i]) != ProgressKey(p) by {
      forall i | 0 <= i < |d.progress| ensures ProgressKey(d.progress[i]) != ProgressKey(p) {
        assert !ProgressOf(p.enrollmentId, p.lessonId)(d.progress[i]);
      }
    }
    AppendNewKey(d.progress, p, ProgressKey);
    RaiseBound(d.users, UserId, d.nextId, d.nextId + 1);
    RaiseBound(d.courses, CourseId, d.nextId, d.nextId + 1);
    RaiseBound(d.lessons, LessonId, d.nextId, d.nextId + 1);
    RaiseBound(d.enrollments, EnrollmentId, d.nextId, d.nextId + 1);
    RaiseBound(d.reviews, ReviewId, d.nextId, d.nextId + 1);
  }

  /** Marking an existing progress row keeps the constraints. */
  lemma MarkProgressPreservesWellFormed(d: Db, pi: nat, now: Timestamp)
    requires WellFormed(d) && pi < |d.progress|
    ensures WellFormed(d.(progress := d.progress[pi := MarkDone(d.progress[pi], now)]))
  {
    var p' := MarkDone(d.progress[pi], now);
    UpdateSameKey(d.progress, pi, p', ProgressKey);
    UpdateSameKey(d.progress, pi, p', ProgressId);
    UpdateSameIdBelow(d.progress, pi, p', ProgressId, d.nextId);
  }

  /** Completing keeps every table constraint, the one-row-per-(enrollment,
      lesson) rule included. */
  lemma CompletePreservesWellFormed(d: Db, caller: User, lessonId: Id, now: Timestamp)
    requires WellFormed(d)
    ensures WellFormed(CompleteLessonSpec(d, caller, lessonId, now).db)
  {
    var fl := FirstIndex(d.lessons, LessonWithId(lessonId));
    if fl.None? { return; }
    var l := d.lessons[fl.value];
    var fe := FirstIndex(d.enrollments, EnrollmentOf(caller.id, l.courseId));
    if fe.None? { return; }
    var ei := fe.value;
    var e := d.enrollments[ei];
    var fp := FirstIndex(d.progress, ProgressOf(e.id, l.id));
    if fp.None? {
      var p := MarkDone(NewProgress(d.nextId, e.id, l.id), now);
      var d1 := d.(progress := d.progress + [p], nextId := d.nextId + 1);
      assert CompleteLessonSpec(d, caller, lessonId, now).db == Recount(d1, ei, l.courseId);
      InsertProgressPreservesWellFormed(d, p);
      RecountPreservesWellFormed(d1, ei, l.courseId);
    } else if !d.progress[fp.value].isCompleted {
      var d1 := d.(progress := d.progress[fp.value := MarkDone(d.progress[fp.value], now)]);
      assert CompleteLessonSpec(d, caller, lessonId, now).db == Recount(d1, ei, l.courseId);
      MarkProgressPreservesWellFormed(d, fp.value, now);
      RecountPreservesWellFormed(d1, ei, l.courseId);
    }
  }

  /** Nothing outside the caller's enrollment and the one progress row
      changes, and no enrollment status goes back from `completed`. */
  lemma CompleteFrame(d: Db, caller: User, lessonId: Id, now: Timestamp)
    ensures var r := CompleteLessonSpec(d, caller, lessonId, now);
      && r.db.users == d.users && r.db.courses == d.courses && r.db.lessons == d.lessons
      && r.db.reviews == d.reviews
      && |r.db.enrollments| == |d.enrollments|
      && (forall j :: 0 <= j < |d.enrollments| ==>
            && r.db.enrollments[j].id == d.enrollments[j].id
            && r.db.enrollments[j].userId == d.enrollments[j].userId
            && r.db.enrollments[j].courseId == d.enrollments[j].courseId
            && r.db.enrollments[j].enrolledAt == d.enrollments[j].enrolledAt
            && (d.enrollments[j].status == Completed ==> r.db.enrollments[j].status == Completed)
            && (d.enrollments[j].userId != caller.id ==> r.db.enrollments[j] == d.enrollments[j]))
      && (|r.db.progress| == |d.progress| || r.db.progress[..|d.progress|] == d.progress)
      && |d.progress| <= |r.db.progress| <= |d.progress| + 1
  {
    var fl := FirstIndex(d.lessons, LessonWithId(lessonId));
    if fl.None? { return; }
    var l := d.lessons[fl.value];
    var fe := FirstIndex(d.enrollments, EnrollmentOf(caller.id, l.courseId));
    if fe.None? { return; }
    var ei := fe.value;
    var e := d.enrollments[ei];
    var fp := FirstIndex(d.progress, ProgressOf(e.id, l.id));
    if fp.None? {
      var d1 := d.(progress := d.progress + [MarkDone(NewProgress(d.nextId, e.id, l.id), now)], nextId := d.nextId + 1);
      assert d1.progress[..|d.progress|] == d.progress;
      RecountFrame(d1, ei, l.courseId);
    } else if !d.progress[fp.value].isCompleted {
      var d1 := d.(progress := d.progress[fp.value := MarkDone(d.progress[fp.value], now)]);
      RecountFrame(d1, ei, l.courseId);
    }
  }

  /** A second completion of the same lesson changes nothing and returns the
      same row, whatever the time. */
  lemma CompleteLessonIdempotent(d: Db, caller: User, lessonId: Id, now: Timestamp, later: Timestamp)
    ensures var r1 := CompleteLessonSpec(d, caller, lessonId, now);
      var r2 := CompleteLessonSpec(r1.db, caller, lessonId, later);
      r2 == r1
  {
    var fl := FirstIndex(d.lessons, LessonWithId(lessonId));
    if fl.None? { return; }
    var l := d.lessons[fl.value];
    var fe := FirstIndex(d.enrollments, EnrollmentOf(caller.id, l.courseId));
    if fe.None? { return; }
    var ei := fe.value;
    var e := d.enrollments[ei];
    var fp := FirstIndex(d.progress, ProgressOf(e.id, l.id));
    if fp.Some? && d.progress[fp.value].isCompleted { return; }
    var d1: Db;
    var p: LessonProgress;
    if fp.None? {
      p := MarkDone(NewProgress(d.nextId, e.id, l.id), now);
      d1 := d.(progress := d.progress + [p], nextId := d.nextId + 1);
      FirstIndexAppend(d.progress, p, ProgressOf(e.id, l.id));
    } else {
      p := MarkDone(d.progress[fp.value], now);
      d1 := d.(progress := d.progress[fp.value := p]);
      FirstIndexUpdate(d.progress, fp.value, p, ProgressOf(e.id, l.id));
    }
    assert FinishCompletion(d, caller, l, now) == Response(Recount(d1, ei, l.courseId), Success(p));
    RecountThenDone(d1, caller, l, ei, p, later);
  }

  /** After a first completion and its recount, a second call finds the
      enrollment and the completed row again and writes nothing. */
  lemma RecountThenDone(d1: Db, caller: User, l: Lesson, ei: nat, p: LessonProgress, later: Timestamp)
    requires FirstIndex(d1.enrollments, EnrollmentOf(caller.id, l.courseId)) == Some(ei)
    requires ei < |d1.enrollments| && p.isCompleted
    requires var fp := FirstIndex(d1.progress, ProgressOf(d1.enrollments[ei].id, l.id));
      fp.Some? && fp.value < |d1.progress| && d1.progress[fp.value] == p
    ensures var d2 := Recount(d1, ei, l.courseId);
      d2.lessons == d1.lessons && FinishCompletion(d2, caller, l, later) == Response(d2, Success(p))
  {
    var d2 := Recount(d1, ei, l.courseId);
    RecountFrame(d1, ei, l.courseId);
    if d2.enrollments != d1.enrollments {
      FirstIndexUpdate(d1.enrollments, ei, d2.enrollments[ei], EnrollmentOf(caller.id, l.courseId));
      assert d2.enrollments == d1.enrollments[ei := d2.enrollments[ei]];
    }
    assert FirstIndex(d2.enrollments, EnrollmentOf(caller.id, l.courseId)) == Some(ei);
    assert d2.enrollments[ei].id == d1.enrollments[ei].id;
  }

  // ------------------------------------------------- the endpoints, imperative

  method RecountIn(db: Store, ei: nat, cid: Id)
    requires ei < |db.enrollments|
    modifies db
    ensures db.State() == Recount(old(db.State()), ei, cid)
  {
    var total := Count(db.lessons, LessonOfCourse(cid));
    assert total == TotalLessons(db.State(), cid);
    if total > 0 {
      var e := db.enrollments[ei];
      var done := Count(db.progress, CompletedIn(db.lessons, e.id, cid));
      var pct := (100 * done) / total;
      var status := if pct == 100 then Completed else e.status;
      db.enrollments := db.enrollments[ei := e.(progressPercentage := Min(pct, 100), status := status)];
    }
  }

  method CompleteLessonIn(db: Store, caller: User, lesson: Lesson, now: Timestamp) returns (r: Result<LessonProgress, ApiError>)
    modifies db
    ensures db.State() == FinishCompletion(old(db.State()), caller, lesson, now).db
    ensures r == FinishCompletion(old(db.State()), caller, lesson, now).result
  {
    var fe := FirstIndex(db.enrollments, EnrollmentOf(caller.id, lesson.courseId));
    if fe.None? {
      return Failure(Forbidden);
    }
    var ei := fe.value;
    var e := db.enrollments[ei];
    var fp := FirstIndex(db.progress, ProgressOf(e.id, lesson.id));
    var progress: LessonProgress;
    if fp.None? {
      var id := db.FreshId();
      progress := NewProgress(id, e.id, lesson.id);
      progress := MarkDone(progress, now);
      db.progress := db.progress + [progress];
    } else {
      progress := db.progress[fp.value];
      if progress.isCompleted {
        return Success(progress);
      }
      progress := MarkDone(progress, now);
      db.progress := db.progress[fp.value := progress];
    }
    RecountIn(db, ei, lesson.courseId);
    r := Success(progress);
  }

  /** `complete_lesson` on the session. */
  method CompleteLesson(db: Store, caller: User, lessonId: Id, now: Timestamp) returns (r: Result<LessonProgress, ApiError>)
    modifies db
    ensures db.State() == CompleteLessonSpec(old(db.State()), caller, lessonId, now).db
    ensures r == CompleteLessonSpec(old(db.State()), caller, lessonId, now).result
  {
    var fl := FirstIndex(db.lessons, LessonWithId(lessonId));
    if fl.None? {
      return Failure(NotFound);
    }
    r := CompleteLessonIn(db, caller, db.lessons[fl.value], now);
  }

  /** `complete_quiz` on the session. */
  method CompleteQuiz(db: Store, caller: User, lessonId: Id, now: Timestamp) returns (r: Result<LessonProgress, ApiError>)
    modifies db
    ensures db.State() == CompleteQuizSpec(old(db.State()), caller, lessonId, now).db
    ensures r == CompleteQuizSpec(old(db.State()), caller, lessonId, now).result
  {
    var fl := FirstIndex(db.lessons, LessonWithId(lessonId));
    if fl.None? {
      return Failure(NotFound);
    }
    var lesson := db.lessons[fl.value];
    if lesson.kind != Quiz {
      return Failure(BadRequest);
    }
    r := CompleteLessonIn(db, caller, lesson, now);
  }

  /** `create_lesson` on the session. */
  method CreateLesson(db: Store, caller: User, courseId: Id, input: LessonCreate) returns (r: Result<Lesson, ApiError>)
    modifies db
    ensures db.State() == CreateLessonSpec(old(db.State()), caller, courseId, input).db
    ensures r == CreateLessonSpec(old(db.State()), caller, courseId, input).result
  {
    if RoleRequired(caller, StaffRoles).Failure? {
      return Failure(Forbidden);
    }
    var course := First(db.courses, CourseWithId(courseId));
    if course.None? {
      return Failure(NotFound);
    }
    if !OwnerOrAdmin(course.value, caller) {
      return Failure(Forbidden);
    }
    var id := db.FreshId();
    var lesson := NewLesson(id, courseId, input);
    db.lessons := db.lessons + [lesson];
    r := Success(lesson);
  }

  /** `update_lesson` on the session. */
  method UpdateLesson(db: Store, caller: User, lessonId: Id, u: LessonUpdate) returns (r: Result<Lesson, ApiError>)
    modifies db
    ensures db.State() == UpdateLessonSpec(old(db.State()), caller, lessonId, u).db
    ensures r == UpdateLessonSpec(old(db.State()), caller, lessonId, u).result
  {
    if RoleRequired(caller, StaffRoles).Failure? {
      return Failure(Forbidden);
    }
    var fl := FirstIndex(db.lessons, LessonWithId(lessonId));
    if fl.None? {
      return Failure(NotFound);
    }
    var lesson := db.lessons[fl.value];
    var course := First(db.courses, CourseWithId(lesson.courseId));
    if course.None? {
      return Failure(Internal);
    }
    if !OwnerOrAdmin(course.value, caller) {
      return Failure(Forbidden);
    }
    lesson := ApplyLessonUpdate(lesson, u);
    db.lessons := db.lessons[fl.value := lesson];
    r := Success(lesson);
  }

  /** `delete_lesson` on the session. */
  method DeleteLesson(db: Store, caller: User, lessonId: Id) returns (r: Result<(), ApiError>)
    modifies db
    ensures db.State() == DeleteLessonSpec(old(db.State()), caller, lessonId).db
    ensures r == DeleteLessonSpec(old(db.State()), caller, lessonId).result
  {
    if RoleRequired(caller, StaffRoles).Failure? {
      return Failure(Forbidden);
    }
    var fl := FirstIndex(db.lessons, LessonWithId(lessonId));
    if fl.None? {
      return Failure(NotFound);
    }
    var li := fl.value;
    var course := First(db.courses, CourseWithId(db.lessons[li].courseId));
    if course.None? {
      return Failure(Internal);
    }
    if !OwnerOrAdmin(course.value, caller) {
      return Failure(Forbidden);
    }
    db.lessons := db.lessons[..li] + db.lessons[li + 1..];
    r := Success(());
  }
}
