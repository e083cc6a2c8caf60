# LearnFlow Studio: a verified model of the course platform's rules

LearnFlow Studio is a learning platform. Its backend is a FastAPI service over
SQLAlchemy tables: users, courses, lessons, enrollments, lesson-progress rows and
reviews. Its frontend is a React application that shows a catalogue, course pages,
a lesson player, quizzes, badges and a backoffice for instructors. This project
models both halves in Dafny and proves what they promise.

**Backend.** The tables are a value (`DbModels.Db`: one sequence per table, plus a
counter standing in for `uuid4`), held by a `DbModels.Store` class that the
endpoint methods change in place. Each router endpoint has two parts:

- a pure transition function (`Lessons.CompleteLessonSpec`, `Courses.EnrollSpec`, …)
  that gives the new tables and the response or error kind (400, 401, 403, 404, 500);
- an imperative method on the store (`Lessons.CompleteLesson`, …) proved to have
  exactly that effect.

The lemmas about the transition functions state the routers' rules:

- the error order of the role gate, the existence check and the ownership check;
- what a first lesson completion does to the enrollment, and that repeating it does nothing;
- idempotent enrolment and review upsert;
- role-scoped reports;
- that every table constraint is preserved.

**Frontend.** Pure rules become functions with lemmas:

- badge tiers;
- quiz scoring;
- the card-number and expiry formatters;
- duration labels with their parsers;
- catalogue and tab filters;
- the action buttons;
- route guards;
- badge unlocking.

Stateful pages become classes with the page's state fields:

- the lesson player;
- the quiz session;
- the auth context;
- the backoffice course board;
- the course editor;
- the instructor directory.

Modules, one per file:

| | modules |
|---|---|
| shared | `Wrappers`, `Seqs`, `Text`, `Rounding` |
| backend | `DbModels`, `Auth`, `Courses`, `Lessons`, `Reviews`, `Enrollments`, `Reporting` |
| frontend types and lookups | `UiTypes`, `Catalog`, `Durations` |
| frontend pages | one module per page: `AuthContext`, `QuizPage`, `PaymentModal`, `LessonPlayer`, `CourseDetailPage`, `CourseCard`, `CoursesPage`, `MyCoursesPage`, `BackofficeCourses`, `Routes`, `BadgesPage`, `BackofficeInstructors`, `CourseEditor` |

The frontend and the backend use different enrollment-status vocabularies, so they
are two different datatypes:

- frontend `yet_to_start | in_progress | completed`;
- backend `active | completed | dropped`.

## Model

| member | source | states |
|---|---|---|
| DbModels.ParseUserRole | backend/app/models/db_models.py:10-13 | the role enum has exactly the values student, instructor, admin: a string parses iff it is one of them, and parses to the member with that value |
| DbModels.ParseCourseLevel | backend/app/models/db_models.py:15-18 | the level enum's value set, as above |
| DbModels.ParseCourseStatus | backend/app/models/db_models.py:20-23 | the course-status enum's value set, as above |
| DbModels.ParseLessonType | backend/app/models/db_models.py:25-30 | the lesson-type enum's value set, as above |
| DbModels.ParseEnrollmentStatus | backend/app/models/db_models.py:32-35 | the enrollment-status enum's value set, as above |
| DbModels.NewUserWithDefaultRole | backend/app/models/db_models.py:42-47 | a user row with the role left to its default is a student with no avatar |
| DbModels.NewCourseWithDefaults | backend/app/models/db_models.py:61-69 | course defaults: price 0.0, level beginner, status draft, null optional columns |
| DbModels.NewEnrollment | backend/app/models/db_models.py:114-119 | enrollment defaults: status active, progress 0 |
| DbModels.NewProgress | backend/app/models/db_models.py:131-136 | progress defaults: not completed, no `completed_at`, position 0 |
| DbModels.LessonsCount | backend/app/models/db_models.py:79-87 | `lessons_count` is 0 while the relationship is unloaded, otherwise the number of loaded lessons |
| DbModels.DeleteCourse | backend/app/models/db_models.py:75 | the cascade: after deleting a course, no course with that id and no lesson of it remain; every other course and lesson is kept, in order; the enrollment, review and progress rows are kept as they are, their ids of the deleted course and lessons standing for the NULLs the ORM writes |
| DbModels.FirstByKeyIsUnique | backend/app/models/db_models.py:43 | with distinct keys (email, primary keys), a lookup by the key of a row finds that row |
| DbModels.Store.FreshId | backend/app/models/db_models.py:42 | `uuid4`: a key no row has yet, and no table changes |
| DbModels.Store.constructor | backend/app/models/db_models.py:42 | a fresh database has every table empty and satisfies the table constraints |
| Auth.Authenticate | backend/app/routers/auth.py:25-42 | `get_current_user` succeeds iff the token is well signed, has a subject and the subject names a user; that user is returned; every failure is 401 |
| Auth.RoleRequired | backend/app/routers/auth.py:45-53 | the user is returned iff the role's value is listed, otherwise 403 |
| Auth.StaffGate | backend/app/routers/courses.py:18 | the `["instructor", "admin"]` gate admits exactly instructors and admins |
| Auth.Authorize | backend/app/routers/auth.py:45-47 | the dependency chain: a token failure gives 401 before the role check's 403 |
| Auth.RegisteredUser | backend/app/routers/auth.py:66-72 | the inserted user has the client's email, name, avatar and role (a client may register as admin), and a hash that verifies the password |
| Auth.RegisterSpec | backend/app/routers/auth.py:56-78 | a taken email gives 400 and no write; otherwise exactly one user is appended and a token for that user is returned |
| Auth.RegisterPreservesWellFormed | backend/app/routers/auth.py:58-63 | registration keeps every table constraint, unique email included |
| Auth.RegisterThenAuthenticate | backend/app/routers/auth.py:77-78 | the token `register` returns authenticates as the new user |
| Auth.Login | backend/app/routers/auth.py:85-95 | an unknown email and a wrong password give the same 401; a success is a token for a user with that email whose hash verifies the password (the success direction is `LoginRightPassword`) |
| Auth.LoginRightPassword | backend/app/routers/auth.py:85-95 | with unique emails, a registered email with a password its hash verifies logs in, with a token for that user |
| Auth.RegisterThenLogin | backend/app/routers/auth.py:55-95 | a new account logs in with the password it registered and gets a token for the user `register` created |
| Auth.LoginWrongPassword | backend/app/routers/auth.py:87-92 | with unique emails, a wrong password for a registered email is always refused |
| Auth.LoginThenAuthenticate | backend/app/routers/auth.py:94-95 | the token `login` returns authenticates as a user with the email that logged in |
| Auth.Register | backend/app/routers/auth.py:55-78 | the endpoint on the session has exactly the effect and response of `RegisterSpec` |
| Courses.CreateCourseOutcome | backend/app/routers/courses.py:14-28 | students get 403 with no write; otherwise one course is appended whose instructor is the caller and whose status is draft, whatever the payload |
| Courses.CreateCoursePreservesWellFormed | backend/app/routers/courses.py:20-27 | creating a course keeps the table constraints |
| Courses.ApplyCourseUpdate | backend/app/routers/courses.py:44-45 | the `setattr` loop: each supplied field is replaced (status included), each absent field kept, and id and instructor are never changed |
| Courses.ApplyCourseUpdateIdempotent | backend/app/routers/courses.py:44-45 | the same update twice equals once; an empty update changes nothing |
| Courses.OwnedCourse | backend/app/routers/courses.py:37-42 | a success is the position of a course with the requested id |
| Courses.OwnedCourseOrder | backend/app/routers/courses.py:35-42 | the guard order: the role (403), then a missing course (404), then ownership (403); success iff staff and the first course with the id is the caller's or the caller is an admin |
| Courses.UpdateCourseOutcome | backend/app/routers/courses.py:30-49 | an error writes nothing; a success replaces only that one course, by the applied update |
| Courses.UpdateCoursePreservesWellFormed | backend/app/routers/courses.py:44-48 | updating keeps the table constraints |
| Courses.PublishIsStatusUpdate | backend/app/routers/courses.py:74-90 | publishing equals the update that sets only the status to published |
| Courses.PublishOutcome | backend/app/routers/courses.py:87 | the course becomes published from any prior status, with no lesson check, and keeps every other field; an error writes nothing |
| Courses.PublishIdempotent | backend/app/routers/courses.py:87-90 | publishing twice is publishing once |
| Courses.EnrollOutcome | backend/app/routers/courses.py:141-171 | an unknown course gives 404 and no write; an existing enrollment is returned with no write; otherwise one active enrollment at 0% of the caller in the course is appended |
| Courses.EnrollPreservesWellFormed | backend/app/routers/courses.py:162-170 | enrolling keeps the table constraints, one enrollment per (user, course) included |
| Courses.EnrollIdempotent | backend/app/routers/courses.py:153-159 | enrolling again, at any later time, changes nothing and returns the same enrollment |
| Courses.EnrollLeavesOne | backend/app/routers/courses.py:153-168 | after a successful enrol the caller has exactly one enrollment in the course |
| Courses.CourseRating | backend/app/routers/courses.py:109-115 | the rating is 0.0 with no reviews |
| Courses.CourseRatingBounds | backend/app/routers/courses.py:111-113 | ratings all in [lo, hi] give a rounded mean in [lo, hi] |
| Courses.CourseRatingUniform | backend/app/routers/courses.py:111-113 | equal ratings v give the rating v |
| Courses.CourseRatingExample | backend/app/routers/courses.py:112-113 | ratings 4 and 2 give 3.0 |
| Courses.CatalogueContents | backend/app/routers/courses.py:97-105 | the listing holds exactly the published courses whose title, description or category contains `q` ignoring case (any course when `q` is missing or empty), in table order |
| Courses.CatalogueWithoutQuery | backend/app/routers/courses.py:98 | with no or an empty `q`, every published course is listed |
| Courses.PublishedCourses | backend/app/routers/courses.py:92-117 | the loop attaches to each listed course its review count and rating, with `lessons_count` 0 |
| Courses.GetCourse | backend/app/routers/courses.py:119-139 | 404 iff no course has the id; otherwise the course with its lessons, their count, its review count and its rating |
| Courses.JoinedEnrollmentsContents | backend/app/routers/courses.py:61-63 | the inner join yields exactly the caller's enrollments whose course exists |
| Courses.EnrolledCourseRows | backend/app/routers/courses.py:66-72 | one row per joined enrollment, in order: its course annotated with that enrollment's status and progress |
| Courses.MyCourses | backend/app/routers/courses.py:51-72 | instructors and admins get the courses they author; everyone else gets the annotated join |
| Courses.MyCoursesMeaning | backend/app/routers/courses.py:56-70 | staff rows are authored by the caller; other rows come from the caller's enrollments and show that enrollment's course |
| Courses.CreateCourse | backend/app/routers/courses.py:14-28 | the endpoint has exactly the effect of `CreateCourseSpec` |
| Courses.UpdateCourse | backend/app/routers/courses.py:30-49 | the endpoint has exactly the effect of `UpdateCourseSpec` |
| Courses.PublishCourse | backend/app/routers/courses.py:74-90 | the endpoint has exactly the effect of `PublishCourseSpec` |
| Courses.Enroll | backend/app/routers/courses.py:141-171 | the endpoint has exactly the effect of `EnrollSpec` |
| Lessons.CreateLessonOutcome | backend/app/routers/lessons.py:14-50 | students get 403; an unknown course gives 404; when the course is found, success holds iff the caller is staff and owns it or is an admin, and a staff caller who does neither gets 403; no error writes anything; a success appends one lesson of the course built from the payload |
| Lessons.CreateLessonPreservesWellFormed | backend/app/routers/lessons.py:43-49 | creating a lesson keeps the table constraints |
| Lessons.ApplyLessonUpdate | backend/app/routers/lessons.py:73-74 | each supplied field is replaced and each absent field kept; id and course never change |
| Lessons.ApplyLessonUpdateIdempotent | backend/app/routers/lessons.py:73-74 | the same update twice is once; an empty update changes nothing |
| Lessons.UpdateLessonOutcome | backend/app/routers/lessons.py:58-78 | students get 403; an unknown lesson gives 404; a missing course row gives 500; once the lesson and its course are found, success holds iff the caller is staff and owns the course or is an admin, and a staff caller who does neither gets 403; errors write nothing; a success changes only that lesson, by the applied update |
| Lessons.UpdateLessonPreservesWellFormed | backend/app/routers/lessons.py:73-77 | updating keeps the table constraints |
| Lessons.DeleteLessonOutcome | backend/app/routers/lessons.py:80-96 | students get 403; an unknown lesson gives 404; a missing course row gives 500; once the lesson and its course are found, success holds iff the caller is staff and owns the course or is an admin, and a staff caller who does neither gets 403; errors write nothing; a success removes exactly the lesson with that id and keeps the others in order; no other table is rewritten, the progress rows' id of the deleted lesson standing for the NULL the ORM writes |
| Lessons.DeleteLessonPreservesWellFormed | backend/app/routers/lessons.py:94-95 | deleting keeps the table constraints |
| Lessons.Percentage | backend/app/routers/lessons.py:165 | the stored percentage is the floor of 100·done/total |
| Lessons.CompleteLessonSpec | backend/app/routers/lessons.py:120-122 | an unknown lesson gives 404 with no write |
| Lessons.CompleteQuizSpec | backend/app/routers/lessons.py:174-237 | 404 first; then, for a quiz, exactly the effect of `complete_lesson`; 400 with no write for any other lesson |
| Lessons.TotalLessonsPositive | backend/app/routers/lessons.py:153-164 | the lesson being completed belongs to its course, so `total_lessons > 0` always holds where it is tested |
| Lessons.CompleteLessonErrors | backend/app/routers/lessons.py:120-131 | 404 iff no lesson has the id; 403 iff the lesson exists and the caller has no enrollment in its course; these are the only errors and neither writes |
| Lessons.CompleteAlreadyDone | backend/app/routers/lessons.py:134-147 | with a completed progress row, the call writes nothing and returns the stored row |
| Lessons.RecountFrame | backend/app/routers/lessons.py:153-168 | the recount changes only that enrollment's percentage and status, and never takes a completed status back |
| Lessons.CompleteLessonRecounts | backend/app/routers/lessons.py:139-168 | a first completion creates or marks the row, completed at `now`, and sets the percentage from the counts after the write |
| Lessons.DoneAtMostTotal | backend/app/routers/lessons.py:153-162 | with one progress row per (enrollment, lesson), the completed count never exceeds the course's lessons |
| Lessons.PercentageOfPart | backend/app/routers/lessons.py:165-167 | for done ≤ total the percentage is at most 100, and is 100 exactly when done = total |
| Lessons.CompletedExactlyWhenAllDone | backend/app/routers/lessons.py:164-168 | after a first completion the percentage is ⌊100·done/total⌋ ≤ 100, and the status is completed iff every lesson is done or it was already completed |
| Lessons.CompletePreservesWellFormed | backend/app/routers/lessons.py:134-170 | completing keeps all table constraints, one progress row per (enrollment, lesson) included |
| Lessons.CompleteFrame | backend/app/routers/lessons.py:113-172 | users, courses, lessons and reviews are unchanged; enrollments keep their keys and times; other users' enrollments are unchanged; no status leaves completed; at most one progress row is appended |
| Lessons.CompleteLessonIdempotent | backend/app/routers/lessons.py:147 | a second completion of the same lesson, at any time, changes nothing and returns the same row |
| Lessons.RecountIn | backend/app/routers/lessons.py:153-168 | the recount on the session has exactly the effect of `Recount` |
| Lessons.CompleteLessonIn | backend/app/routers/lessons.py:124-172 | the enrollment check and progress upsert on the session has exactly the effect of `FinishCompletion` |
| Lessons.CompleteLesson | backend/app/routers/lessons.py:113-172 | the endpoint has exactly the effect of `CompleteLessonSpec` |
| Lessons.CompleteQuiz | backend/app/routers/lessons.py:174-237 | the endpoint has exactly the effect of `CompleteQuizSpec` |
| Lessons.CreateLesson | backend/app/routers/lessons.py:14-56 | the endpoint has exactly the effect of `CreateLessonSpec` |
| Lessons.UpdateLesson | backend/app/routers/lessons.py:58-78 | the endpoint has exactly the effect of `UpdateLessonSpec` |
| Lessons.DeleteLesson | backend/app/routers/lessons.py:80-96 | the endpoint has exactly the effect of `DeleteLessonSpec` |
| Reviews.ReviewerName | backend/app/routers/reviews.py:42-44 | the reviewer's name is present iff the user row exists, and is that user's `full_name` |
| Reviews.CreateReviewOutcome | backend/app/routers/reviews.py:13-62 | 404 iff the course is unknown, with no write; a success holds the caller, course, rating, comment and `now`; an existing review is overwritten in place, keeping its id, with no new row; otherwise exactly one review is appended; the rating is any integer |
| Reviews.CreateReviewFrame | backend/app/routers/reviews.py:27-36 | every review by another user or of another course keeps its row |
| Reviews.CreateReviewPreservesWellFormed | backend/app/routers/reviews.py:27-56 | the upsert keeps the table constraints, one review per (user, course) included |
| Reviews.CreateReviewRepeated | backend/app/routers/reviews.py:32-38 | a second identical post adds no row and only moves `created_at` |
| Reviews.AtMostOneReview | backend/app/routers/reviews.py:27-32 | with the table constraints, a user has at most one review per course |
| Reviews.GetCourseReviews | backend/app/routers/reviews.py:68-95 | 404 iff the course is unknown; otherwise, in order, each of the course's reviews with its reviewer's name |
| Reviews.CourseReviewsContents | backend/app/routers/reviews.py:78 | the listed reviews are exactly those with the course's id |
| Reviews.CreateReview | backend/app/routers/reviews.py:13-62 | the endpoint has exactly the effect of `CreateReviewSpec` |
| Enrollments.RoleKeyOf | backend/app/routers/enrollments.py:34-35 | the lower-cased role value is "admin" exactly for admins and "instructor" exactly for instructors |
| Enrollments.AdminSeesAll | backend/app/routers/enrollments.py:38-40 | an admin sees every enrollment, in table order |
| Enrollments.InstructorSeesOwnCourses | backend/app/routers/enrollments.py:41-44 | an instructor sees exactly the enrollments in courses they author |
| Enrollments.StudentSeesOwnEnrollments | backend/app/routers/enrollments.py:45-47 | any other role sees exactly its own enrollments |
| Enrollments.VisibleMembers | backend/app/routers/enrollments.py:37-49 | an enrollment is listed iff it is in the table and visible to the caller's role |
| Enrollments.FirstCompletedAt | backend/app/routers/enrollments.py:57-60 | the first `completed_at` in ascending order, with nulls first, is null when any is null or there are no rows, and otherwise the least time |
| Enrollments.StartedAtIsEarliestCompletion | backend/app/routers/enrollments.py:57-73 | `started_at` is null iff no progress row of the enrollment is completed, and otherwise not after any completion |
| Enrollments.RowForMeaning | backend/app/routers/enrollments.py:52-77 | each row copies the enrollment's id, dates, progress and status, the user's name and email and the course's title; `time_spent` is 0; there is no row when the user or the course row is missing |
| Enrollments.ReportRows | backend/app/routers/enrollments.py:52-85 | the loop gives one row per enrollment, in order, or 500 exactly when some enrollment has no row |
| Enrollments.LearnerReport | backend/app/routers/enrollments.py:14-85 | one row per visible enrollment, in order, or 500 when some visible enrollment lacks its user or course |
| Enrollments.MyEnrolledCourses | backend/app/routers/enrollments.py:89-106 | one course per joined enrollment, annotated with that enrollment's status and progress |
| Reporting.AverageProgress | backend/app/routers/reporting.py:38-53 | the average is 0.0 over no enrollments |
| Reporting.InstructorReport | backend/app/routers/reporting.py:14-56 | as written: 403 for a caller who is neither instructor nor admin; a staff caller who authors a course gets 500, because the aggregate query cannot be built; otherwise the empty list; no write |
| Reporting.InstructorReportCorrected | backend/app/routers/reporting.py:14-56 | as intended: 403 iff the caller is neither instructor nor admin; otherwise one report per course the caller authors, in order, and no write |
| Reporting.ReportedCoursesContents | backend/app/routers/reporting.py:27 | exactly the caller's own courses are reported, admins included |
| Reporting.StatusCountsPartition | backend/app/routers/reporting.py:34-37 | the three status counts add up to the course's enrollment count |
| Reporting.ReportCounts | backend/app/routers/reporting.py:42-44 | the total is the enrollment count; active plus completed is at most the total, and the difference is the dropped count |
| Reporting.ReportOfUnenrolledCourse | backend/app/routers/reporting.py:42-45 | a course without enrollments reports zeros and a 0.0 average |
| Reporting.AverageProgressBounds | backend/app/routers/reporting.py:38-53 | percentages in [0, 100] average to a value in [0, 100] |
| Reporting.AverageProgressUniform | backend/app/routers/reporting.py:38-53 | equal percentages v average to v |
| Rounding.RoundTo | backend/app/routers/courses.py:113 | `round(x, n)`: scaled by 10^n, the result is the half-to-even rounding of the scaled value |
| Rounding.RoundHalfEven | backend/app/routers/courses.py:113 | the nearest integer, within ½, and even on an exact tie |
| Rounding.RoundToBounds | backend/app/routers/reporting.py:53 | a value within integer bounds rounds to a value within them |
| Rounding.RoundToError | backend/app/routers/reporting.py:53 | the rounded value is within half a unit of the last kept decimal |
| Rounding.RoundHalfUp | src/pages/LessonPlayerPage.tsx:76 | `Math.round`: the integer r with r − ½ ≤ x < r + ½ |
| AuthContext.BadgeThresholds | src/contexts/AuthContext.tsx:15-22 | six badges at 20, 40, …, 120 points, strictly increasing |
| AuthContext.LastReached | src/contexts/AuthContext.tsx:30 | the reversed `find` is the last badge reached, and none exactly when no threshold is reached |
| AuthContext.CurrentBadgeIsHighestReached | src/contexts/AuthContext.tsx:29-31 | Newbie below 20; otherwise the highest badge whose threshold is reached |
| AuthContext.NextBadgeIsLowestUnreached | src/contexts/AuthContext.tsx:33-35 | the lowest badge above the points; none iff points ≥ 120 |
| AuthContext.ProgressAsWrittenBelowNewbie | src/contexts/AuthContext.tsx:37-44 | below 20 points the code as written divides by a zero range and yields −Infinity |
| AuthContext.ProgressBelowNewbie | src/contexts/AuthContext.tsx:37-44 | the corrected progress below 20 points is 5 per point |
| AuthContext.FivePerPoint | src/contexts/AuthContext.tsx:43 | over a 20-point range, `Math.round` gives 5 per point exactly |
| AuthContext.LadderStep | src/contexts/AuthContext.tsx:38-41 | on the ladder the current and next thresholds are 20 apart |
| AuthContext.ProgressOnLadder | src/contexts/AuthContext.tsx:41-43 | for 20 ≤ p < 120 the progress is 5·(p − current threshold), within [0, 95] |
| AuthContext.ProgressAsWrittenOnLadder | src/contexts/AuthContext.tsx:37-44 | from 20 points on, the code's value and the corrected one agree |
| AuthContext.ProgressToNextBadgeValue | src/contexts/AuthContext.tsx:40 | 100 when there is no next badge, and always within [0, 100] for non-negative points |
| AuthContext.AuthState.constructor | src/contexts/AuthContext.tsx:27 | nobody is logged in at first |
| AuthContext.AuthState.Login | src/contexts/AuthContext.tsx:46-57 | the user gets id "1", the given email, the name before '@', the given role (learner by default), 45 points and the given time; it is then authenticated |
| AuthContext.AuthState.Logout | src/contexts/AuthContext.tsx:59-76 | the user is cleared and is no longer authenticated |
| AuthContext.AuthState.SwitchRole | src/contexts/AuthContext.tsx:63-67 | only the role changes, and nothing happens when logged out |
| AuthContext.AuthState.CurrentBadgeShown | src/contexts/AuthContext.tsx:69 | a badge is shown iff someone is logged in |
| AuthContext.AuthState.ProgressShown | src/contexts/AuthContext.tsx:71 | 0 when logged out, within [0, 100] otherwise, and equal to the helper as written from 20 points on, which covers every user the context creates (45 points) |
| QuizPage.CalculateScore | src/pages/QuizPage.tsx:59-69 | the loop's count is the number of questions whose selection has the size of the correct set and holds only correct options, and is at most the number of questions |
| QuizPage.SingleSelectionScoring | src/pages/QuizPage.tsx:84-89 | with one option per selection, a question with several correct options never scores, and one with a single correct option scores iff that option is picked |
| QuizPage.ScoreAtMostSingleAnswerQuestions | src/pages/QuizPage.tsx:59-89 | the score is at most the number of questions with at most one correct option |
| QuizPage.PassedIff | src/pages/QuizPage.tsx:98-100 | `percentage >= 50` holds iff there are questions and 2·score ≥ total |
| QuizPage.HalfIff | src/pages/QuizPage.tsx:73-74 | a ratio times 100 is at least 50 iff twice the score reaches the total |
| QuizPage.PointsEarned | src/pages/QuizPage.tsx:71-82 | 0 below half marks; otherwise the reward of attempts 1, 2, 3, or the fourth-plus reward |
| QuizPage.PassingEarnsFirstAttempt | src/pages/QuizPage.tsx:27 | the attempt is fixed at 1, so a pass earns the first-attempt reward |
| QuizPage.PointsAddedValue | src/pages/QuizPage.tsx:97-104 | a submit adds the first-attempt reward when passing with a positive reward, otherwise nothing |
| QuizPage.ShownPassingIff | src/pages/QuizPage.tsx:164-168 | the result view's banner, which rounds first, congratulates iff there are questions and the score reaches 49.5% |
| QuizPage.BannerPassesWithoutAward | src/pages/QuizPage.tsx:97-168 | at 99 of 200 the banner congratulates while the submit adds no points |
| QuizPage.QuizSession.constructor | src/pages/QuizPage.tsx:24-38 | intro, first question, no answers, the user's points (0 without a user) |
| QuizPage.QuizSession.Start | src/pages/QuizPage.tsx:154 | the start button shows the questions and changes nothing else |
| QuizPage.QuizSession.SelectOption | src/pages/QuizPage.tsx:84-89 | the current question's selection becomes the one option picked |
| QuizPage.QuizSession.Next | src/pages/QuizPage.tsx:91-106 | next question below the last; on the last, the result view, with the points added and the popup shown exactly when points are earned |
| QuizPage.QuizSession.Previous | src/pages/QuizPage.tsx:108-112 | one back above the first question, otherwise unchanged; the index stays on a question |
| QuizPage.QuizSession.TryAgain | src/pages/QuizPage.tsx:237-241 | back to the intro, on the first question, with no answers |
| PaymentModal.CleanDigits | src/components/courses/PaymentModal.tsx:123 | stripping whitespace and then non-digits keeps exactly the digits |
| PaymentModal.CardDigits | src/components/courses/PaymentModal.tsx:124 | the match is the first min(n, 16) digits once there are n ≥ 4, and empty otherwise |
| PaymentModal.FormatCardNumber | src/components/courses/PaymentModal.tsx:122-135 | the loop's result is the grouped card digits, or the input itself with fewer than four digits |
| PaymentModal.JoinChunks | src/components/courses/PaymentModal.tsx:127-132 | joining the four-character pieces with spaces gives the grouped string |
| PaymentModal.CardNumberFewDigits | src/components/courses/PaymentModal.tsx:131-134 | with fewer than four digits the input comes back unchanged, other characters included |
| PaymentModal.GroupedShape | src/components/courses/PaymentModal.tsx:127-132 | a space at every fifth position, the digits in order between, length n + (n−1)/4 |
| PaymentModal.GroupedDigits | src/components/courses/PaymentModal.tsx:123-132 | removing the spaces of a grouped digit string gives the digits back |
| PaymentModal.CardNumberShape | src/components/courses/PaymentModal.tsx:123-132 | at most 19 characters; without its spaces it is the prefix of the input's digits that was matched |
| PaymentModal.CardNumberIdempotent | src/components/courses/PaymentModal.tsx:122-135 | formatting a formatted number changes nothing |
| PaymentModal.ExpiryShape | src/components/courses/PaymentModal.tsx:137-143 | at most 5 characters; its digits are the first min(n, 4) input digits; '/' third once two digits are typed |
| PaymentModal.SlashedDigits | src/components/courses/PaymentModal.tsx:139-141 | the slash adds no digit: the digits of `a/b` are those of `a` then `b` |
| PaymentModal.ExpiryIdempotent | src/components/courses/PaymentModal.tsx:137-143 | formatting a formatted expiry changes nothing |
| PaymentModal.ExpiryAcceptsAnyMonth | src/components/courses/PaymentModal.tsx:139-141 | there is no month check: "1399" becomes "13/99" |
| PaymentModal.Cvv | src/components/courses/PaymentModal.tsx:212 | the first three digits of the input, or all of them when fewer |
| PaymentModal.CvvIdempotent | src/components/courses/PaymentModal.tsx:212 | sanitising a sanitised CVV changes nothing |
| UiTypes.LessonIcon | src/pages/LessonPlayerPage.tsx:26-34 | each of the four lesson types has its fixed icon; any other type gets the page's fallback |
| UiTypes.ListedIconsDistinct | src/pages/CourseDetailPage.tsx:29-37 | the four icons are pairwise different |
| Catalog.FindCourse | src/pages/LessonPlayerPage.tsx:44 | `find` by id: none iff no course has the id, otherwise the first course with it |
| Catalog.CourseLessons | src/pages/LessonPlayerPage.tsx:45 | exactly the course's lessons, in catalogue order |
| Catalog.FindEnrollment | src/pages/CourseDetailPage.tsx:47-50 | no user matches nothing; otherwise none iff no enrollment of that user in that course, and the first such enrollment when there is one |
| LessonPlayer.WithCompleted | src/pages/LessonPlayerPage.tsx:78-82 | the id is added once, at the end, only when absent; the list stays duplicate-free |
| LessonPlayer.WithCompletedIdempotent | src/pages/LessonPlayerPage.tsx:78-82 | marking the same lesson twice changes nothing more |
| LessonPlayer.NextIndex | src/pages/LessonPlayerPage.tsx:86-88 | one further below the last lesson, otherwise unchanged; stays in range |
| LessonPlayer.PreviousIndex | src/pages/LessonPlayerPage.tsx:91-95 | one back above 0, otherwise unchanged; never negative |
| LessonPlayer.PreviousAfterNext | src/pages/LessonPlayerPage.tsx:84-95 | back after forward from below the last lesson returns to the same lesson |
| LessonPlayer.ProgressPercent | src/pages/LessonPlayerPage.tsx:76 | non-negative; at most 100 while no more ids than lessons; 100 when equal; 0 with none |
| LessonPlayer.FractionBounds | src/pages/LessonPlayerPage.tsx:76 | `c / n * 100` is non-negative, at most 100 when c ≤ n, 100 when equal, 0 when c = 0 |
| LessonPlayer.DistinctIdsFit | src/pages/LessonPlayerPage.tsx:76 | distinct ids of lessons of the course are no more than its lessons |
| LessonPlayer.ProgressRoundsHalfUp | src/pages/LessonPlayerPage.tsx:76 | one lesson of eight shows 13% |
| LessonPlayer.ProgressCountsForeignIds | src/pages/LessonPlayerPage.tsx:42-76 | the initial ids are counted whatever the course: a one-lesson course shows 200% |
| LessonPlayer.ProgressBounded | src/pages/LessonPlayerPage.tsx:76 | distinct ids of the course's lessons give a progress within [0, 100] |
| LessonPlayer.IndexOfLesson | src/pages/LessonPlayerPage.tsx:53 | the first index with the id, none iff no lesson has it |
| LessonPlayer.PinnedIndex | src/pages/LessonPlayerPage.tsx:51-59 | the effect's target: the navigation-state lesson's position, none iff the state holds no non-empty id found among the lessons |
| LessonPlayer.PressesNeverMove | src/pages/LessonPlayerPage.tsx:45-59 | as written, the effect re-runs after every press, so once the navigation state names a lesson no sequence of presses leaves it |
| LessonPlayer.NextFromThirdLesson | src/pages/LessonPlayerPage.tsx:45-95 | opened on the third of four lessons, Next leaves the third on screen as written; the intended player shows the fourth |
| LessonPlayer.IntendedNextsAdvance | src/pages/LessonPlayerPage.tsx:84-89 | with the effect run once after mount, k presses of Next move k lessons on from the lesson opened, stopping at the last |
| LessonPlayer.Player.constructor | src/pages/LessonPlayerPage.tsx:41-59 | the course's lessons, the initial completed ids `["l1", "l2"]`, and the first lesson until the mount's run of the effect moves to the navigation-state lesson |
| LessonPlayer.Player.Progress | src/pages/LessonPlayerPage.tsx:76 | the progress of the completed list over the course's lessons |
| LessonPlayer.Player.NavigationEffect | src/pages/LessonPlayerPage.tsx:51-59 | jumps to the lesson named by the navigation state when it is found; otherwise the index is unchanged |
| LessonPlayer.Player.MarkComplete | src/pages/LessonPlayerPage.tsx:78-82 | the lesson on screen joins the completed list; the index stays |
| LessonPlayer.Player.GoToNext | src/pages/LessonPlayerPage.tsx:84-89 | the lesson on screen is marked complete first, the index advances unless at the last, and the effect's re-run then moves it back to the navigation-state lesson when there is one |
| LessonPlayer.Player.GoToPrevious | src/pages/LessonPlayerPage.tsx:91-95 | one back unless at the first, then the effect's re-run moves it back to the navigation-state lesson when there is one; the completed list is untouched |
| Durations.ParseFormatDuration | src/components/courses/CourseCard.tsx:17-21 | every "Hh Mm" / "Mm" label reads back as the minutes it was made from |
| Durations.FormatDurationHasHours | src/pages/CourseDetailPage.tsx:63-67 | the label names hours exactly from 60 minutes on |
| Durations.FormatClockUniform | src/pages/backoffice/BackofficeCoursesPage.tsx:44-48 | both branches are hours, ':' and the minutes padded to two digits ("0:MM" under an hour) |
| Durations.ParseFormatClock | src/pages/backoffice/BackofficeCoursesPage.tsx:44-48 | every "H:MM" label reads back as its minutes |
| Durations.PaddedMinutes | src/pages/backoffice/BackofficeCoursesPage.tsx:47 | minutes below 60 pad to two digits that read back as the minutes |
| CourseDetailPage.CompletedLessonsCount | src/pages/CourseDetailPage.tsx:70-72 | 0 without an enrollment; otherwise the ceiling of progress/100 × lessons |
| CourseDetailPage.CompletedCountBounds | src/pages/CourseDetailPage.tsx:70-72 | for progress in [0, 100] the count lies in [0, n], is 0 at 0% and n at 100% |
| CourseDetailPage.CompletedCountRoundsUp | src/pages/CourseDetailPage.tsx:71 | 1% of ten lessons counts one lesson done |
| CourseDetailPage.IncompleteLessonsCount | src/pages/CourseDetailPage.tsx:74 | completed plus remaining is the number of lessons |
| CourseDetailPage.FilteredLessons | src/pages/CourseDetailPage.tsx:76-78 | exactly the lessons whose title contains the search ignoring case, in order |
| CourseDetailPage.EmptySearchKeepsAll | src/pages/CourseDetailPage.tsx:76-78 | an empty search shows every lesson |
| CourseDetailPage.Rows | src/pages/CourseDetailPage.tsx:287-290 | a row is completed iff its index is below the count, locked iff not enrolled and not completed, with the book icon as fallback |
| CourseDetailPage.LockedIffNotEnrolled | src/pages/CourseDetailPage.tsx:289-343 | every row is locked iff there is no enrollment; without one no row is completed |
| CourseDetailPage.CompletedRowsArePrefix | src/pages/CourseDetailPage.tsx:289 | a completed row has only completed rows before it |
| CourseDetailPage.CompletionFollowsPosition | src/pages/CourseDetailPage.tsx:289 | completion is by position in the list, not by lesson |
| CourseDetailPage.LessonClick | src/pages/CourseDetailPage.tsx:80-84 | a locked row does nothing; otherwise it opens `/course/{id}/learn` on that lesson |
| CourseDetailPage.ChooseActionCases | src/pages/CourseDetailPage.tsx:149-190 | enrolled: Start iff yet to start, else Continue; not enrolled: Buy iff payment with a truthy price, Invitation Only iff invitation, then Enroll Free iff signed in, else Sign In |
| CourseDetailPage.UnpricedPaymentIsFree | src/pages/CourseDetailPage.tsx:160-185 | a payment course with no or a zero price is enrolled for free |
| CourseDetailPage.DetailPage | src/pages/CourseDetailPage.tsx:45-61 | "Course not found" iff no course has the id; otherwise the course with the rows of its lessons |
| CourseDetailPage.Ceil | src/pages/CourseDetailPage.tsx:71 | `Math.ceil`: the least integer not below x |
| CourseCard.ActionButtonCases | src/components/courses/CourseCard.tsx:23-77 | Buy iff not enrolled and payment with a truthy price; Invitation Only iff invitation; Join otherwise (a zero price included); enrolled: Review iff completed, Start iff yet to start, Continue otherwise, with their links |
| CourseCard.FreePaymentCourseJoins | src/components/courses/CourseCard.tsx:24-45 | a payment course with no or a zero price offers Join |
| CourseCard.CardAgreesWithDetailPage | src/components/courses/CourseCard.tsx:23-77 | the card and the course page offer the same action, except that a completed enrollment is Review on the card and Continue on the page |
| CourseCard.RatingBadge | src/components/courses/CourseCard.tsx:88-95 | shown iff the course is published |
| CourseCard.PriceBadge | src/components/courses/CourseCard.tsx:96-102 | shown iff payment with a truthy price |
| CourseCard.PriceBadgeIffBuy | src/components/courses/CourseCard.tsx:24-102 | the price badge is shown exactly when the button is Buy |
| CourseCard.ShownTags | src/components/courses/CourseCard.tsx:110 | the first three tags |
| CourseCard.ProgressBar | src/components/courses/CourseCard.tsx:141-149 | shown iff asked for and enrolled, with the enrollment's progress |
| CoursesPage.FilteredCoursesContents | src/pages/CoursesPage.tsx:22-36 | exactly the published courses visible to the visitor, matching a non-empty search and carrying the tag unless "All", in order |
| CoursesPage.NoFilterListsAllPublished | src/pages/CoursesPage.tsx:22-36 | signed in, with no search and "All", every published course is listed |
| CoursesPage.SigningInHidesNothing | src/pages/CoursesPage.tsx:27 | signing in never hides a course |
| CoursesPage.CardTarget | src/pages/CoursesPage.tsx:115-121 | the course page when signed in, otherwise the login page redirecting to it |
| CoursesPage.CardTargetEndsWithCourse | src/pages/CoursesPage.tsx:115-121 | either way the path ends with the course page |
| MyCoursesPage.JoinKeepsEnrollmentsWithCourse | src/pages/MyCoursesPage.tsx:17-23 | the join keeps, in order, exactly the enrollments whose course exists |
| MyCoursesPage.EnrolledCoursesContents | src/pages/MyCoursesPage.tsx:17-23 | the user's enrollments with an existing course, once each, in order, each with its course; none without a user |
| MyCoursesPage.FilterByStatusContents | src/pages/MyCoursesPage.tsx:25-44 | exactly the items of the tab's status (any for "all" or none) matching the search on title, description or a tag, in order |
| MyCoursesPage.AllTabShowsEverything | src/pages/MyCoursesPage.tsx:28-31 | the all tab with no search shows every enrolled course |
| MyCoursesPage.StatsPartition | src/pages/MyCoursesPage.tsx:46-51 | the three status counters add up to the total |
| MyCoursesPage.StatsMatchTabs | src/pages/MyCoursesPage.tsx:46-51 | each counter is the length of its tab's list |
| BackofficeCourses.NewCourseIsEmptyDraft | src/pages/backoffice/BackofficeCoursesPage.tsx:51-71 | the new course is an open, public draft with the entered title, zero counters, the "New" tag and an id made from the time stamp |
| BackofficeCourses.Search | src/pages/backoffice/BackofficeCoursesPage.tsx:40-42 | exactly the courses whose title contains the search ignoring case, in order |
| BackofficeCourses.Deleted | src/pages/backoffice/BackofficeCoursesPage.tsx:83-86 | every course with the id is removed; the rest keep their order |
| BackofficeCourses.DeleteIdempotent | src/pages/backoffice/BackofficeCoursesPage.tsx:83-86 | deleting twice is deleting once |
| BackofficeCourses.DeleteAbsent | src/pages/backoffice/BackofficeCoursesPage.tsx:83-86 | deleting an unknown id changes nothing |
| BackofficeCourses.DeleteUndoesCreate | src/pages/backoffice/BackofficeCoursesPage.tsx:72-85 | deleting a course just created with a new id restores the list |
| BackofficeCourses.CoursesBoard.constructor | src/pages/backoffice/BackofficeCoursesPage.tsx:33-38 | the initial list, an empty search and a closed dialog |
| BackofficeCourses.CoursesBoard.CreateCourse | src/pages/backoffice/BackofficeCoursesPage.tsx:50-76 | the new course goes first, the others keep their order, and the dialog closes with its name cleared |
| BackofficeCourses.CoursesBoard.Delete | src/pages/backoffice/BackofficeCoursesPage.tsx:83-86 | the list becomes `Deleted(list, id)`; nothing else changes |
| BackofficeCourses.CreatedCourseShownFirst | src/pages/backoffice/BackofficeCoursesPage.tsx:72-323 | a created course whose title matches the search is shown first, so the empty state is not shown |
| Routes.ProtectedRouteCases | src/App.tsx:34-46 | to /login iff signed out; to / iff signed in with an unlisted role; the page otherwise |
| Routes.AuthRoute | src/App.tsx:49-57 | signed-in users go to /my-courses; others see the page |
| Routes.Resolve | src/App.tsx:58-127 | the route table: a redirect goes only to /login, / or /my-courses; a signed-out visitor is only ever redirected to /login; /my-courses is reached by redirect only from /login or /register when signed in; / only from a backoffice path; the empty path is the home page |
| Routes.ResolveIgnoresCase | src/App.tsx:58-127 | paths that differ only in the case of ASCII letters resolve alike, as react-router matches without `caseSensitive` |
| Routes.CapitalisedCoursesPath | src/App.tsx:68 | "/Courses" shows the course list |
| Routes.RegisterShowsLoginPage | src/App.tsx:63-64 | /register resolves as /login does |
| Routes.SignedInSkipsLogin | src/App.tsx:52-64 | signed-in users never see the login page |
| Routes.RoleInBackofficeRoles | src/App.tsx:111 | the backoffice role list holds exactly admin and instructor |
| Routes.BackofficeNeedsStaff | src/App.tsx:108-121 | every backoffice page is shown exactly to admins and instructors; learners and guests go home; signed-out visitors go to /login |
| Routes.LearnerPagesNeedSignIn | src/App.tsx:70-97 | my courses and the lesson player need only a signed-in user; the course page is public |
| BadgesPage.WithStatus | src/pages/BadgesPage.tsx:159-162 | each badge is unlocked iff its condition holds for the figures |
| BadgesPage.CountersSplitBadges | src/pages/BadgesPage.tsx:164-181 | earned plus to-unlock is 15; to-unlock counts the locked badges |
| BadgesPage.EarlyBirdAlwaysUnlocked | src/pages/BadgesPage.tsx:118 | Early Bird is unlocked whatever the figures |
| BadgesPage.StreakBadgesNested | src/pages/BadgesPage.tsx:46-154 | streaks of 3, 7, 14 and 30 unlock nested badges |
| BadgesPage.UnlockedCountMonotone | src/pages/BadgesPage.tsx:20-164 | higher figures never earn fewer badges |
| BadgesPage.FixedStatsUnlockTen | src/pages/BadgesPage.tsx:12-181 | with the page's fixed figures 10 badges are earned and 5 remain |
| BackofficeInstructors.Filtered | src/pages/backoffice/BackofficeInstructorsPage.tsx:133-139 | exactly the instructors whose name, email or specialization contains the search ignoring case and whose status passes the filter, in order |
| BackofficeInstructors.NoFilterListsEveryone | src/pages/backoffice/BackofficeInstructorsPage.tsx:133-139 | no search and "all" list everyone |
| BackofficeInstructors.StatusColorsDistinct | src/pages/backoffice/BackofficeInstructorsPage.tsx:141-148 | active, pending and suspended have three different colours; any other status gets the muted default |
| BackofficeInstructors.ActionsByStatus | src/pages/backoffice/BackofficeInstructorsPage.tsx:338-347 | pending: both actions; active: Suspend only; suspended: neither |
| BackofficeInstructors.HandleApprove | src/pages/backoffice/BackofficeInstructorsPage.tsx:150-152 | only a success toast; it modifies nothing |
| BackofficeInstructors.HandleSuspend | src/pages/backoffice/BackofficeInstructorsPage.tsx:154-156 | only an error toast; it modifies nothing |
| BackofficeInstructors.Toggled | src/pages/backoffice/BackofficeInstructorsPage.tsx:295 | clicking the open row closes it; clicking another makes it the only open row |
| BackofficeInstructors.ToggleTwice | src/pages/backoffice/BackofficeInstructorsPage.tsx:295 | two clicks on a row leave it closed, or open when it was open before |
| BackofficeInstructors.SortByRating | src/pages/backoffice/BackofficeInstructorsPage.tsx:430 | the array in place becomes a permutation of itself with ratings descending |
| BackofficeInstructors.Insert | src/pages/backoffice/BackofficeInstructorsPage.tsx:430 | one insertion step extends the sorted prefix and permutes the array |
| BackofficeInstructors.TopPerformers | src/pages/backoffice/BackofficeInstructorsPage.tsx:430 | the shared array ends sorted and permuted; the panel shows its first three, the first rated at least as high as anyone |
| BackofficeInstructors.DirectoryView.ClickRow | src/pages/backoffice/BackofficeInstructorsPage.tsx:295 | the expanded row toggles; the filters are untouched |
| BackofficeInstructors.DirectoryView.constructor | src/pages/backoffice/BackofficeInstructorsPage.tsx:128-131 | an empty search, the "all" filter and no open row |
| CourseEditor.Appended | src/pages/backoffice/CourseEditorPage.tsx:93-107 | one lesson is appended with order = new length, the entered title and type, 10 minutes and an empty description; earlier lessons are unchanged |
| CourseEditor.AppendKeepsOrders | src/pages/backoffice/CourseEditorPage.tsx:102-107 | orders 1..n stay consecutive after an add |
| CourseEditor.EditorFallbackIsDocumentIcon | src/pages/backoffice/CourseEditorPage.tsx:42-50 | an unknown type shows the document icon here, unlike the course page's book |
| CourseEditor.Editor.constructor | src/pages/backoffice/CourseEditorPage.tsx:54-65 | the course's lessons, its published flag and its website (empty when missing) |
| CourseEditor.Editor.AddLesson | src/pages/backoffice/CourseEditorPage.tsx:92-112 | the entered lesson goes last; the dialog closes, the title is cleared and the type is back to video |
| CourseEditor.EditorPage | src/pages/backoffice/CourseEditorPage.tsx:120-131 | "Course not found" iff no course has the id |
| Text.Trim | src/pages/backoffice/CourseEditorPage.tsx:320 | the trimmed title is empty iff the title is all whitespace, which disables Add Lesson |
| Text.BeforeFirst | src/contexts/AuthContext.tsx:51 | `split('@')[0]`: the longest prefix without '@' |
| Text.KeepDigits | src/components/courses/PaymentModal.tsx:124 | only digits remain, and never more characters than the input |

## Left out

- Transport and framework plumbing are not modelled:
  - HTTP and FastAPI dependency injection;
  - sessions, and `commit` / `refresh` / `rollback` / `flush`: each endpoint is one atomic method on the store;
  - the 500 path when a commit raises.
- JWT signing and decoding, and password hashing, are opaque.
  - A token is a value carrying its optional subject.
  - `HashPassword` wraps the password, so the model's hash is injective where bcrypt is only collision-resistant. The lemmas state their facts through `VerifyPassword`, and the one law they rely on is `VerifyPassword(p, HashPassword(p))`.
- Time is an input: `datetime.utcnow()` is a `now` parameter, and `Date.now()` and `new Date().toISOString()` are parameters too. The two `new Date()` calls of `handleCreateCourse` are modelled as one value.
- Concurrency is not modelled: the lost-update race on `progress_percentage` and transaction isolation.
- Lessons.Percentage: `int((c / t) * 100)` is computed in floating point and can fall one below the exact floor; for example, 29 of 100 gives 28. The model uses the exact floor.
- CourseDetailPage.CompletedLessonsCount: `Math.ceil((progress / 100) * n)` is computed in floating point and can land one above the exact ceiling; for example, 7% of 100 lessons gives 8. The model uses the exact ceiling.
- Courses.CourseRating: Python's `round` on a binary float can differ from exact half-to-even rounding on a decimal tie. The same holds for `Reporting.AverageProgress` and for `Math.round` in `LessonPlayer.ProgressPercent`.
- Courses.MatchesQuery: ILIKE's `%` and `_` inside `q` are wildcards in the source. The model matches them literally.
- Case folding for ILIKE and `toLowerCase` covers ASCII letters only.
- The order of query results is table order. The model does not capture the database's unspecified row order for `first()` and `all()`.
- Enrollments.FirstCompletedAt: nulls sort first, as SQLite (the default database) does in ascending order. PostgreSQL, the other database the connection code supports, puts nulls last in ascending order by default; with PostgreSQL a completed row with a null time would give the earliest non-null time rather than null.
- The uniqueness of enrollment (user, course), progress (enrollment, lesson) and review (user, course) is not a table constraint in the source. It is an invariant (`DbModels.WellFormed`) that the routers' lookup-before-insert preserves, and the lemmas that need it assume it.
- `get_course_lessons` (backend/app/routers/lessons.py:98-111) returns a name that is never defined, so it cannot succeed past its 404 check. It is not modelled.
- Reporting.InstructorReportCorrected: the unused `func.cast` column is dropped, and the `case` sums are counts by status.
- Routes.Resolve: the route table imports two modules under the one name `SettingsPage` (src/App.tsx:22 and src/App.tsx:29). That is an ES-module syntax error, so the table as written does not load; were it accepted, `/settings` and `/backoffice/settings` would show the same page. The model gives each route the page its import path names.
- Routes.Resolve: matching ignores the case of ASCII letters only, as react-router's case-insensitive regular expressions do for those letters; their case folding of other letters is not modelled. Percent-decoding and trailing slashes are left to the split into segments.
- DbModels.DeleteCourse: the foreign keys `enrollments.course_id`, `reviews.course_id` and the removed lessons' `lesson_progress.lesson_id` are not set to NULL, as the ORM does for relationships without a cascade. They keep the deleted ids. Ids are never reused, so no modelled lookup or join tells the two apart; a NULL column is not representable in the model.
- Lessons.DeleteLessonOutcome: the deleted lesson's progress rows keep its id rather than the NULL the ORM writes into `lesson_id`, for the same reason.
- Courses.ApplyCourseUpdate: an update payload holds only non-null values, and enum fields only their listed values. The source also accepts an explicit `null` (for example `{"price": null}`), stores it, and then answers 500 when the response model refuses it; later reads of that course fail the same way. It also accepts a level or status string outside the enum, which the commit refuses with a 500. Neither path is modelled.
- Lessons.ApplyLessonUpdate: the same holds for an explicit `null` in `type`, `duration`, `order` or `is_free_preview`, and for a lesson type outside the enum. Neither path is modelled.
- Auth.RegisterSpec: emails are `EmailStr` values, which pydantic validates and normalises (the domain lower-cased) before the router runs. The model's email strings stand for that normalised form, so "a@X.com" after "a@x.com" is a taken email. The 422 for a malformed address is not modelled.
- Auth.Login: the same normalised form of the email is compared.
- The `created_at` and `updated_at` columns of courses and users (backend/app/models/db_models.py:48-49 and 70-71) are not modelled, nor the `onupdate` refresh of a course's `updated_at` by `update_course` and `publish_course`. The course and user responses that return them carry the other fields only.
- BackofficeCourses.CoursesBoard.CreateCourse: `handleCreateCourse` is unreachable in the source. No element calls it, no dialog is rendered, and `setNewCourseName` is only ever called with `''`. The model states what the handler would do.
- `get_course` eagerly loads the lessons. The model gives their count directly, rather than through an unloaded-relationship state.
- Subscript chains across relationships that the ORM lazily loads, for example `enrollment.user`, are table lookups. A missing row gives the 500 the source would raise.
- PaymentModal: only the second branch of the merge-conflicted file is modelled (the formatters and the CVV field). The first branch's `handlePay` is a timer.
- Timers, toasts, animation, confetti and all rendering are not modelled. Pages whose only content is presentation or mock data are left out.
- QuizPage.QuizSession.constructor: a quiz with no questions has no current question on the page. The model requires at least one question.
- Non-integer reward points are not modelled.
- QuizPage: the "Quiz not found" view is not modelled.
- BackofficeInstructors.SortByRating: insertion sort, which is stable like the engines' `Array.prototype.sort`. Stability is not stated.
- BackofficeInstructors.TopPerformers: the sort mutates the module-level array, which changes the order of later renders of the list. The model has the array as a parameter and does not follow it across renders.
- Mock data tables (courses, lessons, enrollments, quizzes) are parameters, except the fixed badge figures, the badge list and the instructor list, which are constants.
- BadgesPage: badge icons, colours and descriptions are not modelled.

## Findings

| source | as written | input that shows it | evidently intended | confidence | as-written member | corrected member |
|---|---|---|---|---|---|---|
| backend/app/routers/reporting.py:33-39 | `func.cast(…, 1)` and `func.case([(…, 1)], else_=0)` are generic SQL function calls: the list argument, the `else_` keyword and a `cast` without `AS type` make the query fail before it runs | a staff caller who authors one course: the first loop pass raises, and the answer is 500 | SQLAlchemy's `case` construct and no `cast` column: one report per course with its counts | not executed | Reporting.InstructorReport | Reporting.InstructorReportCorrected |
| src/pages/LessonPlayerPage.tsx:45-59 | the effect depends on `lessons`, which each render's `filter` rebuilds, so it runs after every render and resets the index to the navigation-state lesson | opened from the course page on the third of four lessons, Next: the third lesson stays on screen | the effect runs once, after mount, so Next and Previous move through the lessons | not executed | LessonPlayer.NextFromThirdLesson | LessonPlayer.IntendedNextsAdvance |
| src/contexts/AuthContext.tsx:37-44 | below the first threshold both the current and the next badge are Newbie, so `range` is 0 and `(progress / range) * 100` rounds to `-Infinity` | 10 points: current = next = Newbie (20), progress = −10, range = 0 | progress measured from 0 points below the first badge, i.e. 5 per point (10 points → 50) | not executed | AuthContext.ProgressAsWrittenBelowNewbie | AuthContext.ProgressToNextBadgeValue |
