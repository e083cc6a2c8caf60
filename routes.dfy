/** The route table of the single-page app and its two guards: the
    protected route (sign-in, optionally a role) and the auth route (the
    login page sends signed-in users on). */
module Routes {
  import opened Wrappers
  import opened UiTypes

  datatype Page =
    | LoginPage | HomePage | CoursesPage | CourseDetailPage | MyCoursesPage | SettingsPage
    | LessonPlayerPage | QuizPage
    | BackofficeDashboard | BackofficeCoursesPage | CourseEditorPage | LearnersPlaceholder
    | BackofficeReportsPage | BackofficeSettingsPage
    | NotFoundPage

  /** What a route shows: a redirect (always with `replace`) or a page. */
  datatype Outcome = Redirect(to: string) | Render(page: Page)

  /** `ProtectedRoute`: to the login page when signed out; to the home page
      when roles are required and the user's is not among them; the page
      otherwise. */
  function ProtectedRoute(user: Option<UiUser>, requiredRoles: Option<seq<string>>, page: Page): Outcome
  {
    if user.None? then Redirect("/login")
    else if requiredRoles.Some? && user.value.role.Value() !in requiredRoles.value then Redirect("/")
    else Render(page)
  }

  /** The three outcomes of the protected route. */
  lemma ProtectedRouteCases(user: Option<UiUser>, requiredRoles: Option<seq<string>>, page: Page)
    ensures ProtectedRoute(user, requiredRoles, page) == Redirect("/login") <==> user.None?
    ensures ProtectedRoute(user, requiredRoles, page) == Redirect("/") <==>
      user.Some? && requiredRoles.Some? && user.value.role.Value() !in requiredRoles.value
    ensures ProtectedRoute(user, requiredRoles, page) == Render(page) <==>
      user.Some? && (requiredRoles.Some? ==> user.value.role.Value() in requiredRoles.value)
  {
  }

  /** `AuthRoute`: signed-in users go to their courses. */
  function AuthRoute(user: Option<UiUser>, page: Page): (o: Outcome)
    ensures o == Redirect("/my-courses") <==> user.Some?
    ensures o == Render(page) <==> user.None?
  {
    if user.Some? then Redirect("/my-courses") else Render(page)
  }

  const BackofficeRoles: seq<string> := ["admin", "instructor"]

  /** ASCII upper-case letters to lower case, other characters unchanged. */
  function LowerChar(c: char): (l: char)
    ensures 'A' <= c <= 'Z' ==> l as int == c as int + 32
    ensures !('A' <= c <= 'Z') ==> l == c
    ensures !('A' <= l <= 'Z')
  {
    if 'A' <= c <= 'Z' then (c as int + 32) as char else c
  }

  /** A path segment matches a route's segment regardless of ASCII case:
      react-router compiles each route path into a case-insensitive regular
      expression unless the route says `caseSensitive`, and none here does. */
  predicate SegmentIs(seg: string, name: string)
  {
    |seg| == |name| && forall i :: 0 <= i < |seg| ==> LowerChar(seg[i]) == LowerChar(name[i])
  }

  /** Two paths that differ only in the case of their letters. */
  predicate SamePathIgnoringCase(p: seq<string>, q: seq<string>)
  {
    |p| == |q| && forall i :: 0 <= i < |p| ==> SegmentIs(p[i], q[i])
  }

  /** The page a path under `/backoffice` names. */
  function BackofficePage(rest: seq<string>): Page
  {
    if rest == [] then BackofficeDashboard
    else if |rest| == 1 && SegmentIs(rest[0], "courses") then BackofficeCoursesPage
    else if |rest| == 2 && SegmentIs(rest[0], "courses") then CourseEditorPage
    else if |rest| == 1 && SegmentIs(rest[0], "learners") then LearnersPlaceholder
    else if |rest| == 1 && SegmentIs(rest[0], "reports") then BackofficeReportsPage
    else if |rest| == 1 && SegmentIs(rest[0], "settings") then BackofficeSettingsPage
    else NotFoundPage
  }

  /** The route table, on the path's segments ("/" is no segment). Only the
      two auth routes and the guards redirect; a signed-out visitor is only
      ever sent to the login page. */
  function Resolve(path: seq<string>, user: Option<UiUser>): (o: Outcome)
    ensures o.Redirect? ==> o.to == "/login" || o.to == "/" || o.to == "/my-courses"
    ensures user.None? && o.Redirect? ==> o.to == "/login"
    ensures o == Redirect("/my-courses") ==>
      user.Some? && |path| == 1 && (SegmentIs(path[0], "login") || SegmentIs(path[0], "register"))
    ensures o == Redirect("/") ==> |path| >= 1 && SegmentIs(path[0], "backoffice")
    ensures path == [] ==> o == Render(HomePage)
  {
    if |path| == 1 && (SegmentIs(path[0], "login") || SegmentIs(path[0], "register")) then AuthRoute(user, LoginPage)
    else if path == [] then Render(HomePage)
    else if |path| == 1 && SegmentIs(path[0], "courses") then Render(CoursesPage)
    else if |path| == 2 && SegmentIs(path[0], "course") then Render(CourseDetailPage)
    else if |path| == 1 && SegmentIs(path[0], "my-courses") then ProtectedRoute(user, None, MyCoursesPage)
    else if |path| == 1 && SegmentIs(path[0], "settings") then ProtectedRoute(user, None, SettingsPage)
    else if |path| == 3 && SegmentIs(path[0], "course") && SegmentIs(path[2], "learn") then
      ProtectedRoute(user, None, LessonPlayerPage)
    else if |path| == 4 && SegmentIs(path[0], "course") && SegmentIs(path[2], "quiz") then
      ProtectedRoute(user, None, QuizPage)
    else if |path| >= 1 && SegmentIs(path[0], "backoffice") && BackofficePage(path[1..]) != NotFoundPage then
      ProtectedRoute(user, Some(BackofficeRoles), BackofficePage(path[1..]))
    else Render(NotFoundPage)
  }

  /** Matching one segment is the same for two segments equal up to case. */
  lemma SegmentIsIgnoresCase(a: string, b: string, name: string)
    requires SegmentIs(a, b)
    ensures SegmentIs(a, name) <==> SegmentIs(b, name)
  {
    if SegmentIs(b, name) {
      forall i | 0 <= i < |a| ensures LowerChar(a[i]) == LowerChar(name[i]) {
        assert LowerChar(a[i]) == LowerChar(b[i]);
      }
    }
  }

  lemma BackofficePageIgnoresCase(p: seq<string>, q: seq<string>)
    requires SamePathIgnoringCase(p, q)
    ensures BackofficePage(p) == BackofficePage(q)
  {
    if |p| >= 1 {
      assert SegmentIs(p[0], q[0]);
      SegmentIsIgnoresCase(p[0], q[0], "courses");
      SegmentIsIgnoresCase(p[0], q[0], "learners");
      SegmentIsIgnoresCase(p[0], q[0], "reports");
      SegmentIsIgnoresCase(p[0], q[0], "settings");
    }
  }

  /** The route table does not see the case of a path's letters. */
  lemma ResolveIgnoresCase(p: seq<string>, q: seq<string>, user: Option<UiUser>)
    requires SamePathIgnoringCase(p, q)
    ensures Resolve(p, user) == Resolve(q, user)
  {
    if |p| >= 1 {
      assert SegmentIs(p[0], q[0]);
      SegmentIsIgnoresCase(p[0], q[0], "login");
      SegmentIsIgnoresCase(p[0], q[0], "register");
      SegmentIsIgnoresCase(p[0], q[0], "courses");
      SegmentIsIgnoresCase(p[0], q[0], "course");
      SegmentIsIgnoresCase(p[0], q[0], "my-courses");
      SegmentIsIgnoresCase(p[0], q[0], "settings");
      SegmentIsIgnoresCase(p[0], q[0], "backoffice");
      BackofficePageIgnoresCase(p[1..], q[1..]);
    }
    if |p| >= 3 {
      assert SegmentIs(p[2], q[2]);
      SegmentIsIgnoresCase(p[2], q[2], "learn");
      SegmentIsIgnoresCase(p[2], q[2], "quiz");
    }
  }

  /** "/Courses" shows the course list, as "/courses" does. */
  lemma CapitalisedCoursesPath(user: Option<UiUser>)
    ensures Resolve(["Courses"], user) == Render(CoursesPage)
  {
    assert SegmentIs("Courses", "courses");
  }

  /** `/register` shows the login page, as `/login` does. */
  lemma RegisterShowsLoginPage(user: Option<UiUser>)
    ensures Resolve(["register"], user) == Resolve(["login"], user)
    ensures user.None? ==> Resolve(["register"], user) == Render(LoginPage)
  {
  }

  /** Signed-in users never see the login page. */
  lemma SignedInSkipsLogin(user: UiUser)
    ensures Resolve(["login"], Some(user)) == Redirect("/my-courses")
    ensures Resolve(["register"], Some(user)) == Redirect("/my-courses")
  {
  }

  lemma RoleInBackofficeRoles(r: Role)
    ensures r.Value() in BackofficeRoles <==> r == Admin || r == Instructor
  {
    assert Learner.Value() != "admin" && Learner.Value() != "instructor";
    assert Guest.Value() != "admin" && Guest.Value() != "instructor";
  }

  /** Every backoffice page is shown exactly to admins and instructors;
      others are sent home, and signed-out visitors to the login page. */
  lemma BackofficeNeedsStaff(rest: seq<string>, user: Option<UiUser>)
    requires BackofficePage(rest) != NotFoundPage
    ensures user.None? ==> Resolve(["backoffice"] + rest, user) == Redirect("/login")
    ensures user.Some? && (user.value.role == Admin || user.value.role == Instructor) ==>
      Resolve(["backoffice"] + rest, user) == Render(BackofficePage(rest))
    ensures user.Some? && (user.value.role == Learner || user.value.role == Guest) ==>
      Resolve(["backoffice"] + rest, user) == Redirect("/")
  {
    var path := ["backoffice"] + rest;
    assert path[1..] == rest && path[0] == "backoffice";
    assert !SegmentIs("backoffice", "my-courses") by {
      assert LowerChar("backoffice"[0]) != LowerChar("my-courses"[0]);
    }
    if user.Some? {
      RoleInBackofficeRoles(user.value.role);
    }
  }

  /** The learner pages need only a signed-in user, whatever the role. */
  lemma LearnerPagesNeedSignIn(courseId: string, user: Option<UiUser>)
    ensures Resolve(["my-courses"], user) == (if user.None? then Redirect("/login") else Render(MyCoursesPage))
    ensures Resolve(["course", courseId, "learn"], user) == (if user.None? then Redirect("/login") else Render(LessonPlayerPage))
    ensures Resolve(["course", courseId], user) == Render(CourseDetailPage)
  {
  }
}
