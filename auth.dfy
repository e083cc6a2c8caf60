/** Authentication: resolving the bearer token to a user, the role gate,
    registration and login. Token signing and password hashing are
    abstracted: a token is either validly signed with an optional subject
    claim or not valid at all. */
module Auth {
  import opened Wrappers
  import opened Seqs
  import opened DbModels

  /** A bearer token as `jwt.decode` sees it: a well-signed, unexpired token
      whose payload may or may not carry `sub`, or a token that fails to decode. */
  datatype Token = Signed(sub: Option<Id>) | Undecodable

  /** `security.create_access_token(subject=id)`. */
  function IssueToken(subject: Id): Token
  {
    Signed(Some(subject))
  }

  /** `get_current_user`: 401 for an undecodable token, for a token without
      a subject and for a subject naming no user; otherwise that user. */
  function Authenticate(d: Db, token: Token): (r: Result<User, ApiError>)
    ensures r.Success? <==>
      token.Signed? && token.sub.Some? && exists i :: 0 <= i < |d.users| && d.users[i].id == token.sub.value
    ensures r.Success? ==> r.value in d.users && r.value.id == token.sub.value
    ensures r.Failure? ==> r.error == Unauthorized
  {
    match token
    case Undecodable => Failure(Unauthorized)
    case Signed(sub) =>
      if sub.None? then Failure(Unauthorized)
      else
        match First(d.users, UserWithId(sub.value))
        case None => Failure(Unauthorized)
        case Some(u) => Success(u)
  }

  /** `role_required(roles)`: the user when the value of their role is
      listed, otherwise 403. */
  function RoleRequired(user: User, roles: seq<string>): (r: Result<User, ApiError>)
    ensures r.Success? <==> user.role.Value() in roles
    ensures r.Success? ==> r.value == user
    ensures r.Failure? ==> r.error == Forbidden
  {
    if user.role.Value() in roles then Success(user) else Failure(Forbidden)
  }

  /** The role list every course- and lesson-management endpoint requires. */
  const StaffRoles: seq<string> := ["instructor", "admin"]

  /** The staff gate admits exactly instructors and admins. */
  lemma StaffGate(user: User)
    ensures RoleRequired(user, StaffRoles).Success? <==> user.role == Instructor || user.role == Admin
  {
    assert Student.Value() == "student";
    assert StaffRoles == ["instructor", "admin"];
    assert "student" != "instructor" && "student" != "admin";
  }

  /** The ownership test of every course and lesson mutation: the caller
      authored the course, or the caller is an admin. */
  predicate OwnerOrAdmin(course: Course, caller: User)
  {
    course.instructorId == caller.id || caller.role == Admin
  }

  /** The dependency chain of a role-gated endpoint: the token is resolved
      first (401), then the role is checked (403). */
  function Authorize(d: Db, token: Token, roles: seq<string>): (r: Result<User, ApiError>)
    ensures Authenticate(d, token).Failure? ==> r == Failure(Unauthorized)
    ensures Authenticate(d, token).Success? ==> r == RoleRequired(Authenticate(d, token).value, roles)
  {
    match Authenticate(d, token)
    case Failure(e) => Failure(e)
    case Success(u) => RoleRequired(u, roles)
  }

  /** The registration payload (`UserCreate`). The schema types `role` as
      any string; it is typed by the enum here, and a value outside it (such
      as "Admin") stands for the flush that fails at commit, a 500 that is
      not modelled. */
  datatype UserCreate = UserCreate(
    email: string,
    fullName: string,
    role: UserRole,
    avatarUrl: Option<string>,
    password: string)

  /** The row `register` inserts: the client's role is stored as given. */
  function RegisteredUser(id: Id, input: UserCreate): (u: User)
    ensures u.id == id && u.email == input.email && u.role == input.role
    ensures u.fullName == input.fullName && u.avatarUrl == input.avatarUrl
    ensures VerifyPassword(input.password, u.passwordHash)
  {
    User(id, input.email, HashPassword(input.password), input.fullName, input.role, input.avatarUrl)
  }

  /** `register`: 400 with no write when the email is taken; otherwise one
      new user and a token for that user. */
  function RegisterSpec(d: Db, input: UserCreate): (r: Response<Token>)
    ensures (exists i :: 0 <= i < |d.users| && d.users[i].email == input.email) ==>
      r == Response(d, Failure(BadRequest))
    ensures (forall i :: 0 <= i < |d.users| ==> d.users[i].email != input.email) ==>
      && r.db == d.(users := d.users + [RegisteredUser(d.nextId, input)], nextId := d.nextId + 1)
      && r.result == Success(IssueToken(d.nextId))
  {
    if First(d.users, UserWithEmail(input.email)).Some? then Response(d, Failure(BadRequest))
    else
      Response(d.(users := d.users + [RegisteredUser(d.nextId, input)], nextId := d.nextId + 1),
               Success(IssueToken(d.nextId)))
  }

  /** Registration keeps the table constraints, unique email included. */
  lemma RegisterPreservesWellFormed(d: Db, input: UserCreate)
    requires WellFormed(d)
    ensures WellFormed(RegisterSpec(d, input).db)
  {
    var r := RegisterSpec(d, input);
    if r.result.Success? {
      var u := RegisteredUser(d.nextId, input);
      AppendFresh(d.users, u, UserId, d.nextId);
      AppendNewKey(d.users, u, UserEmail);
      RaiseBound(d.courses, CourseId, d.nextId, d.nextId + 1);
      RaiseBound(d.lessons, LessonId, d.nextId, d.nextId + 1);
      RaiseBound(d.enrollments, EnrollmentId, d.nextId, d.nextId + 1);
      RaiseBound(d.progress, ProgressId, d.nextId, d.nextId + 1);
      RaiseBound(d.reviews, ReviewId, d.nextId, d.nextId + 1);
    }
  }

  /** The token `register` returns authenticates as the user it created. */
  lemma RegisterThenAuthenticate(d: Db, input: UserCreate)
    requires WellFormed(d)
    requires RegisterSpec(d, input).result.Success?
    ensures Authenticate(RegisterSpec(d, input).db, RegisterSpec(d, input).result.value)
      == Success(RegisteredUser(d.nextId, input))
  {
    var users' := d.users + [RegisteredUser(d.nextId, input)];
    assert forall i :: 0 <= i < |d.users| ==> users'[i] == d.users[i];
    FirstIndexIs(users', UserWithId(d.nextId), |d.users|);
  }

  /** `login`: the same 401 for an unknown email and for a wrong password;
      otherwise a token for the user with that email. Performs no write. */
  function Login(d: Db, email: string, password: string): (r: Result<Token, ApiError>)
    ensures (forall i :: 0 <= i < |d.users| ==> d.users[i].email != email) ==> r == Failure(Unauthorized)
    ensures r.Failure? ==> r.error == Unauthorized
    ensures r.Success? ==> exists i :: (0 <= i < |d.users| && d.users[i].email == email
      && VerifyPassword(password, d.users[i].passwordHash) && r.value == IssueToken(d.users[i].id))
  {
    match First(d.users, UserWithEmail(email))
    case None => Failure(Unauthorized)
    case Some(u) =>
      if !VerifyPassword(password, u.passwordHash) then Failure(Unauthorized)
      else Success(IssueToken(u.id))
  }

  /** With unique emails, a wrong password for a registered email is refused. */
  lemma LoginWrongPassword(d: Db, i: nat, password: string)
    requires WellFormed(d) && i < |d.users|
    requires !VerifyPassword(password, d.users[i].passwordHash)
    ensures Login(d, d.users[i].email, password) == Failure(Unauthorized)
  {
    FirstByKeyIsUnique(d.users, UserEmail, i, UserWithEmail(d.users[i].email));
  }

  /** With unique emails, the right password for a registered email logs in
      as that user. */
  lemma LoginRightPassword(d: Db, i: nat, password: string)
    requires WellFormed(d) && i < |d.users|
    requires VerifyPassword(password, d.users[i].passwordHash)
    ensures Login(d, d.users[i].email, password) == Success(IssueToken(d.users[i].id))
  {
    FirstByKeyIsUnique(d.users, UserEmail, i, UserWithEmail(d.users[i].email));
  }

  /** A new account can log in at once with the password it registered,
      and receives a token for the user `register` created. */
  lemma RegisterThenLogin(d: Db, input: UserCreate)
    requires WellFormed(d)
    requires RegisterSpec(d, input).result.Success?
    ensures Login(RegisterSpec(d, input).db, input.email, input.password) == Success(IssueToken(d.nextId))
  {
    RegisterPreservesWellFormed(d, input);
    var d' := RegisterSpec(d, input).db;
    assert d'.users[|d.users|] == RegisteredUser(d.nextId, input);
    LoginRightPassword(d', |d.users|, input.password);
  }

  /** The token `login` returns authenticates as the user who logged in. */
  lemma LoginThenAuthenticate(d: Db, email: string, password: string)
    requires WellFormed(d)
    requires Login(d, email, password).Success?
    ensures Authenticate(d, Login(d, email, password).value).Success?
    ensures Authenticate(d, Login(d, email, password).value).value.email == email
  {
    var i :| 0 <= i < |d.users| && d.users[i].email == email
      && Login(d, email, password).value == IssueToken(d.users[i].id);
    FirstByKeyIsUnique(d.users, UserId, i, UserWithId(d.users[i].id));
  }

  /** The imperative endpoint: the session gains the user and commits. */
  method Register(db: Store, input: UserCreate) returns (r: Result<Token, ApiError>)
    modifies db
    ensures db.State() == RegisterSpec(old(db.State()), input).db
    ensures r == RegisterSpec(old(db.State()), input).result
  {
    var existing := First(db.users, UserWithEmail(input.email));
    if existing.Some? {
      return Failure(BadRequest);
    }
    var id := db.FreshId();
    db.users := db.users + [RegisteredUser(id, input)];
    r := Success(IssueToken(id));
  }
}
