/** The HTTP endpoints of backend/app/main.py. Each protected endpoint looks its caller up by the
    `user_id` query parameter (401 when unknown), checks the caller's role (403), and then delegates
    to a table operation of `Crud`. Endpoints that only read are functions of the tables; endpoints
    that change a table are methods on the `Database`. */
module Endpoints {
  import opened Wrappers
  import opened Constants
  import opened Models
  import opened Crud
  import opened Text

  /** An `HTTPException`: a status code and its detail text. */
  datatype HttpError = HttpError(status: nat, detail: string)

  const USER_NOT_FOUND := HttpError(401, "User not found")
  const NOT_ENOUGH_PERMISSIONS := HttpError(403, "Not enough permissions")
  const INVALID_CREDENTIALS := HttpError(401, "Invalid username or password")
  const ONLY_STUDENTS := HttpError(403, "Only students can view their own grades")
  const STUDENT_NOT_FOUND := HttpError(404, "Student not found")
  const SUBJECT_NOT_FOUND := HttpError(404, "Subject not found")
  const TARGET_USER_NOT_FOUND := HttpError(404, "User not found")
  const USER_EXISTS := HttpError(400, "User already exists")
  /** What a client sees when the database refuses a write the handler does not anticipate. */
  const INTERNAL_ERROR := HttpError(500, "Internal Server Error")

  /** The role lists the handlers pass to check_permission. */
  const STAFF_ROLES: seq<string> := ["admin", "teacher"]
  const ADMIN_ROLES: seq<string> := ["admin"]

  /** The literal lists in the handlers are the permission groups of the constants module. */
  lemma HandlerListsAreGroups()
    ensures STAFF_ROLES == TEACHER_AND_ADMIN && ADMIN_ROLES == ADMIN_ONLY
  {
  }

  /** check_permission: a 403 exactly when the caller's role is not in the allowed list. */
  function CheckPermission(user: User, allowedRoles: seq<string>): (r: Option<HttpError>)
    ensures r.Some? <==> user.role !in allowedRoles
    ensures r.Some? ==> r.value.status == 403
  {
    if user.role !in allowedRoles then Some(NOT_ENOUGH_PERMISSIONS) else None
  }

  /** The guard that opens every protected endpoint: an unknown caller is refused with 401
      before any role is looked at; a known caller outside the allowed roles gets 403. */
  function Guard(users: seq<User>, callerId: int, allowedRoles: seq<string>): (r: Result<User, HttpError>)
    ensures !HasUser(users, callerId) ==> r == Failure(USER_NOT_FOUND)
    ensures HasUser(users, callerId) && r.Failure? ==> r.error.status == 403
    ensures r.Success? ==> r.value in users && r.value.userId == callerId && r.value.role in allowedRoles
    ensures r.Success? <==> HasUser(users, callerId) && UserById(users, callerId).value.role in allowedRoles
  {
    match UserById(users, callerId)
    case None => Failure(USER_NOT_FOUND)
    case Some(user) =>
      match CheckPermission(user, allowedRoles)
      case Some(e) => Failure(e)
      case None => Success(user)
  }

  /** The role of the caller, when the caller exists. */
  function CallerRole(users: seq<User>, callerId: int): Option<string> {
    match UserById(users, callerId)
    case None => None
    case Some(u) => Some(u.role)
  }

  function Responses(us: seq<User>): (r: seq<UserResponse>)
    ensures |r| == |us| && forall i :: 0 <= i < |us| ==> r[i] == ToResponse(us[i])
  {
    seq(|us|, i requires 0 <= i < |us| => ToResponse(us[i]))
  }

  // ---------------------------------------------------------------------------------------
  // Endpoints that only read

  /** POST /api/auth/login: the matching user, or 401 when no user has that login and password. */
  function Login(users: seq<User>, username: string, password: string): (r: Result<UserResponse, HttpError>)
    ensures r.Failure? <==> forall u :: u in users ==> !MatchesCredentials(username, password, u)
    ensures r.Failure? ==> r.error == INVALID_CREDENTIALS
    ensures r.Success? ==> exists u :: u in users && MatchesCredentials(username, password, u)
                                       && r.value == ToResponse(u)
  {
    match UserByCredentials(users, username, password)
    case None => Failure(INVALID_CREDENTIALS)
    case Some(u) => Success(ToResponse(u))
  }

  /** GET /api/students: every student, for an admin or teacher caller only. */
  function ListStudents(users: seq<User>, callerId: int): (r: Result<seq<UserResponse>, HttpError>)
    ensures r.Success? <==> CallerRole(users, callerId) == Some(ADMIN) || CallerRole(users, callerId) == Some(TEACHER)
    ensures CallerRole(users, callerId).None? ==> r == Failure(USER_NOT_FOUND)
    ensures CallerRole(users, callerId).Some? && r.Failure? ==> r.error == NOT_ENOUGH_PERMISSIONS
    ensures r.Success? ==> forall x :: x in r.value <==> exists u :: u in users && u.role == STUDENT && x == ToResponse(u)
    ensures r.Success? ==> |r.value| == |AllStudents(users)|
                           && forall i :: 0 <= i < |r.value| ==> r.value[i] == ToResponse(AllStudents(users)[i])
    ensures r.Success? && KeysDistinct(users, UserIdOf) ==>
              forall i, j :: 0 <= i < j < |r.value| ==> r.value[i].userId != r.value[j].userId
  {
    match Guard(users, callerId, STAFF_ROLES)
    case Failure(e) => Failure(e)
    case Success(_) =>
      var students := AllStudents(users);
      var r := Responses(students);
      assert forall x :: x in r ==> exists i :: 0 <= i < |students| && x == ToResponse(students[i]);
      assert forall u :: u in students ==> exists i :: 0 <= i < |students| && students[i] == u;
      assert KeysDistinct(users, UserIdOf) ==> KeysDistinct(students, UserIdOf) by {
        if KeysDistinct(users, UserIdOf) {
          AllStudentsDistinct(users);
        }
      }
      Success(r)
  }

  /** GET /api/grades/my-grades: the caller's own sheet, for a student caller only; an unknown
      caller and a staff caller get the same 403. */
  function GetMyGrades(users: seq<User>, subjects: seq<Subject>, grades: seq<Grade>, callerId: int)
    : (r: Result<StudentGradesResponse, HttpError>)
    ensures r.Success? <==> CallerRole(users, callerId) == Some(STUDENT)
    ensures r.Failure? ==> r.error == ONLY_STUDENTS
    ensures r.Success? ==> r.value.student == ToResponse(UserById(users, callerId).value)
                           && r.value.student.userId == callerId
                           && r.value.grades == StudentGrades(subjects, grades, callerId)
  {
    match UserById(users, callerId)
    case None => Failure(ONLY_STUDENTS)
    case Some(user) =>
      if user.role != STUDENT then Failure(ONLY_STUDENTS)
      else Success(StudentGradesResponse(ToResponse(user), StudentGrades(subjects, grades, callerId)))
  }

  /** GET /api/grades/student/{student_id}: 401 for an unknown caller, 403 for a student caller,
      404 when the id is not a student's, otherwise that student's sheet. */
  function GetStudentGrades(users: seq<User>, subjects: seq<Subject>, grades: seq<Grade>,
                            studentId: int, callerId: int)
    : (r: Result<StudentGradesResponse, HttpError>)
    ensures CallerRole(users, callerId).None? ==> r == Failure(USER_NOT_FOUND)
    ensures CallerRole(users, callerId).Some? && CallerRole(users, callerId).value !in TEACHER_AND_ADMIN ==>
              r == Failure(NOT_ENOUGH_PERMISSIONS)
    ensures CallerRole(users, callerId).Some? && CallerRole(users, callerId).value in TEACHER_AND_ADMIN ==>
              (r.Failure? <==> StudentById(users, studentId).None?)
    ensures (r.Failure? && StudentById(users, studentId).None? && CallerRole(users, callerId).Some?
             && CallerRole(users, callerId).value in TEACHER_AND_ADMIN) ==> r.error == STUDENT_NOT_FOUND
    ensures r.Success? ==> r.value.student == ToResponse(StudentById(users, studentId).value)
                           && r.value.student.userId == studentId && r.value.student.role == STUDENT
                           && r.value.grades == StudentGrades(subjects, grades, studentId)
  {
    match Guard(users, callerId, STAFF_ROLES)
    case Failure(e) => Failure(e)
    case Success(_) =>
      match StudentById(users, studentId)
      case None => Failure(STUDENT_NOT_FOUND)
      case Some(student) =>
        Success(StudentGradesResponse(ToResponse(student), StudentGrades(subjects, grades, studentId)))
  }

  /** GET /api/subjects: the whole table, with no caller check at all (the handler takes no
      `user_id`), so an unknown caller gets it too. */
  function ListSubjects(subjects: seq<Subject>): (r: seq<Subject>)
    ensures r == subjects
  {
    subjects
  }

  /** GET /api/users: every user, for an admin caller only. */
  function ListUsers(users: seq<User>, callerId: int): (r: Result<seq<UserResponse>, HttpError>)
    ensures r.Success? <==> CallerRole(users, callerId) == Some(ADMIN)
    ensures CallerRole(users, callerId).None? ==> r == Failure(USER_NOT_FOUND)
    ensures CallerRole(users, callerId).Some? && r.Failure? ==> r.error == NOT_ENOUGH_PERMISSIONS
    ensures r.Success? ==> r.value == Responses(users)
  {
    match Guard(users, callerId, ADMIN_ROLES)
    case Failure(e) => Failure(e)
    case Success(_) => Success(Responses(users))
  }

  // ---------------------------------------------------------------------------------------
  // Endpoints that change a table

  /** PUT /api/grades/student/{student_id}/subject/{subject_id}: for an admin or teacher caller,
      the grade upsert. It succeeds exactly when the pair already has a row (whose value is then
      overwritten) or the student and the subject both exist (a row is then appended); a refused
      insert surfaces as a 500. */
  method UpdateStudentGrade(db: Database, studentId: int, subjectId: int, gradeValue: Option<string>,
                            callerId: int)
    returns (r: Result<string, HttpError>)
    requires db.Valid()
    modifies db
    ensures db.Valid()
    ensures old(Guard(db.users, callerId, STAFF_ROLES)).Failure? ==>
              r == Failure(old(Guard(db.users, callerId, STAFF_ROLES)).error) && unchanged(db)
    ensures r.Failure? && old(Guard(db.users, callerId, STAFF_ROLES)).Success? ==>
              r == Failure(INTERNAL_ERROR) && unchanged(db)
    ensures old(Guard(db.users, callerId, STAFF_ROLES)).Success? ==>
              (r.Success? <==> old(PairIndex(db.grades, studentId, subjectId)) < |old(db.grades)|
                               || (HasUser(old(db.users), studentId) && HasSubject(old(db.subjects), subjectId)))
    ensures var i := old(PairIndex(db.grades, studentId, subjectId));
            r.Success? && i < |old(db.grades)| ==>
              db.grades == old(db.grades)[i := old(db.grades)[i].(gradeValue := gradeValue)]
              && db.nextGradeId == old(db.nextGradeId)
    ensures var i := old(PairIndex(db.grades, studentId, subjectId));
            r.Success? && i == |old(db.grades)| ==>
              db.grades == old(db.grades) + [Grade(old(db.nextGradeId), studentId, subjectId, gradeValue)]
              && db.nextGradeId == old(db.nextGradeId) + 1
    ensures r.Success? ==> r.value == "Grade updated successfully"
                           && exists g :: g in db.grades && IsPairRow(studentId, subjectId, g) && g.gradeValue == gradeValue
    ensures db.users == old(db.users) && db.subjects == old(db.subjects)
    ensures db.nextUserId == old(db.nextUserId) && db.nextSubjectId == old(db.nextSubjectId)
    ensures OneGradePerPair(old(db.grades)) ==> OneGradePerPair(db.grades)
  {
    var guard := Guard(db.users, callerId, STAFF_ROLES);
    if guard.Failure? {
      return Failure(guard.error);
    }
    var grade := db.UpdateGrade(studentId, subjectId, gradeValue);
    if grade.Failure? {
      return Failure(INTERNAL_ERROR);
    }
    r := Success("Grade updated successfully");
  }

  /** POST /api/subjects: for an admin caller, one new subject with the given name. */
  method AddSubject(db: Database, subjectName: string, callerId: int) returns (r: Result<Subject, HttpError>)
    requires db.Valid()
    modifies db
    ensures db.Valid()
    ensures r.Failure? <==> old(Guard(db.users, callerId, ADMIN_ROLES)).Failure?
    ensures r.Failure? ==> r.error == old(Guard(db.users, callerId, ADMIN_ROLES)).error && unchanged(db)
    ensures r.Success? ==> r.value.subjectName == subjectName && db.subjects == old(db.subjects) + [r.value]
                           && !HasSubject(old(db.subjects), r.value.subjectId)
    ensures db.users == old(db.users) && db.grades == old(db.grades)
  {
    var guard := Guard(db.users, callerId, ADMIN_ROLES);
    if guard.Failure? {
      return Failure(guard.error);
    }
    var subject := db.CreateSubject(subjectName);
    r := Success(subject);
  }

  /** DELETE /api/subjects/{subject_id}: for an admin caller, the subject and its grade rows are
      deleted, or 404 when there is no such subject. */
  method RemoveSubject(db: Database, subjectId: int, callerId: int) returns (r: Result<string, HttpError>)
    requires db.Valid()
    modifies db
    ensures db.Valid()
    ensures old(Guard(db.users, callerId, ADMIN_ROLES)).Failure? ==>
              r == Failure(old(Guard(db.users, callerId, ADMIN_ROLES)).error) && unchanged(db)
    ensures old(Guard(db.users, callerId, ADMIN_ROLES)).Success? && !old(HasSubject(db.subjects, subjectId)) ==>
              r == Failure(SUBJECT_NOT_FOUND) && unchanged(db)
    ensures r.Success? <==> old(Guard(db.users, callerId, ADMIN_ROLES)).Success? && old(HasSubject(db.subjects, subjectId))
    ensures r.Success? ==> r.value == "Subject deleted successfully"
                           && db.subjects == WithoutSubject(old(db.subjects), subjectId)
                           && db.grades == WithoutSubjectGrades(old(db.grades), subjectId)
    ensures db.users == old(db.users)
  {
    var guard := Guard(db.users, callerId, ADMIN_ROLES);
    if guard.Failure? {
      return Failure(guard.error);
    }
    var found := db.DeleteSubject(subjectId);
    if !found {
      return Failure(SUBJECT_NOT_FOUND);
    }
    r := Success("Subject deleted successfully");
  }

  /** POST /api/users: for an admin caller, a new user; an email already in use is refused with
      400 and adds nothing; a username in use or a role outside the enumeration is refused by
      the database, which surfaces as a 500. */
  method CreateUser(db: Database, fullName: string, email: string, role: string, username: string,
                    password: string, callerId: int)
    returns (r: Result<UserResponse, HttpError>)
    requires db.Valid()
    modifies db
    ensures db.Valid()
    ensures old(Guard(db.users, callerId, ADMIN_ROLES)).Failure? ==>
              r == Failure(old(Guard(db.users, callerId, ADMIN_ROLES)).error) && unchanged(db)
    ensures old(Guard(db.users, callerId, ADMIN_ROLES)).Success? && old(UserByEmail(db.users, email)).Some? ==>
              r == Failure(USER_EXISTS) && unchanged(db)
    ensures r.Failure? ==> unchanged(db)
    ensures r.Success? <==> old(Guard(db.users, callerId, ADMIN_ROLES)).Success?
                            && old(UserByEmail(db.users, email)).None?
                            && role in ALL_ROLES && !old(UsernameTaken(db.users, username))
    ensures r.Success? ==> db.users == old(db.users) + [User(old(db.nextUserId), username, password, fullName, email, role)]
                           && r.value == ToResponse(User(old(db.nextUserId), username, password, fullName, email, role))
                           && db.nextUserId == old(db.nextUserId) + 1
    ensures db.subjects == old(db.subjects) && db.grades == old(db.grades)
    ensures db.nextSubjectId == old(db.nextSubjectId) && db.nextGradeId == old(db.nextGradeId)
  {
    var guard := Guard(db.users, callerId, ADMIN_ROLES);
    if guard.Failure? {
      return Failure(guard.error);
    }
    if UserByEmail(db.users, email).Some? {
      return Failure(USER_EXISTS);
    }
    var created := db.CreateUser(fullName, email, role, username, password);
    if created.Failure? {
      return Failure(INTERNAL_ERROR);
    }
    r := Success(ToResponse(created.value));
  }

  /** DELETE /api/users/{delete_user_id}: for an admin caller, the user and that user's grade
      rows are deleted, or 404 when there is no such user. */
  method DeleteUser(db: Database, deleteUserId: int, callerId: int) returns (r: Result<string, HttpError>)
    requires db.Valid()
    modifies db
    ensures db.Valid()
    ensures old(Guard(db.users, callerId, ADMIN_ROLES)).Failure? ==>
              r == Failure(old(Guard(db.users, callerId, ADMIN_ROLES)).error) && unchanged(db)
    ensures old(Guard(db.users, callerId, ADMIN_ROLES)).Success? && !old(HasUser(db.users, deleteUserId)) ==>
              r == Failure(TARGET_USER_NOT_FOUND) && unchanged(db)
    ensures r.Success? <==> old(Guard(db.users, callerId, ADMIN_ROLES)).Success? && old(HasUser(db.users, deleteUserId))
    ensures r.Success? ==> r.value == "User deleted successfully"
                           && db.users == WithoutUser(old(db.users), deleteUserId)
                           && db.grades == WithoutStudentGrades(old(db.grades), deleteUserId)
    ensures db.subjects == old(db.subjects)
  {
    var guard := Guard(db.users, callerId, ADMIN_ROLES);
    if guard.Failure? {
      return Failure(guard.error);
    }
    var found := db.DeleteUser(deleteUserId);
    if !found {
      return Failure(TARGET_USER_NOT_FOUND);
    }
    r := Success("User deleted successfully");
  }

  /** create_user_if_not_exists: the user with this email if there is one (nothing changes);
      otherwise the result of create_user: a new user with exactly the given fields, unless the
      database refuses the role or the username. */
  method CreateUserIfNotExists(db: Database, fullName: string, email: string, role: string,
                               username: string, password: string)
    returns (r: Result<User, DbError>)
    requires db.Valid()
    modifies db
    ensures db.Valid()
    ensures old(UserByEmail(db.users, email)).Some? ==>
              r == Success(old(UserByEmail(db.users, email)).value) && unchanged(db)
    ensures r.Success? ==> r.value in db.users && r.value.email == email
                           && UserByEmail(db.users, email) == Some(r.value)
    ensures old(UserByEmail(db.users, email)).None? && role !in ALL_ROLES ==> r == Failure(InvalidRole)
    ensures old(UserByEmail(db.users, email)).None? && role in ALL_ROLES && old(UsernameTaken(db.users, username)) ==>
              r == Failure(DuplicateUsername)
    ensures old(UserByEmail(db.users, email)).None? && role in ALL_ROLES && !old(UsernameTaken(db.users, username)) ==>
              r == Success(User(old(db.nextUserId), username, password, fullName, email, role))
              && db.users == old(db.users) + [r.value] && db.nextUserId == old(db.nextUserId) + 1
    ensures r.Failure? ==> unchanged(db)
    ensures db.subjects == old(db.subjects) && db.grades == old(db.grades)
    ensures db.nextSubjectId == old(db.nextSubjectId) && db.nextGradeId == old(db.nextGradeId)
    ensures |db.users| <= |old(db.users)| + 1
  {
    var existing := UserByEmail(db.users, email);
    if existing.Some? {
      return Success(existing.value);
    }
    r := db.CreateUser(fullName, email, role, username, password);
    if r.Success? {
      assert r.value in db.users;
      DistinctKeyDeterminesRow(db.users, EmailOf, UserByEmail(db.users, email).value, r.value);
    }
  }

  /** Calling create_user_if_not_exists twice with the same arguments: the second call gives the
      same answer as the first, and the two calls together change the tables exactly as the
      first one alone does; so the second call changes nothing. */
  method CreateUserIfNotExistsTwice(db: Database, fullName: string, email: string, role: string,
                                    username: string, password: string)
    returns (first: Result<User, DbError>, second: Result<User, DbError>)
    requires db.Valid()
    modifies db
    ensures db.Valid()
    ensures second == first
    ensures db.users == old(db.users) + (if first.Success? && old(UserByEmail(db.users, email)).None?
                                         then [first.value] else [])
    ensures db.subjects == old(db.subjects) && db.grades == old(db.grades)
  {
    first := CreateUserIfNotExists(db, fullName, email, role, username, password);
    second := CreateUserIfNotExists(db, fullName, email, role, username, password);
  }

  // ---------------------------------------------------------------------------------------
  // The route table

  datatype HttpMethod = Get | Post | Put | Delete

  /** The handler a request reaches, with the values of its path parameters. */
  datatype Route =
    | LoginRoute
    | StudentsRoute
    | MyGradesRoute
    | StudentGradesRoute(studentId: nat)
    | UpdateGradeRoute(studentId: nat, subjectId: nat)
    | SubjectsRoute
    | AddSubjectRoute
    | RemoveSubjectRoute(subjectId: nat)
    | CreateUserRoute
    | UsersRoute
    | DeleteUserRoute(deleteUserId: nat)
    | RootRoute

  /** The path of every route, as its decorator declares it; the root route `/` has one empty
      segment. */
  function RouteSegments(route: Route): (segments: seq<string>)
    ensures forall k :: 0 <= k < |segments| ==> HasNoSlash(segments[k])
  {
    NatTextsHaveNoSlash();
    match route
    case LoginRoute => ["api", "auth", "login"]
    case StudentsRoute => ["api", "students"]
    case MyGradesRoute => ["api", "grades", "my-grades"]
    case StudentGradesRoute(s) => ["api", "grades", "student", NatToString(s)]
    case UpdateGradeRoute(s, j) => ["api", "grades", "student", NatToString(s), "subject", NatToString(j)]
    case SubjectsRoute => ["api", "subjects"]
    case AddSubjectRoute => ["api", "subjects"]
    case RemoveSubjectRoute(j) => ["api", "subjects", NatToString(j)]
    case CreateUserRoute => ["api", "users"]
    case UsersRoute => ["api", "users"]
    case DeleteUserRoute(u) => ["api", "users", NatToString(u)]
    case RootRoute => [""]
  }

  function MethodOfRoute(route: Route): HttpMethod {
    match route
    case LoginRoute => Post
    case UpdateGradeRoute(_, _) => Put
    case AddSubjectRoute => Post
    case RemoveSubjectRoute(_) => Delete
    case CreateUserRoute => Post
    case DeleteUserRoute(_) => Delete
    case _ => Get
  }

  lemma NatTextsHaveNoSlash()
    ensures forall n: nat {:trigger NatToString(n)} :: HasNoSlash(NatToString(n))
  {
    forall n: nat ensures HasNoSlash(NatToString(n)) {
      NatTextHasNoSlash(n);
    }
  }

  /** The dispatch of a request by method and path: the route whose method and segments match,
      with its integer path parameters read back; None when no route matches (404, 405, or a
      path parameter that is not a number). */
  function Dispatch(m: HttpMethod, path: string): (r: Option<Route>)
    ensures r.Some? ==> MethodOfRoute(r.value) == m
  {
    if path == [] || path[0] != '/' then None else DispatchSegments(m, SplitPath(path))
  }

  function DispatchSegments(m: HttpMethod, seg: seq<string>): (r: Option<Route>)
    ensures r.Some? ==> MethodOfRoute(r.value) == m
  {
    if seg == [""] then (if m == Get then Some(RootRoute) else None)
    else if |seg| < 2 || seg[0] != "api" then None
    else
      var n := |seg|;
      if n == 2 && seg[1] == "students" then (if m == Get then Some(StudentsRoute) else None)
      else if n == 2 && seg[1] == "subjects" then
        (if m == Get then Some(SubjectsRoute) else if m == Post then Some(AddSubjectRoute) else None)
      else if n == 2 && seg[1] == "users" then
        (if m == Get then Some(UsersRoute) else if m == Post then Some(CreateUserRoute) else None)
      else if n == 3 && seg[1] == "auth" && seg[2] == "login" then (if m == Post then Some(LoginRoute) else None)
      else if n == 3 && seg[1] == "grades" && seg[2] == "my-grades" then (if m == Get then Some(MyGradesRoute) else None)
      else if n == 3 && seg[1] == "subjects" && ParseNat(seg[2]).Some? then
        (if m == Delete then Some(RemoveSubjectRoute(ParseNat(seg[2]).value)) else None)
      else if n == 3 && seg[1] == "users" && ParseNat(seg[2]).Some? then
        (if m == Delete then Some(DeleteUserRoute(ParseNat(seg[2]).value)) else None)
      else if n == 4 && seg[1] == "grades" && seg[2] == "student" && ParseNat(seg[3]).Some? then
        (if m == Get then Some(StudentGradesRoute(ParseNat(seg[3]).value)) else None)
      else if n == 6 && seg[1] == "grades" && seg[2] == "student" && seg[4] == "subject"
              && ParseNat(seg[3]).Some? && ParseNat(seg[5]).Some? then
        (if m == Put then Some(UpdateGradeRoute(ParseNat(seg[3]).value, ParseNat(seg[5]).value)) else None)
      else None
  }

  /** Every route is reached by its own method and path, with its own path parameters. */
  lemma DispatchFindsEveryRoute(route: Route)
    ensures Dispatch(MethodOfRoute(route), JoinPath(RouteSegments(route))) == Some(route)
  {
    DispatchOfJoin(MethodOfRoute(route), RouteSegments(route));
    if route.StudentGradesRoute? || route.UpdateGradeRoute? || route.RemoveSubjectRoute? || route.DeleteUserRoute? {
      ParameterRouteMatches(route);
    } else {
      FixedRouteMatches(route);
    }
  }

  /** Dispatching a joined path looks at exactly the segments it was joined from. */
  lemma DispatchOfJoin(m: HttpMethod, segments: seq<string>)
    requires segments != []
    requires forall k :: 0 <= k < |segments| ==> HasNoSlash(segments[k])
    ensures Dispatch(m, JoinPath(segments)) == DispatchSegments(m, segments)
  {
    SplitJoin(segments);
  }

  lemma ParameterRouteMatches(route: Route)
    requires route.StudentGradesRoute? || route.UpdateGradeRoute? || route.RemoveSubjectRoute? || route.DeleteUserRoute?
    ensures DispatchSegments(MethodOfRoute(route), RouteSegments(route)) == Some(route)
  {
    match route
    case StudentGradesRoute(s) => ParseNatRoundTrip(s);
    case UpdateGradeRoute(s, j) => ParseNatRoundTrip(s); ParseNatRoundTrip(j);
    case RemoveSubjectRoute(j) => ParseNatRoundTrip(j);
    case DeleteUserRoute(u) => ParseNatRoundTrip(u);
  }

  lemma FixedRouteMatches(route: Route)
    requires !(route.StudentGradesRoute? || route.UpdateGradeRoute? || route.RemoveSubjectRoute? || route.DeleteUserRoute?)
    ensures DispatchSegments(MethodOfRoute(route), RouteSegments(route)) == Some(route)
  {
  }

  /** No two routes share both a method and a path. */
  lemma RoutesDistinct(a: Route, b: Route)
    requires MethodOfRoute(a) == MethodOfRoute(b)
    requires JoinPath(RouteSegments(a)) == JoinPath(RouteSegments(b))
    ensures a == b
  {
    DispatchFindsEveryRoute(a);
    DispatchFindsEveryRoute(b);
  }
}
