/** The client's request layer (src/services/api.js): the calls the views make, the method, path
    and body each one sends, and the interceptor that tags every request with the stored user id. */
module Client {
  import opened Wrappers
  import opened Text
  import opened Endpoints

  /** The server part of the base URL; every call's path is relative to `API_URL`. */
  const SERVER_URL: string := "http://localhost:8000"
  const API_PREFIX: string := "/api"
  const API_URL: string := SERVER_URL + API_PREFIX

  /** The `localStorage` key and query parameter that carry the caller's id. */
  const USER_ID_KEY: string := "user_id"

  /** A JSON value in a request body: a string or null. */
  datatype Json = JString(text: string) | JNull

  /** A request body: no body, or a JSON object given as its fields in order. */
  datatype Body = NoBody | Object(fields: seq<(string, Json)>)

  /** The calls the exported API objects offer, with their arguments. */
  datatype Call =
    | Login(username: string, password: string)
    | GetAllStudents
    | GetMyGrades
    | GetStudentGrades(studentId: nat)
    | UpdateGrade(studentId: nat, subjectId: nat, gradeValue: Option<string>)
    | GetAllSubjects
    | CreateSubject(subjectName: string)
    | DeleteSubject(subjectId: nat)
    | CreateUser(fullName: string, email: string, role: string, username: string, password: string)
    | GetAllUsers
    | DeleteUser(userId: nat)

  function MethodOf(c: Call): HttpMethod {
    match c
    case Login(_, _) => Post
    case UpdateGrade(_, _, _) => Put
    case CreateSubject(_) => Post
    case DeleteSubject(_) => Delete
    case CreateUser(_, _, _, _, _) => Post
    case DeleteUser(_) => Delete
    case _ => Get
  }

  /** The segments of each call's path relative to `API_URL`. */
  function PathSegments(c: Call): (segments: seq<string>)
    ensures forall k :: 0 <= k < |segments| ==> HasNoSlash(segments[k])
  {
    NatTextsHaveNoSlash();
    match c
    case Login(_, _) => ["auth", "login"]
    case GetAllStudents => ["students"]
    case GetMyGrades => ["grades", "my-grades"]
    case GetStudentGrades(s) => ["grades", "student", NatToString(s)]
    case UpdateGrade(s, j, _) => ["grades", "student", NatToString(s), "subject", NatToString(j)]
    case GetAllSubjects => ["subjects"]
    case CreateSubject(_) => ["subjects"]
    case DeleteSubject(j) => ["subjects", NatToString(j)]
    case CreateUser(_, _, _, _, _) => ["users"]
    case GetAllUsers => ["users"]
    case DeleteUser(u) => ["users", NatToString(u)]
  }

  /** The path of each call relative to `API_URL`. */
  function PathOf(c: Call): string {
    JoinPath(PathSegments(c))
  }

  function BodyOf(c: Call): Body {
    match c
    case Login(u, p) => Object([("username", JString(u)), ("password", JString(p))])
    case UpdateGrade(_, _, v) => Object([("grade_value", if v.Some? then JString(v.value) else JNull)])
    case CreateSubject(name) => Object([("subject_name", JString(name))])
    case CreateUser(f, e, r, u, p) =>
      Object([("full_name", JString(f)), ("email", JString(e)), ("role", JString(r)),
              ("username", JString(u)), ("password", JString(p))])
    case _ => NoBody
  }

  /** The backend handler each call is meant for. */
  function Target(c: Call): Route {
    match c
    case Login(_, _) => LoginRoute
    case GetAllStudents => StudentsRoute
    case GetMyGrades => MyGradesRoute
    case GetStudentGrades(s) => StudentGradesRoute(s)
    case UpdateGrade(s, j, _) => UpdateGradeRoute(s, j)
    case GetAllSubjects => SubjectsRoute
    case CreateSubject(_) => AddSubjectRoute
    case DeleteSubject(j) => RemoveSubjectRoute(j)
    case CreateUser(_, _, _, _, _) => CreateUserRoute
    case GetAllUsers => UsersRoute
    case DeleteUser(u) => DeleteUserRoute(u)
  }

  /** The template strings of the calls that carry ids: `/grades/student/${studentId}`, ... */
  lemma StudentGradesTemplate(studentId: nat)
    ensures PathOf(GetStudentGrades(studentId)) == "/grades/student/" + NatToString(studentId)
  {
    JoinPathOfThree("grades", "student", NatToString(studentId));
  }

  /** ... `/grades/student/${studentId}/subject/${subjectId}`, ... */
  lemma UpdateGradeTemplate(studentId: nat, subjectId: nat, v: Option<string>)
    ensures PathOf(UpdateGrade(studentId, subjectId, v))
              == PathOf(GetStudentGrades(studentId)) + "/subject/" + NatToString(subjectId)
  {
    var a, b := NatToString(studentId), NatToString(subjectId);
    JoinPathAppend(["grades", "student", a], ["subject", b]);
    assert ["grades", "student", a] + ["subject", b] == ["grades", "student", a, "subject", b];
    JoinPathOfTwo("subject", b);
  }

  /** ... `/subjects/${subjectId}` and `/users/${userId}`. */
  lemma DeleteTemplates(subjectId: nat, userId: nat)
    ensures PathOf(DeleteSubject(subjectId)) == "/subjects/" + NatToString(subjectId)
    ensures PathOf(DeleteUser(userId)) == "/users/" + NatToString(userId)
  {
    JoinPathOfTwo("subjects", NatToString(subjectId));
    JoinPathOfTwo("users", NatToString(userId));
  }

  /** The grade update is sent as a PUT whose body holds the single field `grade_value`. */
  lemma GradeUpdateRequest(studentId: nat, subjectId: nat, v: Option<string>)
    ensures MethodOf(UpdateGrade(studentId, subjectId, v)) == Put
    ensures BodyOf(UpdateGrade(studentId, subjectId, v)).Object?
    ensures |BodyOf(UpdateGrade(studentId, subjectId, v)).fields| == 1
    ensures BodyOf(UpdateGrade(studentId, subjectId, v)).fields[0].0 == "grade_value"
  {
  }

  /** Each call's method and path reach the backend route it is meant for, with the same ids. */
  lemma CallReachesItsRoute(c: Call)
    ensures Dispatch(MethodOf(c), API_PREFIX + PathOf(c)) == Some(Target(c))
  {
    var segments := PathSegments(c);
    RouteIsPrefixed(c);
    JoinPathAppend(["api"], segments);
    assert JoinPath(["api"]) == API_PREFIX by {
      assert ["api"][1..] == [];
    }
    MethodIsRouteMethod(c);
    DispatchFindsEveryRoute(Target(c));
  }

  /** The route of each call declares the call's path behind the `/api` prefix. */
  lemma RouteIsPrefixed(c: Call)
    ensures RouteSegments(Target(c)) == ["api"] + PathSegments(c)
  {
  }

  /** Each call uses the method its route declares. */
  lemma MethodIsRouteMethod(c: Call)
    ensures MethodOf(c) == MethodOfRoute(Target(c))
  {
  }

  /** The single `localStorage` item the application uses. */
  class LocalStorage {
    var userId: Option<string>

    constructor ()
      ensures userId == None
    {
      userId := None;
    }
  }

  /** A request's query parameters object. */
  class Params {
    var entries: map<string, string>

    constructor (entries: map<string, string>)
      ensures this.entries == entries
    {
      this.entries := entries;
    }
  }

  /** The config object the interceptor receives: the request and its optional params. */
  class RequestConfig {
    const httpMethod: HttpMethod
    const url: string
    const body: Body
    var params: Params?

    constructor (c: Call)
      ensures httpMethod == MethodOf(c) && url == PathOf(c) && body == BodyOf(c) && params == null
    {
      httpMethod, url, body := MethodOf(c), PathOf(c), BodyOf(c);
      params := null;
    }
  }

  /** How a condition reads the stored item: truthy when present and not the empty string. */
  predicate IsTruthy(item: Option<string>) {
    item.Some? && item.value != ""
  }

  /** addUserId: with a stored id, the id is put into the existing params object (every other
      param kept) or into a new params object holding only it; without one, nothing changes. The
      config object itself is returned. */
  method AddUserId(config: RequestConfig, storage: LocalStorage) returns (r: RequestConfig)
    modifies config, config.params
    ensures r == config
    ensures !IsTruthy(storage.userId) ==>
              config.params == old(config.params) && (config.params != null ==> unchanged(config.params))
    ensures IsTruthy(storage.userId) && old(config.params) != null ==>
              config.params == old(config.params)
              && config.params.entries == old(config.params.entries)[USER_ID_KEY := storage.userId.value]
    ensures IsTruthy(storage.userId) && old(config.params) == null ==>
              config.params != null && fresh(config.params)
              && config.params.entries == map[USER_ID_KEY := storage.userId.value]
  {
    var item := storage.userId;
    if IsTruthy(item) && config.params != null {
      config.params.entries := config.params.entries[USER_ID_KEY := item.value];
    } else if IsTruthy(item) {
      config.params := new Params(map[USER_ID_KEY := item.value]);
    }
    r := config;
  }

  /** One call as it leaves the client: its config, passed through the interceptor. */
  method Send(c: Call, storage: LocalStorage) returns (config: RequestConfig)
    ensures fresh(config)
    ensures config.httpMethod == MethodOf(c) && config.url == PathOf(c) && config.body == BodyOf(c)
    ensures IsTruthy(storage.userId) ==>
              config.params != null && config.params.entries == map[USER_ID_KEY := storage.userId.value]
    ensures !IsTruthy(storage.userId) ==> config.params == null
  {
    config := new RequestConfig(c);
    config := AddUserId(config, storage);
  }
}
