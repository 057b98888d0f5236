/** The application root (src/App.jsx): the session user, the stored id that tags every request,
    and the choice of the screen by the user's role. */
module AppRoot {
  import opened Wrappers
  import opened Constants
  import opened Models
  import opened Text
  import opened Client

  /** What the root renders. */
  datatype Screen =
    | LoginScreen
    | StudentScreen(student: UserResponse)
    | TeacherScreen(teacher: UserResponse)
    | AdminScreen(admin: UserResponse)
    | NothingShown

  /** The render: the login page without a session user, otherwise the view of the user's role,
      and nothing for a role the client does not know. */
  function Render(user: Option<UserResponse>): (s: Screen)
    ensures s == LoginScreen <==> user.None?
    ensures s.StudentScreen? <==> user.Some? && user.value.role == STUDENT
    ensures s.TeacherScreen? <==> user.Some? && user.value.role == TEACHER
    ensures s.AdminScreen? <==> user.Some? && user.value.role == ADMIN
    ensures s == NothingShown <==> user.Some? && user.value.role !in ALL_ROLES
    ensures s.StudentScreen? ==> Some(s.student) == user
    ensures s.TeacherScreen? ==> Some(s.teacher) == user
    ensures s.AdminScreen? ==> Some(s.admin) == user
  {
    match user
    case None => LoginScreen
    case Some(u) =>
      if u.role == STUDENT then StudentScreen(u)
      else if u.role == TEACHER then TeacherScreen(u)
      else if u.role == ADMIN then AdminScreen(u)
      else NothingShown
  }

  /** The text `setItem` stores for an id is truthy and reads back on the server as that id. */
  lemma StoredIdReadsBack(id: nat)
    ensures IsTruthy(Some(NatToString(id)))
    ensures ParseNat(NatToString(id)) == Some(id)
  {
    ParseNatRoundTrip(id);
  }

  class App {
    var user: Option<UserResponse>
    const storage: LocalStorage

    constructor (storage: LocalStorage)
      ensures user == None && this.storage == storage
    {
      user := None;
      this.storage := storage;
    }

    /** handleLogin: the id is stored (as its decimal text) and the user becomes the session user. */
    method HandleLogin(userData: UserResponse)
      modifies this, storage
      ensures user == Some(userData)
      ensures storage.userId == Some(NatToString(userData.userId))
    {
      storage.userId := Some(NatToString(userData.userId));
      user := Some(userData);
    }

    /** handleLogout: the stored id is removed and the session ends, whatever the role was. */
    method HandleLogout()
      modifies this, storage
      ensures user == None && storage.userId == None
      ensures Render(user) == LoginScreen
    {
      storage.userId := None;
      user := None;
    }
  }

  /** A login followed by a call: the request carries the user's id as `user_id`, and the server
      reads it back as that id, so the call is made on behalf of the user who logged in. */
  method LoginThenCall(app: App, userData: UserResponse, c: Call) returns (config: RequestConfig)
    modifies app, app.storage
    ensures app.user == Some(userData)
    ensures config.httpMethod == MethodOf(c) && config.url == PathOf(c)
    ensures config.params != null && USER_ID_KEY in config.params.entries
    ensures ParseNat(config.params.entries[USER_ID_KEY]) == Some(userData.userId)
  {
    app.HandleLogin(userData);
    StoredIdReadsBack(userData.userId);
    config := Send(c, app.storage);
  }

  /** A logout followed by a call: the request carries no `user_id` at all. */
  method LogoutThenCall(app: App, c: Call) returns (config: RequestConfig)
    modifies app, app.storage
    ensures Render(app.user) == LoginScreen
    ensures config.params == null
  {
    app.HandleLogout();
    config := Send(c, app.storage);
  }
}
