/** The administrator's screens (src/components/AdminView.jsx): a dashboard, the student list with
    the grade editor, the subject list with its add form, and the user list with its add form.
    The add handlers send nothing for a blank form, the delete handlers nothing without a
    confirmation. */
module AdminPanel {
  import opened Wrappers
  import opened Constants
  import opened Models
  import opened Text
  import opened Client

  datatype AdminMode = Dashboard | Students | Subjects | Users | EditGrades | ViewGrades

  /** What the admin view shows. */
  datatype AdminScreen =
    | DashboardScreen
    | StudentListScreen
    | SubjectListScreen
    | UserListScreen
    | EditorScreen(student: UserResponse, readOnly: bool)

  /** The text inputs of the two add forms. */
  datatype FormField = SubjectNameField | FullNameField | UsernameField | PasswordField | EmailField

  /** The alert a handler ends with. */
  datatype Notice = NoNotice | Alert(message: string)

  /** The requests the view's effect sends when the mode becomes `mode`: each list is fetched on
      entering its own mode, and no other mode fetches anything. */
  function LoadOnEntry(mode: AdminMode): (calls: seq<Call>)
    ensures mode.Students? <==> calls == [GetAllStudents]
    ensures mode.Subjects? <==> calls == [GetAllSubjects]
    ensures mode.Users? <==> calls == [GetAllUsers]
    ensures (mode.Dashboard? || mode.EditGrades? || mode.ViewGrades?) <==> calls == []
  {
    match mode
    case Students => [GetAllStudents]
    case Subjects => [GetAllSubjects]
    case Users => [GetAllUsers]
    case _ => []
  }

  /** The render: the editor only in an edit mode with a selected student (read-only for
      `viewGrades`), each list in its own mode, and the dashboard in every other case. */
  function Render(mode: AdminMode, selected: Option<UserResponse>): (screen: AdminScreen)
    ensures screen.EditorScreen? <==> (mode.EditGrades? || mode.ViewGrades?) && selected.Some?
    ensures screen.EditorScreen? ==> screen.student == selected.value && (screen.readOnly <==> mode.ViewGrades?)
    ensures screen == StudentListScreen <==> mode.Students?
    ensures screen == SubjectListScreen <==> mode.Subjects?
    ensures screen == UserListScreen <==> mode.Users?
    ensures screen == DashboardScreen <==> mode.Dashboard? || ((mode.EditGrades? || mode.ViewGrades?) && selected.None?)
  {
    if mode == Users then UserListScreen
    else if mode == EditGrades && selected.Some? then EditorScreen(selected.value, false)
    else if mode == ViewGrades && selected.Some? then EditorScreen(selected.value, true)
    else if mode == Students then StudentListScreen
    else if mode == Subjects then SubjectListScreen
    else DashboardScreen
  }

  /** The guard of the user form: every text field has something besides whitespace. */
  predicate UserFormFilled(fullName: string, email: string, username: string, password: string) {
    Trim(fullName) != [] && Trim(email) != [] && Trim(username) != [] && Trim(password) != []
  }

  /** The form guard in terms of the fields themselves: a field passes exactly when it is not
      blank. */
  lemma UserFormFilledIffNotBlank(fullName: string, email: string, username: string, password: string)
    ensures UserFormFilled(fullName, email, username, password)
            <==> !IsBlank(fullName) && !IsBlank(email) && !IsBlank(username) && !IsBlank(password)
  {
    TrimEmptyIffBlank(fullName);
    TrimEmptyIffBlank(email);
    TrimEmptyIffBlank(username);
    TrimEmptyIffBlank(password);
  }

  class AdminView {
    var mode: AdminMode
    var selectedStudent: Option<UserResponse>
    var students: seq<UserResponse>
    var subjects: seq<Subject>
    var users: seq<UserResponse>
    var newSubject: string
    var newFullName: string
    var newUserName: string
    var newPassword: string
    var newUserEmail: string
    var newUserRole: string
    /** Every request the view has issued, in order. */
    var sent: seq<Call>
    var notice: Notice

    /** A student is selected exactly while the editor is open, and the role selector holds one
        of its options. */
    ghost predicate Valid()
      reads this
    {
      && ((mode.EditGrades? || mode.ViewGrades?) <==> selectedStudent.Some?)
      && newUserRole in ALL_ROLES
    }

    /** The three fetched lists. */
    ghost function Lists(): (seq<UserResponse>, seq<Subject>, seq<UserResponse>)
      reads this
    {
      (students, subjects, users)
    }

    /** The inputs of the user form: full name, username, password, email and role. */
    ghost function UserForm(): (string, string, string, string, string)
      reads this
    {
      (newFullName, newUserName, newPassword, newUserEmail, newUserRole)
    }

    constructor ()
      ensures Valid()
      ensures mode == Dashboard && selectedStudent == None
      ensures students == [] && subjects == [] && users == []
      ensures newSubject == "" && newFullName == "" && newUserName == "" && newPassword == "" && newUserEmail == ""
      ensures newUserRole == STUDENT && sent == [] && notice == NoNotice
    {
      mode, selectedStudent := Dashboard, None;
      students, subjects, users := [], [], [];
      newSubject, newFullName, newUserName, newPassword, newUserEmail := "", "", "", "", "";
      newUserRole := STUDENT;
      sent, notice := [], NoNotice;
    }

    /** A mode change, with the effect it triggers when the mode is a new one. */
    method Enter(next: AdminMode)
      modifies this
      ensures mode == next
      ensures sent == old(sent) + (if next != old(mode) then LoadOnEntry(next) else [])
      ensures selectedStudent == old(selectedStudent) && notice == old(notice)
      ensures students == old(students) && subjects == old(subjects) && users == old(users)
      ensures newSubject == old(newSubject) && newFullName == old(newFullName) && newUserName == old(newUserName)
      ensures newPassword == old(newPassword) && newUserEmail == old(newUserEmail) && newUserRole == old(newUserRole)
    {
      if next != mode {
        sent := sent + LoadOnEntry(next);
      }
      mode := next;
    }

    /** A dashboard card: the students, subjects or users screen, whose list is fetched on entry. */
    method OpenSection(section: AdminMode)
      requires Valid() && mode.Dashboard?
      requires section.Students? || section.Subjects? || section.Users?
      modifies this
      ensures Valid() && mode == section
      ensures sent == old(sent) + LoadOnEntry(section) && |sent| == |old(sent)| + 1
      ensures selectedStudent == old(selectedStudent) && notice == old(notice)
      ensures Lists() == old(Lists()) && newSubject == old(newSubject) && UserForm() == old(UserForm())
    {
      Enter(section);
    }

    /** The "Back" button of a list screen. */
    method BackToDashboard()
      requires Valid() && (mode.Students? || mode.Subjects? || mode.Users?)
      modifies this
      ensures Valid() && mode == Dashboard && Render(mode, selectedStudent) == DashboardScreen
      ensures sent == old(sent) && selectedStudent == old(selectedStudent) && notice == old(notice)
      ensures Lists() == old(Lists()) && newSubject == old(newSubject) && UserForm() == old(UserForm())
    {
      Enter(Dashboard);
    }

    /** "Edit Grades" or "View Grades" on a row of the student list. */
    method OpenEditor(student: UserResponse, readOnly: bool)
      requires Valid() && mode.Students?
      modifies this
      ensures Valid()
      ensures selectedStudent == Some(student) && mode == (if readOnly then ViewGrades else EditGrades)
      ensures Render(mode, selectedStudent) == EditorScreen(student, readOnly)
      ensures sent == old(sent) && notice == old(notice)
      ensures Lists() == old(Lists()) && newSubject == old(newSubject) && UserForm() == old(UserForm())
    {
      selectedStudent := Some(student);
      Enter(if readOnly then ViewGrades else EditGrades);
    }

    /** The editor's "Back": the selection is cleared and the student list, fetched again, is shown. */
    method LeaveEditor()
      requires Valid() && (mode.EditGrades? || mode.ViewGrades?)
      modifies this
      ensures Valid() && selectedStudent == None && mode == Students
      ensures Render(mode, selectedStudent) == StudentListScreen
      ensures sent == old(sent) + [GetAllStudents] && notice == old(notice)
      ensures Lists() == old(Lists()) && newSubject == old(newSubject) && UserForm() == old(UserForm())
    {
      selectedStudent := None;
      Enter(Students);
    }

    /** Typing into one of the text inputs. */
    method EditField(field: FormField, text: string)
      requires Valid()
      modifies this
      ensures Valid()
      ensures newSubject == (if field.SubjectNameField? then text else old(newSubject))
      ensures newFullName == (if field.FullNameField? then text else old(newFullName))
      ensures newUserName == (if field.UsernameField? then text else old(newUserName))
      ensures newPassword == (if field.PasswordField? then text else old(newPassword))
      ensures newUserEmail == (if field.EmailField? then text else old(newUserEmail))
      ensures newUserRole == old(newUserRole) && mode == old(mode) && selectedStudent == old(selectedStudent)
      ensures sent == old(sent) && notice == old(notice) && Lists() == old(Lists())
    {
      match field
      case SubjectNameField => newSubject := text;
      case FullNameField => newFullName := text;
      case UsernameField => newUserName := text;
      case PasswordField => newPassword := text;
      case EmailField => newUserEmail := text;
    }

    /** Picking an option of the role selector, which offers the three roles. */
    method SelectRole(role: string)
      requires Valid() && role in ALL_ROLES
      modifies this
      ensures Valid() && newUserRole == role
      ensures mode == old(mode) && selectedStudent == old(selectedStudent) && sent == old(sent)
      ensures notice == old(notice) && Lists() == old(Lists()) && newSubject == old(newSubject)
      ensures newFullName == old(newFullName) && newUserName == old(newUserName)
      ensures newPassword == old(newPassword) && newUserEmail == old(newUserEmail)
    {
      newUserRole := role;
    }

    /** handleAddSubject: a name that trims to nothing (see `TrimEmptyIffBlank`: one that is
        empty or all whitespace) sends nothing and changes nothing; otherwise the name, as
        typed, is posted; on success the input is cleared and the list fetched again. */
    method HandleAddSubject(accepted: bool)
      requires Valid()
      modifies this
      ensures Valid() && mode == old(mode) && selectedStudent == old(selectedStudent)
      ensures Trim(old(newSubject)) == [] ==> unchanged(this)
      ensures Lists() == old(Lists()) && UserForm() == old(UserForm())
      ensures Trim(old(newSubject)) != [] && accepted ==>
                sent == old(sent) + [CreateSubject(old(newSubject)), GetAllSubjects]
                && newSubject == "" && notice == Alert("Subject added successfully!")
      ensures Trim(old(newSubject)) != [] && !accepted ==>
                sent == old(sent) + [CreateSubject(old(newSubject))]
                && newSubject == old(newSubject) && notice == Alert("Failed to add subject")
    {
      if Trim(newSubject) == [] {
        return;
      }
      PostSubject(accepted);
    }

    /** The part of handleAddSubject after the guard. */
    method PostSubject(accepted: bool)
      requires Valid()
      modifies this
      ensures Valid() && mode == old(mode) && selectedStudent == old(selectedStudent)
      ensures accepted ==>
                sent == old(sent) + [CreateSubject(old(newSubject)), GetAllSubjects]
                && newSubject == "" && notice == Alert("Subject added successfully!")
      ensures !accepted ==>
                sent == old(sent) + [CreateSubject(old(newSubject))]
                && newSubject == old(newSubject) && notice == Alert("Failed to add subject")
      ensures Lists() == old(Lists()) && UserForm() == old(UserForm())
    {
      sent := sent + [CreateSubject(newSubject)];
      if accepted {
        newSubject := "";
        sent := sent + [GetAllSubjects];
        notice := Alert("Subject added successfully!");
      } else {
        notice := Alert("Failed to add subject");
      }
    }

    /** handleDeleteSubject: nothing is sent unless the deletion is confirmed; on success the
        list is fetched again. */
    method HandleDeleteSubject(subjectId: nat, confirmed: bool, accepted: bool)
      requires Valid()
      modifies this
      ensures Valid() && mode == old(mode) && selectedStudent == old(selectedStudent)
      ensures !confirmed ==> unchanged(this)
      ensures Lists() == old(Lists()) && newSubject == old(newSubject) && UserForm() == old(UserForm())
      ensures confirmed && accepted ==>
                sent == old(sent) + [DeleteSubject(subjectId), GetAllSubjects]
                && notice == Alert("Subject deleted successfully!")
      ensures confirmed && !accepted ==>
                sent == old(sent) + [DeleteSubject(subjectId)] && notice == Alert("Failed to delete subject")
    {
      if !confirmed {
        return;
      }
      sent := sent + [DeleteSubject(subjectId)];
      if accepted {
        sent := sent + [GetAllSubjects];
        notice := Alert("Subject deleted successfully!");
      } else {
        notice := Alert("Failed to delete subject");
      }
    }

    /** handleAddUser: unless all four text fields are filled, nothing is sent and nothing
        changes; otherwise the fields, as typed, and the selected role are posted; on success
        the form is cleared, the role goes back to student and the list is fetched again. */
    method HandleAddUser(accepted: bool)
      requires Valid()
      modifies this
      ensures Valid() && mode == old(mode) && selectedStudent == old(selectedStudent)
      ensures !old(UserFormFilled(newFullName, newUserEmail, newUserName, newPassword)) ==> unchanged(this)
      ensures Lists() == old(Lists())
      ensures old(UserFormFilled(newFullName, newUserEmail, newUserName, newPassword)) ==>
                sent == old(sent) + [CreateUser(old(newFullName), old(newUserEmail), old(newUserRole),
                                                old(newUserName), old(newPassword))]
                                  + (if accepted then [GetAllUsers] else [])
      ensures old(UserFormFilled(newFullName, newUserEmail, newUserName, newPassword)) && accepted ==>
                newFullName == "" && newUserEmail == "" && newUserName == "" && newPassword == ""
                && newUserRole == STUDENT && notice == Alert("User added successfully!")
      ensures old(UserFormFilled(newFullName, newUserEmail, newUserName, newPassword)) && !accepted ==>
                newFullName == old(newFullName) && newUserEmail == old(newUserEmail)
                && newUserName == old(newUserName) && newPassword == old(newPassword)
                && newUserRole == old(newUserRole) && notice == Alert("Failed to add user")
      ensures newSubject == old(newSubject)
    {
      if !UserFormFilled(newFullName, newUserEmail, newUserName, newPassword) {
        return;
      }
      PostUser(accepted);
    }

    /** The part of handleAddUser after the guard. */
    method PostUser(accepted: bool)
      requires Valid()
      modifies this
      ensures Valid() && mode == old(mode) && selectedStudent == old(selectedStudent)
      ensures sent == old(sent) + [CreateUser(old(newFullName), old(newUserEmail), old(newUserRole),
                                              old(newUserName), old(newPassword))]
                                + (if accepted then [GetAllUsers] else [])
      ensures accepted ==>
                newFullName == "" && newUserEmail == "" && newUserName == "" && newPassword == ""
                && newUserRole == STUDENT && notice == Alert("User added successfully!")
      ensures !accepted ==>
                newFullName == old(newFullName) && newUserEmail == old(newUserEmail)
                && newUserName == old(newUserName) && newPassword == old(newPassword)
                && newUserRole == old(newUserRole) && notice == Alert("Failed to add user")
      ensures newSubject == old(newSubject) && Lists() == old(Lists())
    {
      sent := sent + [CreateUser(newFullName, newUserEmail, newUserRole, newUserName, newPassword)];
      if accepted {
        newFullName, newUserEmail, newUserRole, newUserName, newPassword := "", "", STUDENT, "", "";
        sent := sent + [GetAllUsers];
        notice := Alert("User added successfully!");
      } else {
        notice := Alert("Failed to add user");
      }
    }

    /** handleDeleteUser: nothing is sent unless the deletion is confirmed; on success the list
        is fetched again before the alert; a failure reports the server's detail text. */
    method HandleDeleteUser(userId: nat, confirmed: bool, failure: Option<string>)
      requires Valid()
      modifies this
      ensures Valid() && mode == old(mode) && selectedStudent == old(selectedStudent)
      ensures !confirmed ==> unchanged(this)
      ensures Lists() == old(Lists()) && newSubject == old(newSubject) && UserForm() == old(UserForm())
      ensures confirmed && failure.None? ==>
                sent == old(sent) + [DeleteUser(userId), GetAllUsers] && notice == Alert("User deleted successfully!")
      ensures confirmed && failure.Some? ==>
                sent == old(sent) + [DeleteUser(userId)]
                && notice == Alert("Failed to delete user: " + failure.value)
    {
      if !confirmed {
        return;
      }
      sent := sent + [DeleteUser(userId)];
      if failure.None? {
        sent := sent + [GetAllUsers];
        notice := Alert("User deleted successfully!");
      } else {
        notice := Alert("Failed to delete user: " + failure.value);
      }
    }

    /** A list fetch completing: a received list replaces the shown one; a failure keeps it. */
    method StudentsLoaded(response: Option<seq<UserResponse>>)
      modifies this
      ensures students == (if response.Some? then response.value else old(students))
      ensures mode == old(mode) && selectedStudent == old(selectedStudent) && sent == old(sent)
      ensures subjects == old(subjects) && users == old(users)
      ensures notice == old(notice) && newSubject == old(newSubject) && UserForm() == old(UserForm())
    {
      if response.Some? {
        students := response.value;
      }
    }

    method SubjectsLoaded(response: Option<seq<Subject>>)
      modifies this
      ensures subjects == (if response.Some? then response.value else old(subjects))
      ensures mode == old(mode) && selectedStudent == old(selectedStudent) && sent == old(sent)
      ensures students == old(students) && users == old(users)
      ensures notice == old(notice) && newSubject == old(newSubject) && UserForm() == old(UserForm())
    {
      if response.Some? {
        subjects := response.value;
      }
    }

    method UsersLoaded(response: Option<seq<UserResponse>>)
      modifies this
      ensures users == (if response.Some? then response.value else old(users))
      ensures mode == old(mode) && selectedStudent == old(selectedStudent) && sent == old(sent)
      ensures students == old(students) && subjects == old(subjects)
      ensures notice == old(notice) && newSubject == old(newSubject) && UserForm() == old(UserForm())
    {
      if response.Some? {
        users := response.value;
      }
    }
  }
}
