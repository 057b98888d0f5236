/** The teacher's screens (src/components/TeacherView.jsx): a dashboard, the student list, and
    the grade editor opened on one student, editable or read-only. */
module TeacherPanel {
  import opened Wrappers
  import opened Models
  import opened Client

  datatype TeacherMode = Dashboard | Students | EditGrades | ViewGrades

  /** What the teacher view shows. */
  datatype TeacherScreen =
    | DashboardScreen
    | StudentListScreen
    | EditorScreen(student: UserResponse, readOnly: bool)

  /** The requests the view's effect sends when the mode becomes `mode`: the student list is
      fetched on entering `students`, and no other mode fetches anything. */
  function LoadOnEntry(mode: TeacherMode): (calls: seq<Call>)
    ensures mode == Students <==> calls == [GetAllStudents]
    ensures mode != Students <==> calls == []
  {
    if mode == Students then [GetAllStudents] else []
  }

  /** The render: the editor only in an edit mode with a selected student (read-only for
      `viewGrades`), the list in `students`, and the dashboard in every other case. */
  function Render(mode: TeacherMode, selected: Option<UserResponse>): (screen: TeacherScreen)
    ensures screen.EditorScreen? <==> (mode == EditGrades || mode == ViewGrades) && selected.Some?
    ensures screen.EditorScreen? ==> screen.student == selected.value && (screen.readOnly <==> mode == ViewGrades)
    ensures screen == StudentListScreen <==> mode == Students
    ensures screen == DashboardScreen <==> mode.Dashboard? || ((mode.EditGrades? || mode.ViewGrades?) && selected.None?)
  {
    if mode == EditGrades && selected.Some? then EditorScreen(selected.value, false)
    else if mode == ViewGrades && selected.Some? then EditorScreen(selected.value, true)
    else if mode == Students then StudentListScreen
    else DashboardScreen
  }

  class TeacherView {
    var mode: TeacherMode
    var selectedStudent: Option<UserResponse>
    var students: seq<UserResponse>
    /** Every request the view has issued, in order. */
    var sent: seq<Call>

    /** A student is selected exactly while the editor is open. */
    ghost predicate Valid()
      reads this
    {
      (mode == EditGrades || mode == ViewGrades) <==> selectedStudent.Some?
    }

    constructor ()
      ensures Valid()
      ensures mode == Dashboard && selectedStudent == None && students == [] && sent == []
      ensures Render(mode, selectedStudent) == DashboardScreen
    {
      mode, selectedStudent, students, sent := Dashboard, None, [], [];
    }

    /** A mode change, with the effect it triggers when the mode is a new one. */
    method Enter(next: TeacherMode)
      modifies this
      ensures mode == next
      ensures sent == old(sent) + (if next != old(mode) then LoadOnEntry(next) else [])
      ensures selectedStudent == old(selectedStudent) && students == old(students)
    {
      if next != mode {
        sent := sent + LoadOnEntry(next);
      }
      mode := next;
    }

    /** The "Manage Grades" card: the student list, fetched on entry. */
    method ShowStudents()
      requires Valid() && mode == Dashboard
      modifies this
      ensures Valid() && mode == Students && Render(mode, selectedStudent) == StudentListScreen
      ensures sent == old(sent) + [GetAllStudents]
      ensures selectedStudent == old(selectedStudent) && students == old(students)
    {
      Enter(Students);
    }

    /** The "Back" button of the student list. */
    method BackToDashboard()
      requires Valid() && mode == Students
      modifies this
      ensures Valid() && mode == Dashboard && Render(mode, selectedStudent) == DashboardScreen
      ensures sent == old(sent) && selectedStudent == old(selectedStudent) && students == old(students)
    {
      Enter(Dashboard);
    }

    /** "Edit Grades" or "View Grades" on a row: that student is selected and the editor opens,
        read-only for "View Grades"; no list is fetched. */
    method OpenEditor(student: UserResponse, readOnly: bool)
      requires Valid() && mode == Students
      modifies this
      ensures Valid()
      ensures selectedStudent == Some(student) && mode == (if readOnly then ViewGrades else EditGrades)
      ensures Render(mode, selectedStudent) == EditorScreen(student, readOnly)
      ensures sent == old(sent) && students == old(students)
    {
      selectedStudent := Some(student);
      Enter(if readOnly then ViewGrades else EditGrades);
    }

    /** The editor's "Back": the selection is cleared and the list, fetched again, is shown. */
    method LeaveEditor()
      requires Valid() && (mode == EditGrades || mode == ViewGrades)
      modifies this
      ensures Valid() && selectedStudent == None && mode == Students
      ensures Render(mode, selectedStudent) == StudentListScreen
      ensures sent == old(sent) + [GetAllStudents] && students == old(students)
    {
      selectedStudent := None;
      Enter(Students);
    }

    /** loadStudents completing: a received list replaces the shown one; a failure keeps it. */
    method StudentsLoaded(response: Option<seq<UserResponse>>)
      modifies this
      ensures students == (if response.Some? then response.value else old(students))
      ensures mode == old(mode) && selectedStudent == old(selectedStudent) && sent == old(sent)
    {
      if response.Some? {
        students := response.value;
      }
    }
  }
}
