/** The grade sheet editor (src/components/GradeEditor.jsx): it fetches one student's sheet when
    it opens, lets the user pick a letter per subject, and on save sends one update per row, in
    row order, stopping at the first update that fails. */
module GradeEditing {
  import opened Wrappers
  import opened Models
  import opened Client

  /** The values the grade selector offers: the empty choice and the letters A to F. */
  const GRADE_OPTIONS: seq<string> := ["", "A", "B", "C", "D", "E", "F"]

  /** The outcome message shown after a save. */
  datatype Notice = NoNotice | SavedNotice | SaveFailedNotice

  /** The rows after a selector change: the value of every row of that subject becomes the chosen
      text; the other rows are kept. */
  function ChangeGrade(rows: seq<GradeRow>, subjectId: nat, value: string): (r: seq<GradeRow>)
    ensures |r| == |rows|
    ensures forall i :: 0 <= i < |rows| ==>
              r[i].gradeId == rows[i].gradeId && r[i].subjectId == rows[i].subjectId
              && r[i].subjectName == rows[i].subjectName
    ensures forall i :: 0 <= i < |rows| && rows[i].subjectId == subjectId ==> r[i].gradeValue == Some(value)
    ensures forall i :: 0 <= i < |rows| && rows[i].subjectId != subjectId ==> r[i] == rows[i]
  {
    seq(|rows|, i requires 0 <= i < |rows| =>
      if rows[i].subjectId == subjectId then rows[i].(gradeValue := Some(value)) else rows[i])
  }

  /** Choosing twice for one subject: the later choice is what remains. */
  lemma LaterChangeWins(rows: seq<GradeRow>, subjectId: nat, first: string, second: string)
    ensures ChangeGrade(ChangeGrade(rows, subjectId, first), subjectId, second)
            == ChangeGrade(rows, subjectId, second)
  {
  }

  /** Changes for two different subjects do not interfere, in either order. */
  lemma ChangesCommute(rows: seq<GradeRow>, s1: nat, v1: string, s2: nat, v2: string)
    requires s1 != s2
    ensures ChangeGrade(ChangeGrade(rows, s1, v1), s2, v2) == ChangeGrade(ChangeGrade(rows, s2, v2), s1, v1)
  {
  }

  /** What a selector shows for a row: the stored value, or the empty choice for none (and for an
      empty text). */
  function SelectedValue(row: GradeRow): (v: string)
    ensures row.gradeValue.None? ==> v == ""
    ensures row.gradeValue.Some? ==> v == row.gradeValue.value
  {
    if row.gradeValue.Some? then row.gradeValue.value else ""
  }

  /** After a choice, the selector of every row of that subject shows it. */
  lemma SelectorShowsChoice(rows: seq<GradeRow>, subjectId: nat, value: string, i: int)
    requires 0 <= i < |rows| && rows[i].subjectId == subjectId
    ensures SelectedValue(ChangeGrade(rows, subjectId, value)[i]) == value
  {
  }

  /** Every value the rows hold is one the selector offers. */
  predicate ValuesAreOptions(rows: seq<GradeRow>) {
    forall i :: 0 <= i < |rows| && rows[i].gradeValue.Some? ==> rows[i].gradeValue.value in GRADE_OPTIONS
  }

  /** A choice made through the selector keeps every value among the selector's options, and
      only a selector option can be what a row shows afterwards. */
  lemma ChangeKeepsOptions(rows: seq<GradeRow>, subjectId: nat, value: string)
    requires ValuesAreOptions(rows) && value in GRADE_OPTIONS
    ensures ValuesAreOptions(ChangeGrade(rows, subjectId, value))
    ensures forall i :: 0 <= i < |rows| ==> SelectedValue(ChangeGrade(rows, subjectId, value)[i]) in GRADE_OPTIONS
  {
    var r := ChangeGrade(rows, subjectId, value);
    forall i | 0 <= i < |rows| ensures SelectedValue(r[i]) in GRADE_OPTIONS {
      assert GRADE_OPTIONS[0] == "";
    }
  }

  /** The update requests for the given rows, in order. */
  function UpdateCalls(studentId: nat, rows: seq<GradeRow>): (calls: seq<Call>)
    ensures |calls| == |rows|
    ensures forall i :: 0 <= i < |rows| ==>
              calls[i] == UpdateGrade(studentId, rows[i].subjectId, rows[i].gradeValue)
  {
    seq(|rows|, i requires 0 <= i < |rows| => UpdateGrade(studentId, rows[i].subjectId, rows[i].gradeValue))
  }

  /** The position of the first of `n` requests the server refuses, or `n` when it accepts all. */
  function FirstFailure(n: nat, accepted: nat -> bool): (k: nat)
    ensures k <= n
    ensures forall j: nat :: j < k ==> accepted(j)
    ensures k < n ==> !accepted(k)
    decreases n
  {
    if n == 0 then 0
    else
      var k := FirstFailure(n - 1, accepted);
      if k < n - 1 then k else if accepted(n - 1) then n else n - 1
  }

  /** What the editor shows. */
  datatype SaveButton = SaveButton(caption: string, disabled: bool)
  datatype EditorScreen =
    | LoadingScreen
    /** The sheet could not be fetched: the render reads `data.student` of null and fails. */
    | RenderFailure
    | SheetScreen(studentName: string, values: seq<string>, save: Option<SaveButton>, selectorsEnabled: bool)

  function Render(loading: bool, data: Option<StudentGradesResponse>, saving: bool, readOnly: bool)
    : (screen: EditorScreen)
    ensures loading <==> screen == LoadingScreen
    ensures !loading && data.None? <==> screen == RenderFailure
    ensures screen.SheetScreen? ==>
              && screen.studentName == data.value.student.fullName
              && |screen.values| == |data.value.grades|
              && (forall i :: 0 <= i < |screen.values| ==> screen.values[i] == SelectedValue(data.value.grades[i]))
              && (screen.save.None? <==> readOnly)
              && (screen.save.Some? ==> screen.save.value.disabled == saving)
              && screen.selectorsEnabled == !readOnly
  {
    if loading then LoadingScreen
    else if data.None? then RenderFailure
    else
      var rows := data.value.grades;
      SheetScreen(data.value.student.fullName,
                  seq(|rows|, i requires 0 <= i < |rows| => SelectedValue(rows[i])),
                  if readOnly then None else Some(SaveButton(if saving then "Saving..." else "Save Grades", saving)),
                  !readOnly)
  }

  class GradeEditor {
    const student: UserResponse
    const readOnly: bool
    var data: Option<StudentGradesResponse>
    var loading: bool
    var saving: bool
    /** Every request this editor has issued, in order. */
    var sent: seq<Call>
    var notice: Notice

    /** Mounting: nothing loaded yet, and the effect requests the student's sheet. */
    constructor (student: UserResponse, readOnly: bool)
      ensures this.student == student && this.readOnly == readOnly
      ensures data == None && loading && !saving && notice == NoNotice
      ensures sent == [GetStudentGrades(student.userId)]
    {
      this.student := student;
      this.readOnly := readOnly;
      data, loading, saving := None, true, false;
      sent := [GetStudentGrades(student.userId)];
      notice := NoNotice;
    }

    /** loadGrades completing: a received sheet is kept, a failed fetch leaves `data` as it was;
        either way loading is over. */
    method LoadGrades(response: Option<StudentGradesResponse>)
      modifies this
      ensures data == (if response.Some? then response else old(data))
      ensures !loading
      ensures saving == old(saving) && sent == old(sent) && notice == old(notice)
    {
      if response.Some? {
        data := response;
      }
      loading := false;
    }

    /** handleGradeChange: the rows of that subject take the chosen value; the student and the
        other rows are kept. */
    method HandleGradeChange(subjectId: nat, value: string)
      requires data.Some?
      modifies this
      ensures data == Some(old(data).value.(grades := ChangeGrade(old(data).value.grades, subjectId, value)))
      ensures loading == old(loading) && saving == old(saving) && sent == old(sent) && notice == old(notice)
    {
      data := Some(data.value.(grades := ChangeGrade(data.value.grades, subjectId, value)));
    }

    /** handleSave: one update per row in row order for this editor's student, stopping after the
        first refused one; the notice tells whether every update was accepted. Without a sheet
        the loop fails before any request and the save reports failure. Saving is over at the
        end either way. */
    method HandleSave(accepted: nat -> bool)
      modifies this
      ensures data == old(data) && loading == old(loading) && !saving
      ensures old(data).None? ==> sent == old(sent) && notice == SaveFailedNotice
      ensures old(data).Some? ==>
                var rows := old(data).value.grades;
                var k := FirstFailure(|rows|, accepted);
                && sent == old(sent) + UpdateCalls(student.userId, rows[..if k < |rows| then k + 1 else k])
                && (notice == SavedNotice <==> k == |rows|)
                && (notice == SaveFailedNotice <==> k < |rows|)
    {
      saving := true;
      if data.None? {
        notice := SaveFailedNotice;
        saving := false;
        return;
      }
      var rows := data.value.grades;
      var i := 0;
      var failed := false;
      while i < |rows| && !failed
        invariant 0 <= i <= |rows|
        invariant saving && data == old(data) && loading == old(loading)
        invariant sent == old(sent) + UpdateCalls(student.userId, rows[..i])
        invariant !failed ==> forall j: nat :: j < i ==> accepted(j)
        invariant failed ==> i >= 1 && FirstFailure(|rows|, accepted) == i - 1
      {
        sent := sent + [UpdateGrade(student.userId, rows[i].subjectId, rows[i].gradeValue)];
        assert rows[..i + 1] == rows[..i] + [rows[i]];
        if !accepted(i) {
          failed := true;
        }
        i := i + 1;
      }
      notice := if failed then SaveFailedNotice else SavedNotice;
      saving := false;
    }
  }
}
