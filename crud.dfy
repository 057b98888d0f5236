/** The table operations of backend/app/crud.py. Queries are filters over the tables, modelled
    as functions over sequences in table order; the operations that add, change or delete rows
    are methods of `Database`, which holds the three tables and the id counters the database
    would use for its auto-increment keys. */
module Crud {
  import opened Wrappers
  import opened Constants
  import opened Models

  // ---------------------------------------------------------------------------------------
  // Query building blocks

  /** `query.filter(p).all()`: the rows satisfying `p`, in table order. */
  function Filter<T(!new)>(s: seq<T>, p: T -> bool): (r: seq<T>)
    ensures |r| <= |s|
    ensures forall x :: x in r <==> x in s && p(x)
  {
    if s == [] then [] else (if p(s[0]) then [s[0]] else []) + Filter(s[1..], p)
  }

  /** Filtering keeps every satisfying row as often as the table holds it, and drops the rest. */
  lemma {:induction false} FilterCount<T(!new)>(s: seq<T>, p: T -> bool, x: T)
    ensures multiset(Filter(s, p))[x] == if p(x) then multiset(s)[x] else 0
  {
    if s != [] {
      assert s == [s[0]] + s[1..];
      FilterCount(s[1..], p, x);
    }
  }

  /** Filtering keeps the table order: of two kept rows, the earlier one comes first in the
      result. */
  lemma {:induction false} FilterKeepsOrder<T(!new)>(s: seq<T>, p: T -> bool, i: int, j: int)
    requires 0 <= i < j < |s| && p(s[i]) && p(s[j])
    ensures exists a, b :: 0 <= a < b < |Filter(s, p)| && Filter(s, p)[a] == s[i] && Filter(s, p)[b] == s[j]
  {
    var head := if p(s[0]) then [s[0]] else [];
    var rest := Filter(s[1..], p);
    assert Filter(s, p) == head + rest;
    if i == 0 {
      assert s[j] == s[1..][j - 1];
      assert s[j] in rest;
      var b :| 0 <= b < |rest| && rest[b] == s[j];
      assert Filter(s, p)[0] == s[0] && Filter(s, p)[b + 1] == s[j];
    } else {
      assert s[i] == s[1..][i - 1] && s[j] == s[1..][j - 1];
      FilterKeepsOrder(s[1..], p, i - 1, j - 1);
      var a, b :| 0 <= a < b < |rest| && rest[a] == s[i] && rest[b] == s[j];
      assert Filter(s, p)[|head| + a] == s[i] && Filter(s, p)[|head| + b] == s[j];
    }
  }

  /** `query.filter(p).first()`: the earliest row satisfying `p`, or `None`. */
  function First<T(!new)>(s: seq<T>, p: T -> bool): (r: Option<T>)
    ensures r.None? <==> forall x :: x in s ==> !p(x)
    ensures r.Some? ==> exists i :: 0 <= i < |s| && s[i] == r.value && p(s[i]) &&
                                    forall j :: 0 <= j < i ==> !p(s[j])
  {
    if s == [] then None
    else if p(s[0]) then Some(s[0])
    else
      var r := First(s[1..], p);
      assert r.Some? ==> exists i :: 0 <= i < |s[1..]| && s[1..][i] == r.value && p(s[1..][i]) &&
                                     forall j :: 0 <= j < i ==> !p(s[1..][j]);
      assert r.Some? ==> exists i :: 1 <= i < |s| && s[i] == r.value && p(s[i]) &&
                                     forall j :: 0 <= j < i ==> !p(s[j]);
      r
  }

  /** Filtering distributes over concatenation. */
  lemma {:induction false} FilterConcat<T(!new)>(a: seq<T>, b: seq<T>, p: T -> bool)
    ensures Filter(a + b, p) == Filter(a, p) + Filter(b, p)
  {
    if a == [] {
      assert a + b == b;
    } else {
      assert (a + b)[0] == a[0];
      assert (a + b)[1..] == a[1..] + b;
      FilterConcat(a[1..], b, p);
    }
  }

  /** Filtering keeps a unique key unique: deleting rows never breaks a key constraint. */
  lemma {:induction false} FilterKeepsDistinct<T(!new), K>(s: seq<T>, p: T -> bool, key: T -> K)
    requires KeysDistinct(s, key)
    ensures KeysDistinct(Filter(s, p), key)
  {
    if s != [] {
      assert KeysDistinct(s[1..], key) by {
        forall i, j | 0 <= i < j < |s[1..]| ensures key(s[1..][i]) != key(s[1..][j]) {
          assert s[1..][i] == s[i + 1] && s[1..][j] == s[j + 1];
        }
      }
      FilterKeepsDistinct(s[1..], p, key);
      var rest := Filter(s[1..], p);
      if p(s[0]) {
        var r := [s[0]] + rest;
        forall i, j | 0 <= i < j < |r| ensures key(r[i]) != key(r[j]) {
          if i == 0 {
            assert r[j] == rest[j - 1] && rest[j - 1] in rest;
            var k :| 0 <= k < |s[1..]| && s[1..][k] == r[j];
            assert s[k + 1] == r[j];
          } else {
            assert r[i] == rest[i - 1] && r[j] == rest[j - 1];
          }
        }
      }
    }
  }

  // ---------------------------------------------------------------------------------------
  // User lookups

  predicate MatchesCredentials(login: string, password: string, u: User) {
    (u.username == login || u.email == login) && u.password == password
  }

  /** get_user_by_credentials: a user whose username or email is `login` and whose password
      is `password`; the first such row when several match. */
  function UserByCredentials(users: seq<User>, login: string, password: string): (r: Option<User>)
    ensures r.Some? ==> r.value in users && (r.value.username == login || r.value.email == login)
                        && r.value.password == password
    ensures r.None? <==> forall u :: u in users ==>
                           !((u.username == login || u.email == login) && u.password == password)
  {
    First(users, u => MatchesCredentials(login, password, u))
  }

  /** get_user_by_email. */
  function UserByEmail(users: seq<User>, email: string): (r: Option<User>)
    ensures r.Some? ==> r.value in users && r.value.email == email
    ensures r.None? <==> forall u :: u in users ==> u.email != email
  {
    First(users, (u: User) => u.email == email)
  }

  /** The caller lookup every guarded endpoint starts with (`filter(User.user_id == user_id).first()`). */
  function UserById(users: seq<User>, id: int): (r: Option<User>)
    ensures r.Some? ==> r.value in users && r.value.userId == id
    ensures r.None? <==> !HasUser(users, id)
  {
    First(users, (u: User) => u.userId == id)
  }

  function IsStudent(u: User): bool { u.role == STUDENT }

  /** get_all_students: exactly the users whose role is `student`, in table order. */
  function AllStudents(users: seq<User>): (r: seq<User>)
    ensures forall u :: u in r <==> u in users && u.role == STUDENT
  {
    Filter(users, IsStudent)
  }

  /** get_all_students lists each student row exactly as often as the table holds it (once, since
      rows are distinct by id), and nothing else. */
  lemma AllStudentsCount(users: seq<User>, u: User)
    ensures multiset(AllStudents(users))[u] == if u.role == STUDENT then multiset(users)[u] else 0
  {
    FilterCount(users, IsStudent, u);
  }

  /** Under a unique user id, get_all_students lists no student twice. */
  lemma AllStudentsDistinct(users: seq<User>)
    requires KeysDistinct(users, UserIdOf)
    ensures KeysDistinct(AllStudents(users), UserIdOf)
  {
    FilterKeepsDistinct(users, IsStudent, UserIdOf);
  }

  /** get_all_students keeps the table order: of two students, the earlier one is listed first. */
  lemma AllStudentsKeepsOrder(users: seq<User>, i: int, j: int)
    requires 0 <= i < j < |users| && users[i].role == STUDENT && users[j].role == STUDENT
    ensures exists a, b :: 0 <= a < b < |AllStudents(users)| && AllStudents(users)[a] == users[i]
                                                             && AllStudents(users)[b] == users[j]
  {
    assert AllStudents(users) == Filter(users, IsStudent);
    FilterKeepsOrder(users, IsStudent, i, j);
  }

  /** get_student_by_id: the user with this id, provided that user is a student. */
  function StudentById(users: seq<User>, id: int): (r: Option<User>)
    ensures r.Some? ==> r.value in users && r.value.userId == id && r.value.role == STUDENT
    ensures r.None? <==> forall u :: u in users ==> !(u.userId == id && u.role == STUDENT)
  {
    First(users, (u: User) => u.userId == id && IsStudent(u))
  }

  /** Under a unique user id, the student lookup finds nothing exactly when the id is unknown
      or belongs to an admin or a teacher. */
  lemma StudentByIdNoneWhenNotStudent(users: seq<User>, id: int)
    requires KeysDistinct(users, UserIdOf)
    ensures StudentById(users, id).None? <==>
              UserById(users, id).None? || UserById(users, id).value.role != STUDENT
  {
    if StudentById(users, id).Some? {
      DistinctKeyDeterminesRow(users, UserIdOf, StudentById(users, id).value, UserById(users, id).value);
    }
  }

  // ---------------------------------------------------------------------------------------
  // The grade sheet of one student

  function IsGradeOf(studentId: int, g: Grade): bool { g.studentId == studentId }

  /** `filter(Grade.student_id == student_id).all()`. */
  function GradesOf(grades: seq<Grade>, studentId: int): (r: seq<Grade>)
    ensures forall g :: g in r <==> g in grades && g.studentId == studentId
  {
    Filter(grades, g => IsGradeOf(studentId, g))
  }

  /** The student's rows are kept as often as the table holds them, and no other row is. */
  lemma GradesOfCount(grades: seq<Grade>, studentId: int, g: Grade)
    ensures multiset(GradesOf(grades, studentId))[g] == if g.studentId == studentId then multiset(grades)[g] else 0
  {
    FilterCount(grades, g => IsGradeOf(studentId, g), g);
  }

  /** Under a unique grade id, the student's rows hold no grade id twice. */
  lemma GradesOfDistinct(grades: seq<Grade>, studentId: int)
    requires KeysDistinct(grades, GradeIdOf)
    ensures KeysDistinct(GradesOf(grades, studentId), GradeIdOf)
  {
    FilterKeepsDistinct(grades, g => IsGradeOf(studentId, g), GradeIdOf);
  }

  /** The student's rows keep the table order, which is the order the last-row-wins dicts of
      get_student_grades are built in. */
  lemma GradesOfKeepsOrder(grades: seq<Grade>, studentId: int, i: int, j: int)
    requires 0 <= i < j < |grades| && grades[i].studentId == studentId && grades[j].studentId == studentId
    ensures exists a, b :: 0 <= a < b < |GradesOf(grades, studentId)| && GradesOf(grades, studentId)[a] == grades[i]
                                                                      && GradesOf(grades, studentId)[b] == grades[j]
  {
    var p := g => IsGradeOf(studentId, g);
    assert GradesOf(grades, studentId) == Filter(grades, p);
    FilterKeepsOrder(grades, p, i, j);
  }

  /** The position of the LAST row for `subjectId`, or -1 when there is none. */
  function LatestIndex(gs: seq<Grade>, subjectId: nat): (k: int)
    ensures -1 <= k < |gs|
    ensures k >= 0 ==> gs[k].subjectId == subjectId
    ensures forall j :: k < j < |gs| ==> gs[j].subjectId != subjectId
    decreases |gs|
  {
    if gs == [] then -1
    else if gs[|gs| - 1].subjectId == subjectId then |gs| - 1
    else LatestIndex(gs[..|gs| - 1], subjectId)
  }

  /** What `{g.subject_id: ... for g in grades}` keeps for one subject: the last row for it,
      since a later entry of a dict comprehension overwrites an earlier one. */
  function LatestFor(gs: seq<Grade>, subjectId: nat): (r: Option<Grade>)
    ensures r.None? <==> forall g :: g in gs ==> g.subjectId != subjectId
    ensures r.Some? ==> r.value in gs && r.value.subjectId == subjectId
    ensures r.Some? ==> exists k :: 0 <= k < |gs| && gs[k] == r.value
                                    && forall j :: k < j < |gs| ==> gs[j].subjectId != subjectId
  {
    var k := LatestIndex(gs, subjectId);
    if k < 0 then None else Some(gs[k])
  }

  /** The row the loop appends for one subject, given the student's grade rows. */
  function RowFor(s: Subject, mine: seq<Grade>): GradeRow {
    var g := LatestFor(mine, s.subjectId);
    GradeRow(if g.Some? then Some(g.value.gradeId) else None,
             s.subjectId, s.subjectName,
             if g.Some? then g.value.gradeValue else None)
  }

  /** The value of get_student_grades: one row per subject, in subject order. */
  function StudentGrades(subjects: seq<Subject>, grades: seq<Grade>, studentId: int): seq<GradeRow> {
    var mine := GradesOf(grades, studentId);
    seq(|subjects|, i requires 0 <= i < |subjects| => RowFor(subjects[i], mine))
  }

  /** What each row of the sheet says: the subject in position `i`, and either the id and value
      of a stored grade of THIS student for that subject, or no grade at all when there is none. */
  lemma StudentGradesRow(subjects: seq<Subject>, grades: seq<Grade>, studentId: int, i: int)
    requires 0 <= i < |subjects|
    ensures |StudentGrades(subjects, grades, studentId)| == |subjects|
    ensures var row := StudentGrades(subjects, grades, studentId)[i];
            && row.subjectId == subjects[i].subjectId
            && row.subjectName == subjects[i].subjectName
            && (row.gradeId.None? <==>
                  forall g :: g in grades ==> !(g.studentId == studentId && g.subjectId == subjects[i].subjectId))
            && (row.gradeId.None? ==> row.gradeValue.None?)
            && (row.gradeId.Some? ==>
                  exists g :: g in grades && g.gradeId == row.gradeId.value && g.studentId == studentId
                              && g.subjectId == subjects[i].subjectId && g.gradeValue == row.gradeValue)
  {
  }

  /** With at most one row per pair, the sheet shows exactly the stored row of the pair. */
  lemma SheetShowsStoredGrade(subjects: seq<Subject>, grades: seq<Grade>, k: int, g: Grade)
    requires OneGradePerPair(grades)
    requires g in grades && 0 <= k < |subjects| && subjects[k].subjectId == g.subjectId
    ensures StudentGrades(subjects, grades, g.studentId)[k].gradeId == Some(g.gradeId)
    ensures StudentGrades(subjects, grades, g.studentId)[k].gradeValue == g.gradeValue
  {
    var latest := LatestFor(GradesOf(grades, g.studentId), g.subjectId);
    assert g in GradesOf(grades, g.studentId);
    DistinctKeyDeterminesRow(grades, PairOf, latest.value, g);
  }

  lemma {:induction false} FilterNone<T(!new)>(s: seq<T>, p: T -> bool)
    requires forall x :: x in s ==> !p(x)
    ensures Filter(s, p) == []
  {
    if s != [] {
      assert s[0] in s;
      FilterNone(s[1..], p);
    }
  }

  /** Grade rows of other students never influence a student's sheet, wherever they sit. */
  lemma OtherStudentsIgnored(subjects: seq<Subject>, a: seq<Grade>, others: seq<Grade>, b: seq<Grade>,
                             studentId: int)
    requires forall g :: g in others ==> g.studentId != studentId
    ensures StudentGrades(subjects, a + others + b, studentId) == StudentGrades(subjects, a + b, studentId)
  {
    var p := g => IsGradeOf(studentId, g);
    FilterConcat(a + others, b, p);
    FilterConcat(a, others, p);
    FilterConcat(a, b, p);
    FilterNone(others, p);
    assert GradesOf(a + others + b, studentId) == GradesOf(a + b, studentId);
  }

  /** The two dict comprehensions of get_student_grades, keyed by subject id: for every subject
      with a row among `mine`, the id and the value of its last row. */
  method GradeDicts(mine: seq<Grade>) returns (gradeDict: map<nat, Option<string>>, gradeIdDict: map<nat, nat>)
    ensures gradeDict.Keys == gradeIdDict.Keys
    ensures forall sid :: sid in gradeIdDict <==> LatestFor(mine, sid).Some?
    ensures forall sid :: sid in gradeIdDict ==>
              gradeIdDict[sid] == LatestFor(mine, sid).value.gradeId &&
              gradeDict[sid] == LatestFor(mine, sid).value.gradeValue
  {
    gradeDict, gradeIdDict := map[], map[];
    var k := 0;
    while k < |mine|
      invariant 0 <= k <= |mine|
      invariant gradeDict.Keys == gradeIdDict.Keys
      invariant forall sid :: sid in gradeIdDict <==> LatestIndex(mine[..k], sid) >= 0
      invariant forall sid :: sid in gradeIdDict ==>
                  gradeIdDict[sid] == mine[LatestIndex(mine[..k], sid)].gradeId &&
                  gradeDict[sid] == mine[LatestIndex(mine[..k], sid)].gradeValue
    {
      var g := mine[k];
      assert mine[..k + 1][..k] == mine[..k];
      assert mine[..k + 1][k] == g;
      gradeDict := gradeDict[g.subjectId := g.gradeValue];
      gradeIdDict := gradeIdDict[g.subjectId := g.gradeId];
      k := k + 1;
    }
    assert mine[..k] == mine;
  }

  /** get_student_grades, as the source computes it: the dict comprehensions over the student's
      rows, then an append loop over the subjects. */
  method GetStudentGrades(subjects: seq<Subject>, grades: seq<Grade>, studentId: int)
    returns (result: seq<GradeRow>)
    ensures result == StudentGrades(subjects, grades, studentId)
  {
    var mine := GradesOf(grades, studentId);
    var gradeDict, gradeIdDict := GradeDicts(mine);
    result := [];
    for i := 0 to |subjects|
      invariant |result| == i
      invariant forall j :: 0 <= j < i ==> result[j] == RowFor(subjects[j], mine)
    {
      var s := subjects[i];
      var row := GradeRow(if s.subjectId in gradeIdDict then Some(gradeIdDict[s.subjectId]) else None,
                          s.subjectId, s.subjectName,
                          if s.subjectId in gradeDict then gradeDict[s.subjectId] else None);
      assert row == RowFor(s, mine);
      result := result + [row];
    }
  }

  // ---------------------------------------------------------------------------------------
  // Row removal (delete_user, delete_subject and the ON DELETE CASCADE of both foreign keys)

  /** `users` without the row whose id is `id`. */
  function WithoutUser(users: seq<User>, id: int): (r: seq<User>)
    ensures forall u :: u in r <==> u in users && u.userId != id
  {
    Filter(users, (u: User) => u.userId != id)
  }

  /** `grades` without the rows of student `id` (the cascade of `grades.student_id`). */
  function WithoutStudentGrades(grades: seq<Grade>, id: int): (r: seq<Grade>)
    ensures forall g :: g in r <==> g in grades && g.studentId != id
  {
    Filter(grades, (g: Grade) => g.studentId != id)
  }

  /** `subjects` without the row whose id is `id`. */
  function WithoutSubject(subjects: seq<Subject>, id: int): (r: seq<Subject>)
    ensures forall s :: s in r <==> s in subjects && s.subjectId != id
  {
    Filter(subjects, (s: Subject) => s.subjectId != id)
  }

  /** `grades` without the rows of subject `id` (the cascade of `grades.subject_id`). */
  function WithoutSubjectGrades(grades: seq<Grade>, id: int): (r: seq<Grade>)
    ensures forall g :: g in r <==> g in grades && g.subjectId != id
  {
    Filter(grades, (g: Grade) => g.subjectId != id)
  }

  /** Once a student's rows are gone, that student's sheet lists every subject with no grade. */
  lemma SheetEmptyAfterCascade(subjects: seq<Subject>, grades: seq<Grade>, id: int, k: int)
    requires 0 <= k < |subjects|
    ensures StudentGrades(subjects, WithoutStudentGrades(grades, id), id)[k].gradeId.None?
    ensures StudentGrades(subjects, WithoutStudentGrades(grades, id), id)[k].gradeValue.None?
  {
    StudentGradesRow(subjects, WithoutStudentGrades(grades, id), id, k);
  }

  // ---------------------------------------------------------------------------------------
  // The grade upsert

  predicate IsPairRow(studentId: int, subjectId: int, g: Grade) {
    g.studentId == studentId && g.subjectId == subjectId
  }

  /** The position of the row `update_grade`'s `.first()` finds for the pair, or `|grades|`
      when there is none. */
  function PairIndex(grades: seq<Grade>, studentId: int, subjectId: int): (i: nat)
    ensures i <= |grades|
    ensures i < |grades| ==> IsPairRow(studentId, subjectId, grades[i])
    ensures forall j :: 0 <= j < i ==> !IsPairRow(studentId, subjectId, grades[j])
  {
    if grades == [] then 0
    else if IsPairRow(studentId, subjectId, grades[0]) then 0
    else 1 + PairIndex(grades[1..], studentId, subjectId)
  }

  /** Overwriting a value keeps every (student, subject) pair, so it keeps the pairs unique,
      and the sheet then shows the new value for that subject. */
  lemma {:induction false} ReadAfterUpdate(subjects: seq<Subject>, grades: seq<Grade>, i: int,
                                           value: Option<string>, k: int)
    requires OneGradePerPair(grades)
    requires 0 <= i < |grades| && 0 <= k < |subjects| && subjects[k].subjectId == grades[i].subjectId
    ensures OneGradePerPair(grades[i := grades[i].(gradeValue := value)])
    ensures var sheet := StudentGrades(subjects, grades[i := grades[i].(gradeValue := value)], grades[i].studentId);
            sheet[k].gradeId == Some(grades[i].gradeId) && sheet[k].gradeValue == value
  {
    var updated := grades[i := grades[i].(gradeValue := value)];
    assert forall j :: 0 <= j < |grades| ==> PairOf(updated[j]) == PairOf(grades[j]);
    assert updated[i] in updated;
    SheetShowsStoredGrade(subjects, updated, k, updated[i]);
  }

  /** Appending a row for a pair that had none keeps the pairs unique, and the sheet then shows
      the new row for that subject. */
  lemma {:induction false} ReadAfterInsert(subjects: seq<Subject>, grades: seq<Grade>, g: Grade, k: int)
    requires OneGradePerPair(grades)
    requires forall h :: h in grades ==> PairOf(h) != PairOf(g)
    requires 0 <= k < |subjects| && subjects[k].subjectId == g.subjectId
    ensures OneGradePerPair(grades + [g])
    ensures var sheet := StudentGrades(subjects, grades + [g], g.studentId);
            sheet[k].gradeId == Some(g.gradeId) && sheet[k].gradeValue == g.gradeValue
  {
    var added := grades + [g];
    forall i, j | 0 <= i < j < |added| ensures PairOf(added[i]) != PairOf(added[j]) {
      if j == |grades| {
        assert added[i] == grades[i] && grades[i] in grades;
      } else {
        assert added[i] == grades[i] && added[j] == grades[j];
      }
    }
    assert added[|grades|] == g;
    SheetShowsStoredGrade(subjects, added, k, g);
  }

  // ---------------------------------------------------------------------------------------
  // The database session: the tables, changed in place

  /** A constraint the database refuses a new row for. */
  datatype DbError = DuplicateUsername | DuplicateEmail | InvalidRole | UnknownStudent | UnknownSubject

  predicate UsernameTaken(users: seq<User>, username: string) {
    exists u :: u in users && u.username == username
  }

  class Database {
    var users: seq<User>
    var subjects: seq<Subject>
    var grades: seq<Grade>
    /** The next value of each auto-increment primary key. */
    var nextUserId: nat
    var nextSubjectId: nat
    var nextGradeId: nat

    /** The schema's constraints hold and every key is below its auto-increment counter. */
    ghost predicate Valid()
      reads this
    {
      && TablesValid(users, subjects, grades)
      && (forall u :: u in users ==> u.userId < nextUserId)
      && (forall s :: s in subjects ==> s.subjectId < nextSubjectId)
      && (forall g :: g in grades ==> g.gradeId < nextGradeId)
    }

    constructor ()
      ensures Valid()
      ensures users == [] && subjects == [] && grades == []
    {
      users, subjects, grades := [], [], [];
      nextUserId, nextSubjectId, nextGradeId := 1, 1, 1;
    }

    /** create_user: one new row carrying the given fields under a fresh id, unless the role is
        outside the enumeration or the username or email is already taken, in which case the
        database refuses the insert and nothing changes. */
    method CreateUser(fullName: string, email: string, role: string, username: string, password: string)
      returns (r: Result<User, DbError>)
      requires Valid()
      modifies this
      ensures Valid()
      ensures subjects == old(subjects) && grades == old(grades)
      ensures nextSubjectId == old(nextSubjectId) && nextGradeId == old(nextGradeId)
      ensures r.Failure? <==> role !in ALL_ROLES || UsernameTaken(old(users), username)
                              || UserByEmail(old(users), email).Some?
      ensures r.Failure? ==> unchanged(this)
      ensures role !in ALL_ROLES ==> r == Failure(InvalidRole)
      ensures role in ALL_ROLES && UsernameTaken(old(users), username) ==> r == Failure(DuplicateUsername)
      ensures role in ALL_ROLES && !UsernameTaken(old(users), username) && UserByEmail(old(users), email).Some? ==>
                r == Failure(DuplicateEmail)
      ensures r.Success? ==> r.value == User(old(nextUserId), username, password, fullName, email, role)
                             && users == old(users) + [r.value] && nextUserId == old(nextUserId) + 1
    {
      if role !in ALL_ROLES {
        return Failure(InvalidRole);
      }
      if UsernameTaken(users, username) {
        return Failure(DuplicateUsername);
      }
      if UserByEmail(users, email).Some? {
        return Failure(DuplicateEmail);
      }
      var u := User(nextUserId, username, password, fullName, email, role);
      AppendKeepsDistinct(users, u, UserIdOf);
      AppendKeepsDistinct(users, u, UsernameOf);
      AppendKeepsDistinct(users, u, EmailOf);
      users := users + [u];
      nextUserId := nextUserId + 1;
      r := Success(u);
    }

    /** delete_user: reports whether a user with this id existed; if so that user and, by the
        cascade, all of that user's grade rows are gone, and every other row is kept. */
    method DeleteUser(userId: int) returns (found: bool)
      requires Valid()
      modifies this
      ensures Valid()
      ensures found <==> old(HasUser(users, userId))
      ensures subjects == old(subjects)
      ensures nextUserId == old(nextUserId) && nextSubjectId == old(nextSubjectId) && nextGradeId == old(nextGradeId)
      ensures !found ==> unchanged(this)
      ensures found ==> users == WithoutUser(old(users), userId)
                        && grades == WithoutStudentGrades(old(grades), userId)
      ensures !HasUser(users, userId) && forall g :: g in grades ==> g.studentId != userId
      ensures OneGradePerPair(old(grades)) ==> OneGradePerPair(grades)
    {
      var user := UserById(users, userId);
      if user.None? {
        return false;
      }
      DeleteUserKeepsValid(users, subjects, grades, userId);
      if OneGradePerPair(grades) {
        FilterKeepsDistinct(grades, (g: Grade) => g.studentId != userId, PairOf);
      }
      users := WithoutUser(users, userId);
      grades := WithoutStudentGrades(grades, userId);
      found := true;
    }

    /** update_grade: when a row for the pair exists, the first such row gets the new value and
        nothing is added; otherwise one new row is appended, which the foreign keys refuse when
        the student or the subject does not exist. Afterwards the pair has the new value. */
    method UpdateGrade(studentId: int, subjectId: int, value: Option<string>) returns (r: Result<Grade, DbError>)
      requires Valid()
      modifies this
      ensures Valid()
      ensures users == old(users) && subjects == old(subjects)
      ensures nextUserId == old(nextUserId) && nextSubjectId == old(nextSubjectId)
      ensures var i := old(PairIndex(grades, studentId, subjectId));
              i < |old(grades)| ==>
                && r == Success(old(grades)[i].(gradeValue := value))
                && grades == old(grades)[i := r.value]
                && nextGradeId == old(nextGradeId)
      ensures var i := old(PairIndex(grades, studentId, subjectId));
              i == |old(grades)| && !HasUser(users, studentId) ==>
                r == Failure(UnknownStudent) && grades == old(grades) && nextGradeId == old(nextGradeId)
      ensures var i := old(PairIndex(grades, studentId, subjectId));
              i == |old(grades)| && HasUser(users, studentId) && !HasSubject(subjects, subjectId) ==>
                r == Failure(UnknownSubject) && grades == old(grades) && nextGradeId == old(nextGradeId)
      ensures var i := old(PairIndex(grades, studentId, subjectId));
              i == |old(grades)| && HasUser(users, studentId) && HasSubject(subjects, subjectId) ==>
                && r.Success? && r.value == Grade(old(nextGradeId), r.value.studentId, r.value.subjectId, value)
                && grades == old(grades) + [r.value] && nextGradeId == old(nextGradeId) + 1
      ensures r.Failure? ==> unchanged(this)
      ensures r.Success? ==> r.value in grades && IsPairRow(studentId, subjectId, r.value)
                             && r.value.gradeValue == value
      ensures OneGradePerPair(old(grades)) ==> OneGradePerPair(grades)
    {
      var i := PairIndex(grades, studentId, subjectId);
      if i < |grades| {
        var g := grades[i].(gradeValue := value);
        SetValueKeepsValid(users, subjects, grades, i, value);
        grades := grades[i := g];
        assert grades[i] == g;
        return Success(g);
      }
      if !HasUser(users, studentId) {
        return Failure(UnknownStudent);
      }
      if !HasSubject(subjects, subjectId) {
        return Failure(UnknownSubject);
      }
      var g := InsertGrade(studentId, subjectId, value);
      r := Success(g);
    }

    /** The insert branch of update_grade: a new row for a pair that has none, for an existing
        student and subject, under a fresh id. */
    method InsertGrade(studentId: int, subjectId: int, value: Option<string>) returns (g: Grade)
      requires Valid()
      requires HasUser(users, studentId) && HasSubject(subjects, subjectId)
      requires PairIndex(grades, studentId, subjectId) == |grades|
      modifies this
      ensures Valid()
      ensures users == old(users) && subjects == old(subjects)
      ensures nextUserId == old(nextUserId) && nextSubjectId == old(nextSubjectId)
      ensures g.gradeId == old(nextGradeId) && g.studentId == studentId && g.subjectId == subjectId
      ensures g.gradeValue == value
      ensures grades == old(grades) + [g] && nextGradeId == old(nextGradeId) + 1
      ensures OneGradePerPair(old(grades)) ==> OneGradePerPair(grades)
    {
      var owner :| owner in users && owner.userId == studentId;
      var subject :| subject in subjects && subject.subjectId == subjectId;
      g := Grade(nextGradeId, owner.userId, subject.subjectId, value);
      forall h | h in grades ensures PairOf(h) != PairOf(g) {
        var j :| 0 <= j < |grades| && grades[j] == h;
      }
      InsertGradeKeepsValid(users, subjects, grades, g);
      grades := grades + [g];
      nextGradeId := nextGradeId + 1;
    }

    /** create_subject: one new row with the given name under a fresh id. */
    method CreateSubject(subjectName: string) returns (s: Subject)
      requires Valid()
      modifies this
      ensures Valid()
      ensures s == Subject(old(nextSubjectId), subjectName) && subjects == old(subjects) + [s]
      ensures nextSubjectId == old(nextSubjectId) + 1
      ensures users == old(users) && grades == old(grades)
      ensures nextUserId == old(nextUserId) && nextGradeId == old(nextGradeId)
    {
      s := Subject(nextSubjectId, subjectName);
      AppendKeepsDistinct(subjects, s, SubjectIdOf);
      subjects := subjects + [s];
      nextSubjectId := nextSubjectId + 1;
    }

    /** delete_subject: reports whether a subject with this id existed; if so that subject and,
        by the cascade, every grade row for it are gone, and every other row is kept. */
    method DeleteSubject(subjectId: int) returns (found: bool)
      requires Valid()
      modifies this
      ensures Valid()
      ensures found <==> old(HasSubject(subjects, subjectId))
      ensures users == old(users)
      ensures nextUserId == old(nextUserId) && nextSubjectId == old(nextSubjectId) && nextGradeId == old(nextGradeId)
      ensures !found ==> unchanged(this)
      ensures found ==> subjects == WithoutSubject(old(subjects), subjectId)
                        && grades == WithoutSubjectGrades(old(grades), subjectId)
      ensures !HasSubject(subjects, subjectId) && forall g :: g in grades ==> g.subjectId != subjectId
      ensures OneGradePerPair(old(grades)) ==> OneGradePerPair(grades)
    {
      var subject := First(subjects, (s: Subject) => s.subjectId == subjectId);
      if subject.None? {
        return false;
      }
      DeleteSubjectKeepsValid(users, subjects, grades, subjectId);
      if OneGradePerPair(grades) {
        FilterKeepsDistinct(grades, (g: Grade) => g.subjectId != subjectId, PairOf);
      }
      subjects := WithoutSubject(subjects, subjectId);
      grades := WithoutSubjectGrades(grades, subjectId);
      found := true;
    }
  }

  /** Overwriting the value of one grade row keeps every constraint, and keeps the pairs unique. */
  lemma SetValueKeepsValid(users: seq<User>, subjects: seq<Subject>, grades: seq<Grade>, i: int,
                           value: Option<string>)
    requires TablesValid(users, subjects, grades) && 0 <= i < |grades|
    ensures var updated := grades[i := grades[i].(gradeValue := value)];
            && TablesValid(users, subjects, updated)
            && (OneGradePerPair(grades) ==> OneGradePerPair(updated))
            && forall h :: h in updated ==> h in grades || h == updated[i]
  {
    var updated := grades[i := grades[i].(gradeValue := value)];
    assert forall j :: 0 <= j < |grades| ==> PairOf(updated[j]) == PairOf(grades[j]);
    assert forall j :: 0 <= j < |grades| ==> GradeIdOf(updated[j]) == GradeIdOf(grades[j]);
    forall h | h in updated ensures h in grades || h == updated[i] {
      var j :| 0 <= j < |updated| && updated[j] == h;
      if j != i { assert grades[j] == h; }
    }
  }

  /** Appending a grade row with a fresh id whose student and subject exist keeps every
      constraint; when the pair had no row, it keeps the pairs unique. */
  lemma InsertGradeKeepsValid(users: seq<User>, subjects: seq<Subject>, grades: seq<Grade>, g: Grade)
    requires TablesValid(users, subjects, grades)
    requires HasUser(users, g.studentId) && HasSubject(subjects, g.subjectId)
    requires forall h :: h in grades ==> h.gradeId != g.gradeId
    ensures TablesValid(users, subjects, grades + [g])
    ensures OneGradePerPair(grades) && (forall h :: h in grades ==> PairOf(h) != PairOf(g)) ==>
              OneGradePerPair(grades + [g])
  {
    AppendKeepsDistinct(grades, g, GradeIdOf);
    if OneGradePerPair(grades) && (forall h :: h in grades ==> PairOf(h) != PairOf(g)) {
      AppendKeepsDistinct(grades, g, PairOf);
    }
  }

  /** Deleting a user together with that user's grade rows keeps every schema constraint:
      in particular no grade is left pointing at the deleted user. */
  lemma DeleteUserKeepsValid(users: seq<User>, subjects: seq<Subject>, grades: seq<Grade>, id: int)
    requires TablesValid(users, subjects, grades)
    ensures TablesValid(WithoutUser(users, id), subjects, WithoutStudentGrades(grades, id))
  {
    var p := (u: User) => u.userId != id;
    FilterKeepsDistinct(users, p, UserIdOf);
    FilterKeepsDistinct(users, p, UsernameOf);
    FilterKeepsDistinct(users, p, EmailOf);
    FilterKeepsDistinct(grades, (g: Grade) => g.studentId != id, GradeIdOf);
    var rest := WithoutUser(users, id);
    forall g | g in WithoutStudentGrades(grades, id) ensures HasUser(rest, g.studentId) {
      var u :| u in users && u.userId == g.studentId;
      assert u in rest;
    }
  }

  /** Deleting a subject together with its grade rows keeps every schema constraint. */
  lemma DeleteSubjectKeepsValid(users: seq<User>, subjects: seq<Subject>, grades: seq<Grade>, id: int)
    requires TablesValid(users, subjects, grades)
    ensures TablesValid(users, WithoutSubject(subjects, id), WithoutSubjectGrades(grades, id))
  {
    FilterKeepsDistinct(subjects, (s: Subject) => s.subjectId != id, SubjectIdOf);
    FilterKeepsDistinct(grades, (g: Grade) => g.subjectId != id, GradeIdOf);
    var rest := WithoutSubject(subjects, id);
    forall g | g in WithoutSubjectGrades(grades, id) ensures HasSubject(rest, g.subjectId) {
      var s :| s in subjects && s.subjectId == g.subjectId;
      assert s in rest;
    }
  }

  /** Appending a row whose key no existing row has keeps the key unique. */
  lemma AppendKeepsDistinct<T, K>(s: seq<T>, x: T, key: T -> K)
    requires KeysDistinct(s, key)
    requires forall y :: y in s ==> key(y) != key(x)
    ensures KeysDistinct(s + [x], key)
  {
    forall i, j | 0 <= i < j < |s + [x]| ensures key((s + [x])[i]) != key((s + [x])[j]) {
      assert (s + [x])[i] == s[i] && s[i] in s;
    }
  }
}
