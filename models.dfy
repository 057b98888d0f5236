/** Record shapes of the three tables and the constraints the schema declares on them
    (backend/app/models.py), plus the response shapes the API sends back
    (backend/app/schemas.py). Timestamps are not modelled. */
module Models {
  import opened Wrappers
  import opened Constants

  /** A row of `users`. */
  datatype User = User(userId: nat, username: string, password: string,
                       fullName: string, email: string, role: string)

  /** A row of `subjects`. */
  datatype Subject = Subject(subjectId: nat, subjectName: string)

  /** A row of `grades`; the value column is nullable. */
  datatype Grade = Grade(gradeId: nat, studentId: nat, subjectId: nat, gradeValue: Option<string>)

  /** A user as the API returns it: every column but the password. */
  datatype UserResponse = UserResponse(userId: nat, username: string, fullName: string,
                                       email: string, role: string)

  /** One line of a student's grade sheet: a subject with the student's grade for it, if any. */
  datatype GradeRow = GradeRow(gradeId: Option<nat>, subjectId: nat, subjectName: string,
                               gradeValue: Option<string>)

  /** The body of the two grade-sheet endpoints. */
  datatype StudentGradesResponse = StudentGradesResponse(student: UserResponse, grades: seq<GradeRow>)

  function ToResponse(u: User): UserResponse {
    UserResponse(u.userId, u.username, u.fullName, u.email, u.role)
  }

  function UserIdOf(u: User): nat { u.userId }
  function UsernameOf(u: User): string { u.username }
  function EmailOf(u: User): string { u.email }
  function SubjectIdOf(s: Subject): nat { s.subjectId }
  function GradeIdOf(g: Grade): nat { g.gradeId }
  /** The (student, subject) pair a grade row is about. */
  function PairOf(g: Grade): (nat, nat) { (g.studentId, g.subjectId) }

  /** No two rows of `s` agree on `key` (a primary key or a unique column). */
  predicate KeysDistinct<T, K(==)>(s: seq<T>, key: T -> K) {
    forall i, j :: 0 <= i < j < |s| ==> key(s[i]) != key(s[j])
  }

  predicate HasUser(users: seq<User>, id: int) {
    exists u :: u in users && u.userId == id
  }

  predicate HasSubject(subjects: seq<Subject>, id: int) {
    exists s :: s in subjects && s.subjectId == id
  }

  /** The `Enum('admin', 'teacher', 'student')` column type. */
  predicate RolesValid(users: seq<User>) {
    forall u :: u in users ==> u.role in ALL_ROLES
  }

  /** Both foreign keys of every grade row point at an existing row. */
  predicate ForeignKeysHold(users: seq<User>, subjects: seq<Subject>, grades: seq<Grade>) {
    forall g :: g in grades ==> HasUser(users, g.studentId) && HasSubject(subjects, g.subjectId)
  }

  /** Every constraint the schema declares: primary keys, the unique username and email
      columns, the role enumeration and the two foreign keys. */
  predicate TablesValid(users: seq<User>, subjects: seq<Subject>, grades: seq<Grade>) {
    && KeysDistinct(users, UserIdOf)
    && KeysDistinct(users, UsernameOf)
    && KeysDistinct(users, EmailOf)
    && RolesValid(users)
    && KeysDistinct(subjects, SubjectIdOf)
    && KeysDistinct(grades, GradeIdOf)
    && ForeignKeysHold(users, subjects, grades)
  }

  /** At most one grade row per (student, subject) pair. The schema does not declare this;
      the grade endpoint keeps it because it only inserts when no row for the pair exists. */
  predicate OneGradePerPair(grades: seq<Grade>) {
    KeysDistinct(grades, PairOf)
  }

  /** Under a unique key, two rows with the same key are the same row. */
  lemma {:induction false} DistinctKeyDeterminesRow<T, K>(s: seq<T>, key: T -> K, x: T, y: T)
    requires KeysDistinct(s, key)
    requires x in s && y in s && key(x) == key(y)
    ensures x == y
  {
    var i :| 0 <= i < |s| && s[i] == x;
    var j :| 0 <= j < |s| && s[j] == y;
    assert i == j;
  }
}
