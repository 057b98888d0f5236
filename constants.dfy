/** The user roles of the grade system and the permission groups built from them
    (backend/app/constants.py). */
module Constants {

  const ADMIN: string := "admin"
  const TEACHER: string := "teacher"
  const STUDENT: string := "student"

  /** Roles allowed to manage subjects and users. */
  const ADMIN_ONLY: seq<string> := [ADMIN]
  /** Roles allowed to list students and read or write their grades. */
  const TEACHER_AND_ADMIN: seq<string> := [ADMIN, TEACHER]
  /** The role that may read its own grades. */
  const STUDENT_ONLY: seq<string> := [STUDENT]
  /** Every role a user can have. */
  const ALL_ROLES: seq<string> := [ADMIN, TEACHER, STUDENT]

  /** The three role names are pairwise different. */
  lemma RolesDistinct()
    ensures ADMIN != TEACHER && ADMIN != STUDENT && TEACHER != STUDENT
  {
    assert ADMIN[0] != TEACHER[0] && ADMIN[0] != STUDENT[0] && TEACHER[0] != STUDENT[0];
  }

  /** Exactly which roles each permission group admits. */
  lemma GroupMembers(role: string)
    ensures role in ADMIN_ONLY <==> role == ADMIN
    ensures role in TEACHER_AND_ADMIN <==> role == ADMIN || role == TEACHER
    ensures role in STUDENT_ONLY <==> role == STUDENT
    ensures role in ALL_ROLES <==> role == ADMIN || role == TEACHER || role == STUDENT
  {
  }

  /** The groups are nested, and the student group shares no role with the staff group. */
  lemma GroupsNested(role: string)
    ensures role in ADMIN_ONLY ==> role in TEACHER_AND_ADMIN
    ensures role in TEACHER_AND_ADMIN ==> role in ALL_ROLES
    ensures role in STUDENT_ONLY ==> role in ALL_ROLES
    ensures !(role in STUDENT_ONLY && role in TEACHER_AND_ADMIN)
  {
    RolesDistinct();
  }
}
