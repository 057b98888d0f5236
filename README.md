# Grade Entry System — a Dafny model

The Grade Entry System is a small role-based grade book. Its FastAPI backend keeps three tables:
users (admin, teacher or student), subjects, and grades (one optional letter per student and
subject). It exposes login, listing, grade-sheet and management endpoints. The protected
endpoints take the caller's `user_id` as a query parameter and check the caller's role; login, the
subject list and the root are open, and the caller's own grade sheet has a single 403 of its own
instead of the shared 401/403 check. Its React front end has three parts:

- a root component that picks a view by the session user's role;
- an admin and a teacher view, which are mode-driven screens;
- a grade editor that saves a sheet one row at a time.

A request layer tags every outgoing request with the stored user id.

This project models those parts in Dafny. There is one module per source file:

| module | source |
|---|---|
| `Constants` | `backend/app/constants.py` |
| `Models` | `backend/app/models.py`, plus the response shapes of `backend/app/schemas.py` |
| `Crud` | `backend/app/crud.py` |
| `Endpoints` | `backend/app/main.py` |
| `Client` | `src/services/api.js` |
| `AppRoot` | `src/App.jsx` |
| `GradeEditing` | `src/components/GradeEditor.jsx` |
| `AdminPanel` | `src/components/AdminView.jsx` |
| `TeacherPanel` | `src/components/TeacherView.jsx` |
| `Text` | JavaScript's `trim`, number-to-text conversion and the server's integer parsing |
| `Wrappers` | `Option` and `Result` |

How the source's behaviour appears in the model:

- **Tables.** They are sequences in table order. They live in the `Crud.Database` class, which
  changes them in place. `Database.Valid()` states the schema's constraints: unique keys,
  unique username and email, the role enumeration, and foreign keys. Read-only queries are
  functions over the sequences.
- **Endpoints.** An endpoint that only reads is a function of the tables. An endpoint that
  writes is a method on the `Database`. Either one returns the response or the `HTTPException`
  (status and detail) it raises.
- **Front-end components.** Each is a class whose fields are the component's state. A `sent`
  field logs every request the component issues, as a `Client.Call`. Server answers and
  `window.confirm` results are parameters of the handlers.
- **Routing.** The route table is a dispatch function from method and path to handler.
  `Client.CallReachesItsRoute` proves that every client call reaches the handler it is meant for.

## Model

| member | source | states |
|---|---|---|
| Constants.RolesDistinct | backend/app/constants.py:5-9 | the three role names are pairwise different |
| Constants.GroupMembers | backend/app/constants.py:13-22 | each permission group admits exactly its listed roles, in both directions |
| Constants.GroupsNested | backend/app/constants.py:13-22 | ADMIN_ONLY ⊆ TEACHER_AND_ADMIN ⊆ ALL_ROLES, STUDENT_ONLY ⊆ ALL_ROLES, and STUDENT_ONLY is disjoint from TEACHER_AND_ADMIN |
| Models.DistinctKeyDeterminesRow | backend/app/models.py:9-13 | under a primary key or unique column, two rows with the same key are the same row |
| Crud.UserByCredentials | backend/app/crud.py:8-17 | the result is a user whose username or email is the login and whose password matches; it is None exactly when no user matches |
| Crud.UserByEmail | backend/app/crud.py:34-35 | the result is a user with that email; it is None exactly when no user has it |
| Crud.UserById | backend/app/main.py:48-50 | the caller lookup returns the user with that id; it is None exactly when the id is unknown |
| Crud.AllStudents | backend/app/crud.py:38-39 | the result holds exactly the users whose role is `student`; how often and in which order is stated by the three lemmas below |
| Crud.AllStudentsCount | backend/app/crud.py:38-39 | `.all()` returns each student row as often as the table holds it, and no other row |
| Crud.AllStudentsDistinct | backend/app/crud.py:38-39 | under a unique user id, no student id is listed twice |
| Crud.AllStudentsKeepsOrder | backend/app/crud.py:38-39 | of two students, the one earlier in the table is listed first |
| Crud.StudentById | backend/app/crud.py:42-45 | the result is a student with that id; it is None exactly when no student has it |
| Crud.StudentByIdNoneWhenNotStudent | backend/app/crud.py:42-45 | with unique ids, the student lookup finds nothing iff the id is unknown or belongs to a non-student |
| Crud.GradesOf | backend/app/crud.py:52 | the result holds exactly the grade rows of the student; how often and in which order is stated by the three lemmas below |
| Crud.GradesOfCount | backend/app/crud.py:52 | each of the student's rows is kept as often as the table holds it, and no other row is |
| Crud.GradesOfDistinct | backend/app/crud.py:52 | under a unique grade id, no grade id appears twice among the student's rows |
| Crud.GradesOfKeepsOrder | backend/app/crud.py:52 | the student's rows keep their table order, the order the last-row-wins dicts are built in |
| Crud.LatestFor | backend/app/crud.py:54-55 | the dict comprehensions keep the last row for a subject: the result is a row of that subject and no later row is of that subject; it is None iff the subject has no row |
| Crud.StudentGradesRow | backend/app/crud.py:50-66 | the sheet has one row per subject, in subject order, with that subject's id and name; a row has no grade iff the student has no stored row for the subject, and otherwise shows that stored row's id and value |
| Crud.SheetShowsStoredGrade | backend/app/crud.py:54-64 | with one row per (student, subject), the sheet shows exactly the stored row of the pair |
| Crud.OtherStudentsIgnored | backend/app/crud.py:52-55 | inserting other students' grade rows anywhere in the table does not change a student's sheet |
| Crud.GradeDicts | backend/app/crud.py:54-55 | both dicts have the same keys: the subjects with a row; each maps a subject to the id and value of its last row |
| Crud.GetStudentGrades | backend/app/crud.py:50-66 | the append loop yields the sheet `StudentGrades` describes |
| Crud.WithoutUser | backend/app/crud.py:69-75 | after the delete, exactly the users with a different id remain |
| Crud.WithoutStudentGrades | backend/app/models.py:32 | the cascade keeps exactly the grade rows of other students |
| Crud.WithoutSubject | backend/app/crud.py:109-115 | after the delete, exactly the subjects with a different id remain |
| Crud.WithoutSubjectGrades | backend/app/models.py:33 | the cascade keeps exactly the grade rows of other subjects |
| Crud.SheetEmptyAfterCascade | backend/app/models.py:32 | once a student's rows are cascaded away, every row of that student's sheet has no grade |
| Crud.PairIndex | backend/app/crud.py:79-81 | `.first()` for the pair: the earliest row of the pair, or the table length when there is none |
| Crud.ReadAfterUpdate | backend/app/crud.py:83-84 | overwriting a value keeps the pairs unique, and the sheet then shows the new value under the same grade id |
| Crud.ReadAfterInsert | backend/app/crud.py:85-87 | appending a row for a pair without one keeps the pairs unique, and the sheet then shows the new row |
| Crud.Database.constructor | backend/app/models.py:6-38 | empty tables satisfy every schema constraint |
| Crud.Database.CreateUser | backend/app/crud.py:20-31 | a new user with the given fields under a fresh id is appended; the insert is refused and nothing changes iff the role is not in the enumeration or the username or email is taken; a refusal names the violated constraint |
| Crud.Database.DeleteUser | backend/app/crud.py:69-75 | reports whether the user existed; afterwards neither the user nor any of its grade rows exist; everything else is kept; when it reports false nothing changes |
| Crud.Database.UpdateGrade | backend/app/crud.py:78-91 | an existing pair's first row gets the new value and no row is added; otherwise one row is appended, unless the foreign keys refuse it (nothing changes); afterwards the pair has the value; the schema constraints and one row per pair are preserved |
| Crud.Database.InsertGrade | backend/app/crud.py:85-87 | the appended row has a fresh id and the given student, subject and value; the constraints are kept |
| Crud.Database.CreateSubject | backend/app/crud.py:101-106 | one subject with the given name under a fresh id is appended; nothing else changes |
| Crud.Database.DeleteSubject | backend/app/crud.py:109-115 | reports whether the subject existed; afterwards neither the subject nor any of its grade rows exist; when it reports false nothing changes |
| Crud.SetValueKeepsValid | backend/app/crud.py:83-84 | overwriting a grade value keeps every schema constraint and keeps the pairs unique |
| Crud.InsertGradeKeepsValid | backend/app/models.py:28-33 | appending a grade with a fresh id and existing student and subject keeps every schema constraint |
| Crud.DeleteUserKeepsValid | backend/app/models.py:32 | deleting a user with its grade rows keeps every schema constraint; no grade is left dangling |
| Crud.DeleteSubjectKeepsValid | backend/app/models.py:33 | deleting a subject with its grade rows keeps every schema constraint |
| Endpoints.HandlerListsAreGroups | backend/app/main.py:51 | the literal role lists the handlers pass are TEACHER_AND_ADMIN and ADMIN_ONLY |
| Endpoints.CheckPermission | backend/app/main.py:19-21 | a 403 exactly when the role is not in the allowed list |
| Endpoints.Guard | backend/app/main.py:157-160 | an unknown caller gets 401 before any role check; a known caller gets 403 iff its role is not allowed; success returns the caller |
| Endpoints.Responses | backend/app/main.py:144-152 | the response list is the users without their passwords, position by position |
| Endpoints.Login | backend/app/main.py:35-42 | 401 "Invalid username or password" iff no user matches the credentials; otherwise a matching user |
| Endpoints.ListStudents | backend/app/main.py:45-53 | succeeds iff the caller is an admin or teacher; 401 for an unknown caller, 403 "Not enough permissions" for a known caller with another role; the result holds exactly the students, position by position the responses of the student rows in table order, with no user id twice under unique ids |
| Endpoints.GetMyGrades | backend/app/main.py:56-66 | succeeds iff the caller is a student, with the caller's whole user record (without the password) as `student` and the caller's own sheet; every other caller, unknown ones included, gets the same 403 |
| Endpoints.GetStudentGrades | backend/app/main.py:68-84 | 401 for an unknown caller, 403 for a non-staff caller, 404 iff the id is not a student's, otherwise the student's whole user record (without the password) as `student` and that student's sheet |
| Endpoints.ListSubjects | backend/app/main.py:104-106 | the whole subject table, with no caller check |
| Endpoints.ListUsers | backend/app/main.py:144-152 | succeeds iff the caller is an admin; 401 for an unknown caller, 403 "Not enough permissions" for a known non-admin; the result is every user |
| Endpoints.UpdateStudentGrade | backend/app/main.py:86-101 | a guard failure changes nothing; past the guard it succeeds iff the pair has a row or the student and the subject both exist; success overwrites the value of the pair's first row in place, or appends one row with a fresh id for the pair; a refused insert is a 500 and changes nothing; users and subjects are kept; one row per pair is preserved |
| Endpoints.AddSubject | backend/app/main.py:108-116 | fails iff the admin guard fails, changing nothing; otherwise one new subject with the name and an unused id |
| Endpoints.RemoveSubject | backend/app/main.py:118-128 | succeeds iff the admin guard passes and the subject exists, deleting it and its grades; 404 and no change for a missing subject |
| Endpoints.CreateUser | backend/app/main.py:130-142 | a guard failure changes nothing; a used email gets 400 and adds nothing; it succeeds iff the guard passes, the email is unused, the role is one of the three and the username is unused; success appends exactly one user with the given fields under a fresh id and returns it without its password; every failure changes nothing |
| Endpoints.DeleteUser | backend/app/main.py:154-164 | succeeds iff the admin guard passes and the user exists, deleting it and its grades; 404 and no change for a missing user |
| Endpoints.CreateUserIfNotExists | backend/app/main.py:23-32 | an existing email returns that user and changes nothing; a new email creates one user with exactly the given fields under a fresh id, unless the role or the username is refused (nothing changes); success always returns the one user with the email |
| Endpoints.CreateUserIfNotExistsTwice | backend/app/main.py:23-32 | idempotence: the second call answers as the first, and both calls together change the users exactly as the first one alone (one user added only when the email was new) |
| Endpoints.RouteSegments | backend/app/main.py:35-168 | no declared path segment contains a `/` |
| Endpoints.Dispatch | backend/app/main.py:35-168 | a dispatched route always uses the request's method |
| Endpoints.DispatchFindsEveryRoute | backend/app/main.py:35-168 | every route is reached by its own method and path, with its own path parameters |
| Endpoints.RoutesDistinct | backend/app/main.py:35-168 | no two routes share a method and a path |
| Text.TrimEmptyIffBlank | src/components/AdminView.jsx:57 | `trim()` is empty iff the text is empty or whitespace only; otherwise the trimmed text starts and ends with a non-whitespace character |
| Text.NatToString | src/App.jsx:13 | the decimal text of an id is non-empty, all digits and has no leading zero |
| Text.ParseNatRoundTrip | backend/app/main.py:69 | the server parses back exactly the id the client wrote |
| Text.SplitJoin | backend/app/main.py:68 | splitting a joined path at `/` gives back its segments |
| Client.PathSegments | src/services/api.js:28-57 | no segment of a client path contains a `/` |
| Client.StudentGradesTemplate | src/services/api.js:40 | getStudentGrades targets `/grades/student/{studentId}` |
| Client.UpdateGradeTemplate | src/services/api.js:41-42 | updateGrade targets the student's grade path followed by `/subject/{subjectId}` |
| Client.DeleteTemplates | src/services/api.js:46-57 | the delete calls target `/subjects/{subjectId}` and `/users/{userId}` |
| Client.GradeUpdateRequest | src/services/api.js:41-42 | updateGrade is a PUT whose body is the single field `grade_value` |
| Client.CallReachesItsRoute | src/services/api.js:4-57 | every call's method and `/api`-prefixed path reach the backend handler it is meant for, with the same ids |
| Client.RouteIsPrefixed | src/services/api.js:4 | each call's route path is `/api` followed by the call's path |
| Client.MethodIsRouteMethod | src/services/api.js:28-57 | each call uses the HTTP method its route declares |
| Client.LocalStorage.constructor | src/services/api.js:15 | the storage cell the interceptor reads starts without a stored id (a modelling choice: a browser with nothing stored yet; real storage keeps its content across reloads) |
| Client.Params.constructor | src/services/api.js:19 | a params object holds exactly the given entries |
| Client.RequestConfig.constructor | src/services/api.js:28-57 | a request config carries the call's method, path and body, and no params |
| Client.AddUserId | src/services/api.js:14-22 | without a truthy stored id nothing changes; with one and existing params, `user_id` is set and every other param kept; with one and no params, params become exactly `{user_id}`; the same config is returned |
| Client.Send | src/services/api.js:25 | a call leaves with its method, path and body, carrying `user_id` exactly when an id is stored |
| AppRoot.Render | src/App.jsx:24-40 | the login page iff there is no user; each of the three roles routes to exactly its own view; an unknown role renders nothing |
| AppRoot.StoredIdReadsBack | src/App.jsx:13 | the stored id text is truthy and the server reads it back as the id |
| AppRoot.App.constructor | src/App.jsx:9 | there is no session user at start |
| AppRoot.App.HandleLogin | src/App.jsx:12-15 | the id is stored and the user becomes the session user |
| AppRoot.App.HandleLogout | src/App.jsx:18-21 | the stored id is removed and the login page is shown, whatever the role was |
| AppRoot.LoginThenCall | src/App.jsx:12-15 | after a login, every request carries a `user_id` the server reads as the logged-in user's id |
| AppRoot.LogoutThenCall | src/App.jsx:18-21 | after a logout, requests carry no `user_id` |
| GradeEditing.ChangeGrade | src/components/GradeEditor.jsx:24-31 | the number and order of rows are kept; every row of the subject takes the value; every other row is unchanged |
| GradeEditing.LaterChangeWins | src/components/GradeEditor.jsx:24-31 | of two choices for one subject, the later one remains |
| GradeEditing.ChangesCommute | src/components/GradeEditor.jsx:24-31 | choices for different subjects commute |
| GradeEditing.SelectedValue | src/components/GradeEditor.jsx:91 | a selector shows the row's value, or the empty choice when there is none |
| GradeEditing.SelectorShowsChoice | src/components/GradeEditor.jsx:91-92 | after a choice, every selector of that subject shows it |
| GradeEditing.ChangeKeepsOptions | src/components/GradeEditor.jsx:99-105 | choices made through the selector keep every value among `''` and `A`–`F` |
| GradeEditing.UpdateCalls | src/components/GradeEditor.jsx:36-42 | one update per row, in row order, with the student's id and the row's subject and value |
| GradeEditing.FirstFailure | src/components/GradeEditor.jsx:36-46 | the position of the first refused update, or the row count when every update succeeds |
| GradeEditing.Render | src/components/GradeEditor.jsx:51-114 | the loading screen iff loading; a render failure iff nothing was fetched; otherwise the selectors show the rows' values, the save button appears iff not read-only and is disabled while saving, and selectors are enabled iff not read-only |
| GradeEditing.GradeEditor.constructor | src/components/GradeEditor.jsx:5-22 | nothing loaded, loading, not saving, and the sheet requested |
| GradeEditing.GradeEditor.LoadGrades | src/components/GradeEditor.jsx:9-18 | a received sheet is kept, a failed fetch keeps the previous data; loading ends either way |
| GradeEditing.GradeEditor.HandleGradeChange | src/components/GradeEditor.jsx:24-31 | the rows become the result of the choice; the student and the other state are kept |
| GradeEditing.GradeEditor.HandleSave | src/components/GradeEditor.jsx:33-49 | the sent log grows by the updates of the rows up to and including the first refused one; success is reported iff every update was accepted; saving is over afterwards; without data nothing is sent and failure is reported |
| TeacherPanel.LoadOnEntry | src/components/TeacherView.jsx:10-14 | only entering `students` fetches, and it fetches exactly the student list |
| TeacherPanel.Render | src/components/TeacherView.jsx:25-126 | the editor iff an edit mode has a selected student (read-only for viewGrades), the list iff in `students`, otherwise the dashboard |
| TeacherPanel.TeacherView.constructor | src/components/TeacherView.jsx:6-8 | starts on the dashboard with no selection, no students and nothing sent |
| TeacherPanel.TeacherView.Enter | src/components/TeacherView.jsx:10-14 | a mode change sends the new mode's load when the mode differs; nothing else changes |
| TeacherPanel.TeacherView.ShowStudents | src/components/TeacherView.jsx:120 | the dashboard card shows the list and fetches the students once |
| TeacherPanel.TeacherView.BackToDashboard | src/components/TeacherView.jsx:59 | "Back" returns to the dashboard, sending nothing |
| TeacherPanel.TeacherView.OpenEditor | src/components/TeacherView.jsx:86-99 | the student is selected and the editor opens, read-only for "View Grades"; nothing is sent |
| TeacherPanel.TeacherView.LeaveEditor | src/components/TeacherView.jsx:25-50 | the selection is cleared and the list is shown and fetched again |
| TeacherPanel.TeacherView.StudentsLoaded | src/components/TeacherView.jsx:16-23 | a received list replaces the shown one; a failure keeps it |
| AdminPanel.LoadOnEntry | src/components/AdminView.jsx:19-27 | entering each list mode fetches exactly its own list; other modes fetch nothing |
| AdminPanel.Render | src/components/AdminView.jsx:118-392 | the editor iff an edit mode has a selected student (read-only for viewGrades); each list in its own mode; otherwise the dashboard |
| AdminPanel.UserFormFilledIffNotBlank | src/components/AdminView.jsx:80-81 | the user form passes its guard iff none of the four fields is blank |
| AdminPanel.AdminView.constructor | src/components/AdminView.jsx:7-17 | starts on the dashboard with empty lists and fields, the role `student` and nothing sent |
| AdminPanel.AdminView.Enter | src/components/AdminView.jsx:19-27 | a mode change sends the new mode's load when the mode differs; nothing else changes |
| AdminPanel.AdminView.OpenSection | src/components/AdminView.jsx:376-386 | a dashboard card opens its section and sends exactly one load; the lists, the form inputs and the notice are kept |
| AdminPanel.AdminView.BackToDashboard | src/components/AdminView.jsx:252 | "Back" returns to the dashboard, sending nothing and keeping every other field (the same button sits at lines 125 and 313) |
| AdminPanel.AdminView.OpenEditor | src/components/AdminView.jsx:279-292 | the student is selected and the editor opens, read-only for "View Grades"; nothing is sent; the lists, the form inputs and the notice are kept |
| AdminPanel.AdminView.LeaveEditor | src/components/AdminView.jsx:218-243 | the selection is cleared and the student list is shown and fetched again; the lists, the form inputs and the notice are kept |
| AdminPanel.AdminView.EditField | src/components/AdminView.jsx:146-167 | typing sets exactly the edited field; every other field is kept (the subject name input is at line 328) |
| AdminPanel.AdminView.SelectRole | src/components/AdminView.jsx:171-178 | the role selector takes one of the three roles; every other field is kept |
| AdminPanel.AdminView.HandleAddSubject | src/components/AdminView.jsx:56-66 | a name that trims to nothing sends nothing and changes nothing; otherwise the name is posted, and on success the field is cleared and the list fetched again; the lists and the user form are kept |
| AdminPanel.AdminView.PostSubject | src/components/AdminView.jsx:58-65 | the post, then on success the cleared field and the reload; the lists and the user form are kept |
| AdminPanel.AdminView.HandleDeleteSubject | src/components/AdminView.jsx:68-77 | nothing changes without confirmation; otherwise the delete, and on success the reload; the lists and the form inputs are kept |
| AdminPanel.AdminView.HandleAddUser | src/components/AdminView.jsx:79-103 | unless all four fields are non-blank, nothing is sent and nothing changes; otherwise the fields and role are posted, and on success the form clears, the role resets to `student` and the list is fetched again; the lists and the subject input are kept |
| AdminPanel.AdminView.PostUser | src/components/AdminView.jsx:83-102 | the post, then on success the cleared form and the reload; the lists and the subject input are kept |
| AdminPanel.AdminView.HandleDeleteUser | src/components/AdminView.jsx:105-116 | nothing changes without confirmation; otherwise the delete, then on success the reload; a failure reports the server's detail; the lists and the form inputs are kept |
| AdminPanel.AdminView.StudentsLoaded | src/components/AdminView.jsx:29-36 | a received list replaces the shown one; a failure keeps it; the other lists, the form inputs and the notice are kept |
| AdminPanel.AdminView.SubjectsLoaded | src/components/AdminView.jsx:38-45 | a received list replaces the shown one; a failure keeps it; the other lists, the form inputs and the notice are kept |
| AdminPanel.AdminView.UsersLoaded | src/components/AdminView.jsx:47-54 | a received list replaces the shown one; a failure keeps it; the other lists, the form inputs and the notice are kept |

## Left out

- Columns, transport and validation:
  - timestamps (`created_at` and `updated_at`) and column length limits;
  - the DECIMAL/float/string mismatch of `grade_value`, which is an optional text throughout;
  - pydantic validation, for example `EmailStr` and the 422 answer for a missing or non-integer `user_id`;
  - the CORS middleware, the password `print`, the root endpoint's message, and the environment override of the base URL.
- Sessions and the database engine:
  - `commit`, `refresh` and transactions; the tables change atomically at each step;
  - ids are fresh counters, as auto-increment would give, not engine-chosen values.
- Crud.Database.DeleteUser: models the declared `ON DELETE CASCADE` of `grades.student_id`. The ORM's default for the `grades` relationship would first null the foreign key of the user's loaded grade rows, which the NOT NULL column refuses, so deleting a user who has grades would end in an error. That ORM behaviour is not modelled.
- Crud.Database.DeleteSubject: the same for `grades.subject_id`; deleting a subject that has grades would end in an error under the ORM's default, which is not modelled.
- Endpoints.DeleteUser: inherits the cascade of `Crud.Database.DeleteUser`; the 500 the ORM's default would produce for a user with grades is not modelled.
- Endpoints.RemoveSubject: inherits the cascade of `Crud.Database.DeleteSubject`; the 500 the ORM's default would produce for a subject with grades is not modelled.
- Crud.Database.CreateUser: when several constraints are violated at once, the model reports the role first, then the username, then the email. The engine's choice among them is not modelled; the endpoint answers 500 in every case.
- Endpoints.Dispatch: path parameters are read as plain digit strings only. A negative or signed integer in the path is treated as unmatched, not as the integer FastAPI would parse.
- Endpoints.ListSubjects: it only returns the table; what it states is that no caller check exists.
- Network answers, dialogs and alerts:
  - server answers are parameters: a success flag, an optional response, or an acceptance predicate over the save loop's requests;
  - `window.confirm` is a boolean parameter;
  - `alert` messages are kept as a `notice` field, and `console` output is dropped.
- Asynchrony: async interleaving, stale responses after a view switch, and React's effect scheduling. Each handler is one sequential step. Reloads after a save are logged as sent, and their answers arrive through the `...Loaded` methods.
- Markup and styles, and the Logout buttons; logout is `AppRoot.App.HandleLogout`.
- src/components/LoginPage.jsx, src/components/StudentView.jsx and src/components/ManageUser.jsx are not part of this model. They only fetch and render, and ManageUser is never mounted.
- Plaintext password handling is modelled as the source does it: an equality test.
