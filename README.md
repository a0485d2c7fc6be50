# School management console — Dafny model

This project models the logic of a small school-management system. The system
has a React front end (attendance, dashboard, classes, accounts, teachers and
notices pages) and a Django REST back end (serializers for classes, students and
teachers). Every network answer is a parameter of the model. With that, each page
is a deterministic sequence of state changes, and the model proves:

- how the attendance session builds its roster, checks for attendance already
  marked today, and turns the selection map into create requests;
- that the dashboard's counts and its split of notices into today and past are
  exact;
- that the class form's student-id list operations (union, removal, the extra id
  appended on save) do what they promise;
- the server-side name projection and the three-check validator that links a
  student or a teacher to an account;
- the page-window arithmetic of the four paginated pages.

Modules:

| file | module | models |
|---|---|---|
| wrappers.dfy | `Wrappers` | `Option`, `Result`, `Max`, `Min` |
| seqs.dfy | `Seqs` | `Array.prototype.filter`, `[...new Set(xs)]` (first-occurrence de-duplication) |
| text.dfy | `Text` | the ASCII part of `toLowerCase`, `startsWith`, `includes` |
| pagination.dfy | `Pagination` | `slice` with JavaScript index rules, `Math.ceil(n / k)`, the Previous/Next steps, the page-number list |
| profiles.dfy | `Profiles` | the account record, `"first last"` display names, the shared linked-user validator |
| student_serializer.dfy | `StudentSerializer` | `StudentSerializer.get_full_name`, `validate` |
| teacher_serializer.dfy | `TeacherSerializer` | `TeacherSerializer.get_full_name`, `validate` |
| class_serializer.dfy | `ClassSerializer` | `get_teacher_full_name`, `get_student_names`, the class payload |
| attendance_api.dfy | `AttendanceApi` | the attendance record as the API sends it |
| dashboard_page.dfy | `DashboardPage` | the counting in `fetchStats`, `todaysNotices`/`pastNotices` |
| attendance_page.dfy | `AttendancePage` | the `Attendance` component, as the class `AttendanceSession` |
| classes_page.dfy | `ClassesPage` | the `Classes` component, as the class `ClassesScreen` |
| accounts_page.dfy | `AccountsPage` | the `Accounts` component, as the class `AccountsScreen` |
| teachers_page.dfy | `TeachersPage` | the `Teachers` component, as the class `TeachersScreen` |
| notices_page.dfy | `NoticesPage` | the `Notices` component, as the class `NoticeBoard` |

How the source is modelled:

- Each React component whose handlers update state becomes a class. Its state
  hooks are fields and its handlers are methods with `modifies` frames.
- Each `await` on a request becomes a parameter:
  - a fetched list is `Option<...>`, with `None` when the request throws;
  - a post, patch or delete becomes an `ok: bool` outcome;
  - the attendance creates become a set `rejected` of students whose create
    fails.
- "Today" is a `YYYY-MM-DD` string parameter.
- A JavaScript object used as a map (`attendance`) becomes a Dafny `map`. Its keys
  are `Option<nat>`, because a roster row's id is `undefined` when
  `student_names` is longer than `students`.

The class serializer's `get_student_names` is a loop that appends to a list. It is
modelled as the method `ClassSerializer.GetStudentNames` and proved against the
function `StudentNames`. That function skips students without a linked user, as
the `if s.user:` test of `get_student_names` does. If a student had no user,
`student_names` would be shorter than `students`, and the attendance page, which
pairs the two lists by position, would show a name next to the wrong id.
`AttendancePage.RosterOfSerializedClass` states when the pairing is right, and
`AttendancePage.MisalignedRosterExample` gives a concrete class where it is wrong.
The hazard is latent: the student model declares `user` as a non-null one-to-one
field with cascading delete (`students/models.py:6`), so in a consistent database
every student has a user, the test is always true and the two lists have the same
length. The model keeps the student's user optional so that the serializer's test
and its consequence can be stated.

## Model

| member | source | states |
|---|---|---|
| Profiles.FullName | school_mgt22/smsproject/students/serializers.py:13-14 | the display name is the first name, one space and the last name (its length is the sum plus one) |
| Profiles.FullNameRoundTrip | school_mgt22/smsproject/classes/serializers.py:21 | for a first name without a space, splitting the display name at its first space gives back the first and last names |
| Profiles.ValidateLinkedUser | school_mgt22/smsproject/students/serializers.py:16-29 | a missing, empty or zero user id fails with "User field is required."; an id with no profile fails with "User does not exist."; a profile with the wrong role fails with the role message; it succeeds exactly when all three checks pass, and then returns `data` unchanged |
| StudentSerializer.FullNameOf | school_mgt22/smsproject/students/serializers.py:13-14 | a student with a linked user has the name "first last"; one without a linked user has none (Python raises there) |
| StudentSerializer.Validate | school_mgt22/smsproject/students/serializers.py:16-29 | the three checks' error messages in order, with the role "student" and its literal message; success exactly when the profile exists with that role, returning `data` |
| TeacherSerializer.FullNameOf | school_mgt22/smsproject/teachers/serializers.py:13-14 | a teacher with a linked user has the name "first last"; one without has none |
| TeacherSerializer.Validate | school_mgt22/smsproject/teachers/serializers.py:16-29 | the same three checks in the same order, with the role "teacher" and its literal message |
| ClassSerializer.TeacherFullName | school_mgt22/smsproject/classes/serializers.py:12-15 | there is a teacher name exactly when the class has a teacher with a user, and it is that user's "first last" |
| ClassSerializer.GetStudentNames | school_mgt22/smsproject/classes/serializers.py:17-22 | the loop returns exactly `StudentNames(students)`: the names of the students with a user, in order |
| ClassSerializer.StudentNamesConcat | school_mgt22/smsproject/classes/serializers.py:17-22 | the names of two consecutive student lists are the names of the first followed by those of the second (order is kept) |
| ClassSerializer.StudentNamesLength | school_mgt22/smsproject/classes/serializers.py:17-22 | there are at most as many names as students, and exactly as many exactly when every student has a user |
| ClassSerializer.StudentNamesAligned | school_mgt22/smsproject/classes/serializers.py:17-22 | when every student has a user, name `i` is student `i`'s "first last" |
| ClassSerializer.StudentIds | school_mgt22/smsproject/classes/serializers.py:10 | the `students` field lists the students' ids, one per student, in order |
| ClassSerializer.Serialize | school_mgt22/smsproject/classes/serializers.py:10-22 | the payload carries the class id, name, teacher id, teacher name, student ids, and the names `StudentNames` of the students with a user, a list no longer than the id list |
| AttendancePage.BuildRoster | sms_react/my-app/src/pages/Attendance.jsx:37-42 | one roster row per element of `student_names`; row `i` carries name `i` and id `students[i]`, or no id past the end of `students` |
| AttendancePage.RosterOfSerializedClass | sms_react/my-app/src/pages/Attendance.jsx:37-42 | for a serialized class every row has the id of the student in its position, and every row shows that student's name exactly when every student has a linked user |
| AttendancePage.MisalignedRosterExample | sms_react/my-app/src/pages/Attendance.jsx:37-42 | with the first student unlinked and the second named "Amy Lee", the only row pairs "Amy Lee" with the first student's id |
| AttendancePage.ExistingTodayIff | sms_react/my-app/src/pages/Attendance.jsx:70-74 | the submit is refused exactly when some record is dated today and belongs to a roster student |
| AttendancePage.Entries | sms_react/my-app/src/pages/Attendance.jsx:80-83 | one create entry per picked student, with its picked status, in `Object.entries` key order (integer keys ascending, then the key of a row without an id) |
| AttendancePage.EntriesCoverPicks | sms_react/my-app/src/pages/Attendance.jsx:80-83 | every picked student gets a create entry with its picked status |
| AttendancePage.EntriesDistinct | sms_react/my-app/src/pages/Attendance.jsx:80-83 | no student gets two create entries |
| AttendancePage.EntriesOfTwoPicks | sms_react/my-app/src/pages/Attendance.jsx:80-83 | picks for students 1 and 2 are posted as student 1 first, then student 2 |
| AttendancePage.CreatedStatusesAreCounted | sms_react/my-app/src/pages/Dashboard.jsx:56-64 | every status the attendance page creates is one of the three the dashboard counts |
| AttendancePage.FilterByNameExact | sms_react/my-app/src/pages/Attendance.jsx:107-111 | the search keeps exactly the records whose lower-cased "first last" contains the lower-cased term at some position |
| AttendancePage.EmptySearchKeepsAll | sms_react/my-app/src/pages/Attendance.jsx:107-111 | an empty search term keeps every record, in order |
| AttendancePage.SearchIgnoresCase | sms_react/my-app/src/pages/Attendance.jsx:110 | searching for the lower-cased term gives the same records as searching for the term |
| AttendancePage.AttendanceSession.constructor | sms_react/my-app/src/pages/Attendance.jsx:6-14 | the initial state: empty lists, no class, an empty map, no banner, modal closed |
| AttendancePage.AttendanceSession.ClassesFetched | sms_react/my-app/src/pages/Attendance.jsx:17-27 | the fetched classes replace the list; a failed fetch leaves it |
| AttendancePage.AttendanceSession.SelectClass | sms_react/my-app/src/pages/Attendance.jsx:30-46 | the option is recorded and the banner and selection map are cleared before any fetch; clearing asks for nothing and keeps the roster; a picked class asks for its details and, on an answer, replaces the roster with `BuildRoster` of it; nothing else changes |
| AttendancePage.AttendanceSession.ChangeStatus | sms_react/my-app/src/pages/Attendance.jsx:49-54 | the map becomes the old map with the one key set to the new status, whether or not it was set before |
| AttendancePage.AttendanceSession.Submit | sms_react/my-app/src/pages/Attendance.jsx:57-93 | no class: the class warning, no fetch, no create. Failed fetch: the error banner and no create. A record of today for a roster student: the "already marked" banner and no create. Otherwise: the creates are `Entries` of the map, those not rejected are stored, and the banner is success exactly when every create is stored. The map stays in every case, `isSubmitting` is false again, and every create is for a roster student |
| AttendancePage.AttendanceSession.FetchPastAttendance | sms_react/my-app/src/pages/Attendance.jsx:96-104 | on an answer the past records are replaced and the modal opens; on a failure nothing changes |
| AttendancePage.AttendanceSession.SetSearchTerm | sms_react/my-app/src/pages/Attendance.jsx:14 | the search box sets the term |
| AttendancePage.AttendanceSession.ClosePastModal | sms_react/my-app/src/pages/Attendance.jsx:13 | the close button hides the modal |
| AttendancePage.MarkTwoStudentsScenario | sms_react/my-app/src/pages/Attendance.jsx:30-93 | selecting a class with students 1 and 2, marking 1 Present and 2 Absent, and submitting with nothing recorded today posts exactly those two creates in that order and reports success |
| AttendancePage.AlreadyMarkedScenario | sms_react/my-app/src/pages/Attendance.jsx:70-78 | with a record of today for student 1, the submit posts nothing, shows the "already marked" banner and keeps the picks |
| DashboardPage.ComputeStats | sms_react/my-app/src/pages/Dashboard.jsx:47-73 | the three totals are the lengths of the fetched lists; the present, absent and leave counts are `CountStatus` of today's records for "Present", "Absent" and "Leave" (by `CountStatusExact`, the number of today's records with that exact status); the three add up to at most the number of today's records |
| DashboardPage.TodaysAttendanceExact | sms_react/my-app/src/pages/Dashboard.jsx:51-54 | today's attendance is exactly the records dated today |
| DashboardPage.TodaysAttendanceKeepsOrder | sms_react/my-app/src/pages/Dashboard.jsx:51-54 | the filter keeps the original order (it distributes over concatenation) |
| DashboardPage.CountStatusExact | sms_react/my-app/src/pages/Dashboard.jsx:56-64 | each status count counts exactly the records carrying that exact status |
| DashboardPage.StatusCountsSum | sms_react/my-app/src/pages/Dashboard.jsx:56-64 | present + absent + leave + the records with any other status is the number of records |
| DashboardPage.StatusCountsBounded | sms_react/my-app/src/pages/Dashboard.jsx:56-64 | present + absent + leave is at most the number of records, with equality exactly when every status is one of the three |
| DashboardPage.NoticesSplit | sms_react/my-app/src/pages/Dashboard.jsx:84-90 | a notice is in today's list exactly when its `created_at` starts with today, and in the past list exactly when it does not; the two lists together hold every notice once |
| DashboardPage.NoticesSplitKeepsOrder | sms_react/my-app/src/pages/Dashboard.jsx:84-90 | both lists keep the original order |
| ClassesPage.AddStudents | sms_react/my-app/src/pages/Classes.jsx:280-285 | the union has no duplicates and contains exactly the previous ids and the newly selected ids |
| ClassesPage.AddStudentsKeepsFirstOccurrenceOrder | sms_react/my-app/src/pages/Classes.jsx:360-365 | the union lists its ids in the order of their first occurrence in the previous list followed by the new ids |
| ClassesPage.AddStudentsExtendsDistinct | sms_react/my-app/src/pages/Classes.jsx:360-365 | a previous list without duplicates stays unchanged at the front, and every id after it is a new one that was not there |
| ClassesPage.RemoveStudentsExact | sms_react/my-app/src/pages/Classes.jsx:392-397 | removal keeps exactly the previous ids not picked for removal |
| ClassesPage.RemoveStudentsPartitions | sms_react/my-app/src/pages/Classes.jsx:392-397 | the kept ids and the removed ones together are the previous list, each id as often as before |
| ClassesPage.RemoveAbsentIsIdentity | sms_react/my-app/src/pages/Classes.jsx:392-397 | removing ids that are not listed changes nothing |
| ClassesPage.RemoveUndoesAdd | sms_react/my-app/src/pages/Classes.jsx:360-365 | adding ids to a list without duplicates and none of those ids, then removing the same ids, gives the list back |
| ClassesPage.AppendIfAbsentSpec | sms_react/my-app/src/pages/Classes.jsx:94-97 | the list sent starts with the form's ids and adds at most one; it holds exactly those ids and the selected one; it equals the form's list exactly when there is no selection or the selection is already listed; it keeps a list without duplicates free of them |
| ClassesPage.AppendIfAbsentIdempotent | sms_react/my-app/src/pages/Classes.jsx:94-97 | applying the append a second time with the same selection changes nothing |
| ClassesPage.FindPerson | sms_react/my-app/src/pages/Classes.jsx:388 | a row is found exactly when some row carries the id, and the row found is a known row with that id |
| ClassesPage.FindPersonIsFirst | sms_react/my-app/src/pages/Classes.jsx:388 | the row found is the first row carrying the id |
| ClassesPage.FirstMatch | sms_react/my-app/src/pages/Classes.jsx:388 | the position of the first row carrying the id: it carries the id and no earlier row does |
| ClassesPage.RemoveOptions | sms_react/my-app/src/pages/Classes.jsx:386-391 | there are at most as many options as listed ids, and each option is a known row whose id is listed |
| ClassesPage.RemoveOptionsAreKnownIds | sms_react/my-app/src/pages/Classes.jsx:386-391 | the options' ids are exactly the listed ids that a known student carries, in list order, and each option is the first known row with its id |
| ClassesPage.FormTeacher | sms_react/my-app/src/pages/Classes.jsx:83 | the teacher default: a teacher id other than 0 is kept, and a missing one becomes the empty choice |
| ClassesPage.EditForm | sms_react/my-app/src/pages/Classes.jsx:81-85 | the edit form copies the class's name and student ids and takes the defaulted teacher |
| ClassesPage.ClassesScreen.constructor | sms_react/my-app/src/pages/Classes.jsx:5-22 | the initial state: empty lists, closed modals, the empty form, no selection, page 1 |
| ClassesPage.ClassesScreen.ClassesFetched | sms_react/my-app/src/pages/Classes.jsx:25-30 | the fetched classes replace the list; a failed fetch leaves it |
| ClassesPage.ClassesScreen.TeachersFetched | sms_react/my-app/src/pages/Classes.jsx:32-37 | the fetched teachers replace the list; a failed fetch leaves it |
| ClassesPage.ClassesScreen.StudentsFetched | sms_react/my-app/src/pages/Classes.jsx:39-44 | the fetched students replace the list; a failed fetch leaves it |
| ClassesPage.ClassesScreen.OpenAddModal | sms_react/my-app/src/pages/Classes.jsx:147 | the add button opens the add modal |
| ClassesPage.ClassesScreen.HandleAddClass | sms_react/my-app/src/pages/Classes.jsx:66-76 | the form is posted as it is; on success the modal closes and the form is reset; on failure nothing changes |
| ClassesPage.ClassesScreen.OpenEditModal | sms_react/my-app/src/pages/Classes.jsx:79-88 | the class is remembered, the form is `EditForm` of it, the extra selection is cleared and the modal opens |
| ClassesPage.ClassesScreen.AddSelected | sms_react/my-app/src/pages/Classes.jsx:280-285 | the form's ids become their union with the picked ids and the rest of the form stays |
| ClassesPage.ClassesScreen.RemoveSelected | sms_react/my-app/src/pages/Classes.jsx:392-397 | the form's ids lose the picked ids and the rest of the form stays |
| ClassesPage.ClassesScreen.HandleEditClass | sms_react/my-app/src/pages/Classes.jsx:90-111 | the remembered class gets the form with the ids `AppendIfAbsent` of the form's ids and the selection; on success the modal closes and the form and selection are reset; on failure nothing changes |
| ClassesPage.ClassesScreen.OpenDeleteModal | sms_react/my-app/src/pages/Classes.jsx:114-117 | the class id is remembered and the delete modal opens |
| ClassesPage.ClassesScreen.HandleDeleteClass | sms_react/my-app/src/pages/Classes.jsx:119-127 | the remembered class is deleted; the modal closes exactly on success |
| ClassesPage.ClassesScreen.OpenViewModal | sms_react/my-app/src/pages/Classes.jsx:130-133 | the view modal shows the class's student names |
| ClassesPage.ClassesScreen.CurrentClassesWindow | sms_react/my-app/src/pages/Classes.jsx:136-138 | the classes on screen are `classes[(p-1)*5 .. p*5)` clipped to the list, at most 5 |
| ClassesPage.ClassesScreen.Prev | sms_react/my-app/src/pages/Classes.jsx:217-223 | Prev goes back one page except on page 1, so the page stays at least 1 |
| ClassesPage.ClassesScreen.Next | sms_react/my-app/src/pages/Classes.jsx:227-233 | Next goes forward one page except when the page equals the page count; on an empty list it is never disabled |
| Pagination.ResolveIndex | sms_react/my-app/src/pages/Classes.jsx:138 | a `slice` bound resolved the JavaScript way: clipped to the length, counted from the end when negative |
| Pagination.TotalPagesIsCeiling | sms_react/my-app/src/pages/Classes.jsx:139 | `ceil(n/k)` pages hold every row, one page fewer does not, and there are no pages exactly when there are no rows |
| Pagination.PageWindowIsClippedSlice | sms_react/my-app/src/pages/Accounts.jsx:91-93 | page p ≥ 1 is the slice `[(p-1)*k, p*k)` clipped to the list, with at most k rows |
| Pagination.PageZeroIsEmpty | sms_react/my-app/src/pages/Accounts.jsx:91-93 | page 0 shows no rows |
| Pagination.PageBeyondLastIsEmpty | sms_react/my-app/src/pages/Accounts.jsx:91-94 | a page past the last shows no rows |
| Pagination.RowOnItsPage | sms_react/my-app/src/pages/Accounts.jsx:91-94 | row i is shown on page `i/k + 1`, which exists, at position `i % k` |
| Pagination.PagesArePrefix | sms_react/my-app/src/pages/Accounts.jsx:91-94 | the first c pages, one after the other, are the first `c*k` rows |
| Pagination.PagesCoverList | sms_react/my-app/src/pages/Accounts.jsx:91-94 | pages 1 to `totalPages`, one after the other, are the whole list |
| Pagination.ClampedPrevBounds | sms_react/my-app/src/pages/Accounts.jsx:168 | `max(p-1, 1)` is at least 1, goes back one page from above 1, and never goes forward |
| Pagination.ClampedNextBounds | sms_react/my-app/src/pages/Accounts.jsx:193 | `min(p+1, totalPages)` never passes the last page and goes forward one page before it; with no pages it goes to 0 |
| Pagination.ClampedStepsStayInRange | sms_react/my-app/src/pages/Notices.jsx:88-89 | from a page in 1..totalPages both steps stay in 1..totalPages |
| Pagination.GuardedStepsStayInRange | sms_react/my-app/src/pages/Classes.jsx:217-233 | from a page in 1..totalPages the disabled-guarded `p-1`/`p+1` stay in 1..totalPages |
| Pagination.GuardedPrevAtLeastOne | sms_react/my-app/src/pages/Classes.jsx:217-219 | the guarded Prev keeps the page at least 1 |
| Pagination.GuardedNextPastLastPage | sms_react/my-app/src/pages/Classes.jsx:227-229 | past the last page the guarded Next is enabled, goes one further, and that page is empty |
| Pagination.PageNumbers | sms_react/my-app/src/pages/Accounts.jsx:178 | the page buttons are exactly 1..totalPages in order |
| Pagination.ShowPaginationIff | sms_react/my-app/src/pages/Teachers.jsx:173 | the controls are shown exactly when there are more rows than fit on one page |
| AccountsPage.EditForm | sms_react/my-app/src/pages/Accounts.jsx:53-58 | the edit form copies the account's names, e-mail and role |
| AccountsPage.AccountsScreen.constructor | sms_react/my-app/src/pages/Accounts.jsx:5-18 | the initial state: no accounts, closed modals, the empty form with role "admin", page 1 |
| AccountsPage.AccountsScreen.UsersFetched | sms_react/my-app/src/pages/Accounts.jsx:21-26 | the fetched accounts replace the list; a failed fetch leaves it |
| AccountsPage.AccountsScreen.OpenAddModal | sms_react/my-app/src/pages/Accounts.jsx:104 | the add button opens the add modal |
| AccountsPage.AccountsScreen.HandleAddUser | sms_react/my-app/src/pages/Accounts.jsx:38-48 | the form is posted as it is; on success the modal closes and the form is reset to empty fields with role "admin" |
| AccountsPage.AccountsScreen.OpenEditModal | sms_react/my-app/src/pages/Accounts.jsx:51-60 | the account is remembered, copied into the form, and the modal opens |
| AccountsPage.AccountsScreen.HandleEditUser | sms_react/my-app/src/pages/Accounts.jsx:62-72 | the remembered account is patched with the form; on success the modal closes and the form is reset to empty fields with role "admin" |
| AccountsPage.AccountsScreen.OpenDeleteModal | sms_react/my-app/src/pages/Accounts.jsx:75-78 | the account id is remembered and the delete modal opens |
| AccountsPage.AccountsScreen.HandleDeleteUser | sms_react/my-app/src/pages/Accounts.jsx:80-88 | the remembered account is deleted; the modal closes exactly on success |
| AccountsPage.AccountsScreen.CurrentUsersWindow | sms_react/my-app/src/pages/Accounts.jsx:91-93 | the accounts on screen are `users[(p-1)*6 .. p*6)` clipped, at most 6, and none on page 0 |
| AccountsPage.AccountsScreen.PagesShowEveryUser | sms_react/my-app/src/pages/Accounts.jsx:91-94 | pages 1..totalPages together show every account once, in order |
| AccountsPage.AccountsScreen.Previous | sms_react/my-app/src/pages/Accounts.jsx:167-175 | the page becomes `max(p-1, 1)` (the disabled button on page 1 gives the same page) |
| AccountsPage.AccountsScreen.Next | sms_react/my-app/src/pages/Accounts.jsx:192-200 | the page becomes `min(p+1, totalPages)`, never past the last page, and 0 when there are no accounts |
| AccountsPage.AccountsScreen.GoToPage | sms_react/my-app/src/pages/Accounts.jsx:178-181 | a page button sets the page to its number, which lies in 1..totalPages |
| TeachersPage.TeacherAccountsExact | sms_react/my-app/src/pages/Teachers.jsx:32 | the dropdown holds exactly the accounts whose role is "teacher" |
| TeachersPage.TeacherAccountsKeepOrder | sms_react/my-app/src/pages/Teachers.jsx:32 | the dropdown keeps the order of the fetched accounts |
| TeachersPage.EditForm | sms_react/my-app/src/pages/Teachers.jsx:62-65 | the edit form takes the teacher's account and subject |
| TeachersPage.TeachersScreen.constructor | sms_react/my-app/src/pages/Teachers.jsx:5-17 | the initial state: empty lists, closed modals, the empty form, page 1 |
| TeachersPage.TeachersScreen.TeachersFetched | sms_react/my-app/src/pages/Teachers.jsx:21-26 | the fetched teachers replace the list; a failed fetch leaves it |
| TeachersPage.TeachersScreen.UsersFetched | sms_react/my-app/src/pages/Teachers.jsx:29-34 | the dropdown becomes the teacher accounts of the fetched list, so it only ever holds teacher accounts |
| TeachersPage.TeachersScreen.OpenAddModal | sms_react/my-app/src/pages/Teachers.jsx:109 | the add button opens the add modal |
| TeachersPage.TeachersScreen.HandleAddTeacher | sms_react/my-app/src/pages/Teachers.jsx:47-57 | the form is posted as it is; on success the modal closes and the form is reset to an empty account and subject |
| TeachersPage.TeachersScreen.OpenEditModal | sms_react/my-app/src/pages/Teachers.jsx:60-67 | the teacher is remembered, copied into the form, and the modal opens |
| TeachersPage.TeachersScreen.HandleEditTeacher | sms_react/my-app/src/pages/Teachers.jsx:69-79 | the remembered teacher is patched with the form; on success the modal closes and the form is reset |
| TeachersPage.TeachersScreen.OpenDeleteModal | sms_react/my-app/src/pages/Teachers.jsx:82-85 | the teacher id is remembered and the delete modal opens |
| TeachersPage.TeachersScreen.HandleDeleteTeacher | sms_react/my-app/src/pages/Teachers.jsx:87-95 | the remembered teacher is deleted; the modal closes exactly on success |
| TeachersPage.TeachersScreen.CurrentTeachersWindow | sms_react/my-app/src/pages/Teachers.jsx:98-101 | the teachers on screen are `teachers[(p-1)*5 .. p*5)` clipped, at most 5 |
| TeachersPage.TeachersScreen.ControlsShownIff | sms_react/my-app/src/pages/Teachers.jsx:173 | the controls are shown exactly when there are more than five teachers |
| TeachersPage.TeachersScreen.Previous | sms_react/my-app/src/pages/Teachers.jsx:175-181 | the page becomes `max(p-1, 1)` |
| TeachersPage.TeachersScreen.Next | sms_react/my-app/src/pages/Teachers.jsx:195-201 | the page becomes `min(p+1, totalPages)` and stays in 1..totalPages |
| TeachersPage.TeachersScreen.GoToPage | sms_react/my-app/src/pages/Teachers.jsx:182-194 | a page button sets the page to its number, in 1..totalPages |
| NoticesPage.EditForm | sms_react/my-app/src/pages/Notices.jsx:50 | the edit form takes the notice's title and message |
| NoticesPage.NoticeBoard.constructor | sms_react/my-app/src/pages/Notices.jsx:6-14 | the initial state: no notices, closed modals, the empty form, page 1 |
| NoticesPage.NoticeBoard.NoticesFetched | sms_react/my-app/src/pages/Notices.jsx:18-23 | the fetched notices replace the list; a failed fetch leaves it |
| NoticesPage.NoticeBoard.OpenAddModal | sms_react/my-app/src/pages/Notices.jsx:97 | the add button opens the add modal |
| NoticesPage.NoticeBoard.HandleAddNotice | sms_react/my-app/src/pages/Notices.jsx:35-45 | the form is posted as it is; on success the form is reset to an empty title and message and the modal closes |
| NoticesPage.NoticeBoard.OpenEditModal | sms_react/my-app/src/pages/Notices.jsx:48-52 | the notice is remembered, copied into the form, and the modal opens |
| NoticesPage.NoticeBoard.HandleEditNotice | sms_react/my-app/src/pages/Notices.jsx:54-64 | the remembered notice is patched with the form; on success the modal closes and the form is reset to an empty title and message |
| NoticesPage.NoticeBoard.OpenDeleteModal | sms_react/my-app/src/pages/Notices.jsx:67-70 | the notice id is remembered and the delete modal opens |
| NoticesPage.NoticeBoard.HandleDeleteNotice | sms_react/my-app/src/pages/Notices.jsx:72-80 | the remembered notice is deleted; the modal closes exactly on success |
| NoticesPage.NoticeBoard.CurrentNoticesWindow | sms_react/my-app/src/pages/Notices.jsx:83-85 | the notices on screen are `notices[(p-1)*5 .. p*5)` clipped, at most 5 |
| NoticesPage.NoticeBoard.PageCountIsCeiling | sms_react/my-app/src/pages/Notices.jsx:86 | the page count is the least number of five-notice pages that hold every notice |
| NoticesPage.NoticeBoard.ControlsShownIff | sms_react/my-app/src/pages/Notices.jsx:168 | the controls are shown exactly when there are more than five notices |
| NoticesPage.NoticeBoard.PrevPage | sms_react/my-app/src/pages/Notices.jsx:89 | the page becomes `max(p-1, 1)` |
| NoticesPage.NoticeBoard.NextPage | sms_react/my-app/src/pages/Notices.jsx:88 | the page becomes `min(p+1, totalPages)` and stays in 1..totalPages |

The functions below model source expressions directly and carry no contract of
their own. Each is covered by the rows above of the lemmas and methods about it,
which state what it computes:

- `ClassSerializer.StudentNames` (school_mgt22/smsproject/classes/serializers.py:17-22): `GetStudentNames`, `StudentNamesConcat`, `StudentNamesLength`, `StudentNamesAligned`.
- `AttendancePage.ExistingToday` (sms_react/my-app/src/pages/Attendance.jsx:70-74): `ExistingTodayIff`.
- `AttendancePage.FilterByName` (sms_react/my-app/src/pages/Attendance.jsx:107-111): `FilterByNameExact`, `EmptySearchKeepsAll`, `SearchIgnoresCase`.
- `DashboardPage.TodaysAttendance` (sms_react/my-app/src/pages/Dashboard.jsx:51-54): `TodaysAttendanceExact`, `TodaysAttendanceKeepsOrder`.
- `DashboardPage.CountStatus` (sms_react/my-app/src/pages/Dashboard.jsx:56-64): `CountStatusExact`, `StatusCountsSum`, `StatusCountsBounded`.
- `DashboardPage.TodaysNotices` and `DashboardPage.PastNotices` (sms_react/my-app/src/pages/Dashboard.jsx:84-90): `NoticesSplit`, `NoticesSplitKeepsOrder`.
- `ClassesPage.RemoveStudents` (sms_react/my-app/src/pages/Classes.jsx:392-397): `RemoveStudentsExact`, `RemoveStudentsPartitions`, `RemoveAbsentIsIdentity`, `RemoveUndoesAdd`.
- `ClassesPage.AppendIfAbsent` (sms_react/my-app/src/pages/Classes.jsx:94-97): `AppendIfAbsentSpec`, `AppendIfAbsentIdempotent`.
- `TeachersPage.TeacherAccounts` (sms_react/my-app/src/pages/Teachers.jsx:32): `TeacherAccountsExact`, `TeacherAccountsKeepOrder`.
- `Pagination.JsSlice` and `Pagination.PageWindow` (sms_react/my-app/src/pages/Accounts.jsx:91-93): `ResolveIndex`, `PageWindowIsClippedSlice`, `PageZeroIsEmpty`, `PageBeyondLastIsEmpty`, `RowOnItsPage`, `PagesArePrefix`, `PagesCoverList`.
- `Pagination.TotalPages` (sms_react/my-app/src/pages/Classes.jsx:139): `TotalPagesIsCeiling`.
- `Pagination.ClampedPrev` and `Pagination.ClampedNext` (sms_react/my-app/src/pages/Accounts.jsx:168, 193): `ClampedPrevBounds`, `ClampedNextBounds`, `ClampedStepsStayInRange`.
- `Pagination.GuardedPrev` and `Pagination.GuardedNext` (sms_react/my-app/src/pages/Classes.jsx:217-229): `GuardedStepsStayInRange`, `GuardedPrevAtLeastOne`, `GuardedNextPastLastPage`.
- `Pagination.ShowPagination` (sms_react/my-app/src/pages/Teachers.jsx:173): `ShowPaginationIff`.

## Left out

- Network requests (axios), Django views and URL routing. Every response is a parameter: `None` for a request that throws, `ok` for the outcome of a post, patch or delete. The list refetch that follows a successful post is a separate `...Fetched` call.
- `Promise.all` over the attendance creates. The creates run concurrently in the source. The model takes the set of students whose create fails and reports the stored creates, and it undoes none of them.
- The clock. "Today" is a string parameter. The source takes the UTC date from `toISOString`, not the local date.
- Rendering, styling, react-select, CountUp, react-calendar, the banner colour chosen by `includes("✅")`, and the table cells' `|| "—"` fallbacks.
- `handleInputChange` and the Classes page's `handleMultiSelect`: they overwrite one form field with a browser value. The model takes form contents as they are at submit.
- `Text.Lower`: lower-cases ASCII letters only; other Unicode case mappings of `toLowerCase` are not modelled.
- Profiles.ValidateLinkedUser: the pages post `user` as the select's string value. `Id(n)` stands for a JSON integer or a numeric string alike, so the string `"0"`, which is truthy in Python and reaches the lookup ("User does not exist."), is not told apart from the integer 0 ("User field is required."). A `user` value that is not a number is not modelled.
- ClassSerializer.Serialize: `students` and `student_names` come from two separate queries on the class's students, neither with an `ORDER BY`, and the student model declares no default ordering. The model gives both lists the order of `ClassRoom.students`, so it assumes the two queries return the students in the same order; the attendance page's positional pairing relies on that as well.
- AttendancePage.Entries: the posted `student` is the object key, which in JavaScript is the string form of the id (`"5"`, or `"undefined"` for a row without an id); the model keeps the id itself.
- ClassesPage.EditForm: `cls.students || []` is taken as `cls.students`, because the class serializer always sends a list.
- ClassesPage.ClassesScreen.HandleEditClass: `selectedStudent` is only ever set to `""` in the source (initial state and both resets), so the append never happens there. The model keeps the branch, with the selection as an optional id.
- Async interleavings. Two handlers racing while a request is pending are not modelled: each handler runs to completion before the next.
- Navigation and layout components, the Students page (whose role filter is the same as the Teachers page's), the account serializer's format string, and the commented-out signup serializer.
- Database uniqueness and persistence: the source states no atomicity or rollback, and the model adds none.
