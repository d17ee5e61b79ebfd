# Bright Spark e-learning: a Dafny model of the role rules

Bright Spark is a single-page learning platform for schools. Five roles use
it: super admin, school admin, teacher, student and parent. It has no
server. An authentication context signs users in against a fixed demo
directory, and a data context serves fixed collections of schools, users,
content, assignments, badges and progress. The pages then decide, each on
its own, what the signed-in user may see and do.

This project models those decisions as pure Dafny functions over immutable
records, and proves what they guarantee. It covers:

- **Records** (`Types`): the role, school, subject, content, assignment,
  progress and badge records. Optional fields are `Option`s. Each
  string-valued enumeration has a name function and a parser.
- **Session** (`Auth`): login, logout and the start-up restore of a saved
  user. Browser storage is one optional slot.
- **Data service** (`Data`): the fixtures, the five filtering fetches, and
  the requests each role issues when it signs in. The fetches take the
  collections as a `Store` parameter, so their contracts hold for any data.
- **Pages** (`StudentsPage`, `TeachersPage`, `UsersPage`, `SchoolsPage`,
  `ContentPages`, `AssignmentsPage`, `StudentDetailsPage`, `DashboardPage`):
  list filters, page gates, look-ups and the small display rules.
- **Forms** (`ContentFormPage`, `AssignmentFormPage`, `SchoolFormPage`,
  `TeacherFormPage`, with the shared outcome types in `Forms`): the save
  checks, reported as the first failing check; the edit prefill; and the
  id toggles.
- **Dashboard widgets** (`UpcomingAssignments`, `StudentList`): the
  due-date sort, days remaining, urgency and labels, initials and progress
  colours.
- **Navigation** (`Navigation`): the role-to-links table, the active link
  and the footer.

`Common` and `Text` hold generic helpers: an order-preserving filter,
counting, first-match look-up, and ASCII case mapping, splitting and digits.

The pages do not always agree on who may see or change what. The model
follows the code, and these lemmas show where the pages differ:

- A teacher's content list hides other teachers' items, but the details
  page opens any item by id (`ContentPages.DetailsIgnoreAuthorship`).
- A school admin may edit content from any school
  (`ContentPages.SchoolAdminEditsAcrossSchools`).
- An id that names neither a teacher nor a student gets every assignment.
  This covers admins, parents and unknown ids (`Data.FetchAssignments`,
  `AssignmentsPage.ParentSeesEveryAssignment`).
- A parent is always shown the records of student "4" (`Data.ParentLoad`).
- Every role may lack a school. A teacher or school admin without one sees
  no students on the dashboard (`StudentList.DashboardListEmpty`).
- The login page advertises a super-admin address that the directory does
  not hold (`Auth.AdvertisedSuperAdminLoginFails`).

Times are integer milliseconds, and the clock reading `now` is a
parameter. `Math.round` of a non-negative ratio is exact round-half-up.

## Model

| member | source | states |
|---|---|---|
| Types.ParseRole | src/types/auth.ts:2 | a string parses to a role only if it is that role's stored name |
| Types.RolesClosed | src/types/auth.ts:2 | there are exactly five distinct roles; every role's name parses back to it and no two roles share a name |
| Types.ParseStatus | src/types/data.ts:9 | a string parses to a subscription status only if it is that status's name |
| Types.StatusNames | src/types/data.ts:9 | active, trial and expired have non-empty names that parse back to them |
| Types.ParseContentType | src/types/data.ts:38 | a string parses to a content type only if it is that type's name |
| Types.ContentTypeNames | src/types/data.ts:38 | video, text, quiz and activity have non-empty names that parse back to them |
| Types.ViewerRole | src/pages/Students.tsx:61 | `user?.role \|\| ""` is empty exactly when nobody is signed in |
| Types.AdmitsExactly | src/pages/Students.tsx:61-62 | a role-list gate admits exactly the signed-in users whose role name is listed, and never a signed-out visitor |
| Types.RoleLabel | src/components/layout/Navigation.tsx:205 | replacing the first underscore keeps the role name's length |
| Types.RoleLabels | src/pages/Users.tsx:80 | the two admin roles display as "super admin" and "school admin"; the other roles display their names unchanged |
| Text.ReplaceFirst | src/pages/Users.tsx:80 | the replacement keeps the length, and a string without the character is returned as is |
| Text.ReplaceFirstSplit | src/pages/Users.tsx:80 | when the first occurrence follows a prefix free of the character, that occurrence alone becomes the replacement and everything before and after it is unchanged |
| Text.Capitalize | src/pages/Schools.tsx:132 | the first character is upper-cased and the rest is unchanged |
| Text.Split | src/components/dashboard/StudentList.tsx:18 | splitting on a character gives one more part than there are separators, and no part contains the separator |
| Text.JoinSplit | src/components/dashboard/StudentList.tsx:18-20 | joining the parts of a split with the same separator gives back the original string |
| Text.EmptySearchMatchesAll | src/pages/Students.tsx:29-31 | an empty search term matches every record |
| Text.NatToStringValue | src/components/dashboard/StudentList.tsx:73 | the decimal text of a number reads back as that number |
| Auth.Rehydrate | src/contexts/AuthContext.tsx:64-71 | start-up adopts the saved user; an empty slot leaves the user as it was; loading ends |
| Auth.RehydrateAtMount | src/contexts/AuthContext.tsx:64-71 | at mount, with nobody signed in, start-up restores exactly the saved user, or nobody |
| Auth.FindByEmail | src/contexts/AuthContext.tsx:82 | the look-up returns the first directory entry with exactly that e-mail, and nothing only when no entry has it |
| Auth.LoginWith | src/contexts/AuthContext.tsx:73-103 | login goes to the dashboard iff some entry has the e-mail and the password is "password"; on success the found user is set and saved and the error is cleared; on failure the error is "Invalid email or password" and user and slot are unchanged; loading always ends |
| Auth.LoginWithStorage | src/contexts/AuthContext.tsx:77-102 | with a working store this is the plain login; when the storage write fails after a match, the user is set but the slot keeps its old value, the error is "An error occurred during login" and there is no navigation; a failed match is unaffected |
| Auth.Logout | src/contexts/AuthContext.tsx:105-110 | logout clears the user and the slot and goes to /login, leaving loading and error as they were |
| Auth.LogoutIdempotent | src/contexts/AuthContext.tsx:105-108 | logging out twice is the same as logging out once |
| Auth.LoginThenLogout | src/contexts/AuthContext.tsx:64-71 | after login and then logout, a reload restores nobody |
| Auth.LoginSurvivesReload | src/contexts/AuthContext.tsx:84-86 | after a successful login, a reload restores the same user |
| Auth.DirectoryAccountsLogIn | src/contexts/AuthContext.tsx:8-48 | every directory account signs in with the demo password |
| Auth.AdvertisedSuperAdminLoginFails | src/pages/Login.tsx:88 | the advertised address super_admin@brightspark.com is refused even with the right password, because the directory holds admin@brightspark.com |
| Data.FetchUsers | src/contexts/DataContext.tsx:317-323 | without a role, every user in store order; with a role, exactly the users of that role, as an order-preserving subsequence |
| Data.FetchLearningContent | src/contexts/DataContext.tsx:343-350 | an absent or empty subject id gives all content; otherwise exactly that subject's content, in order |
| Data.FetchAssignments | src/contexts/DataContext.tsx:358-373 | a teacher id gets exactly the assignments it set; a student id exactly those listing it; any other id, known or not, gets every assignment |
| Data.FetchUserBadges | src/contexts/DataContext.tsx:393-398 | exactly the awards of that user, in order |
| Data.FetchStudentProgress | src/contexts/DataContext.tsx:406-411 | exactly the progress records of that student, in order |
| Data.FixtureStudentFour | src/contexts/DataContext.tsx:198-221 | on the fixtures, student "4" gets both assignments |
| Data.FixtureStudentSeven | src/contexts/DataContext.tsx:198-221 | on the fixtures, student "7" gets only assignment "1" |
| Data.FixtureTeacherSix | src/contexts/DataContext.tsx:198-221 | on the fixtures, teacher "6" gets only assignment "2" |
| Data.FixtureUnknownId | src/contexts/DataContext.tsx:361-369 | an id that names no fixture user gets every assignment |
| Data.ApplyCommutes | src/contexts/DataContext.tsx:317-411 | two requests that replace different collections give the same state in either order |
| Data.InitialFetchesByRole | src/contexts/DataContext.tsx:420-453 | the exact request list of each role's initial load |
| Data.InitialLoad | src/contexts/DataContext.tsx:423-451 | every role loads schools, subjects and badges; only the admin roles load users; only teacher and school admin load content; admins load no assignments; a parent loads student "4"; no two requests replace the same collection |
| Data.LoadDistinct | src/contexts/DataContext.tsx:423-451 | no role's initial load issues two requests that replace the same collection |
| Data.ParentLoad | src/contexts/DataContext.tsx:445-451 | after a parent's load, assignments, badges and progress are student "4"'s, whatever the parent's id, and no users or content are loaded |
| StudentsPage.FilteredStudents | src/pages/Students.tsx:28-45 | the list is an order-preserving subsequence; a user is listed iff they are a student matching the search and, for a school admin or teacher, from the viewer's school |
| StudentsPage.UnscopedSeesAllSchools | src/pages/Students.tsx:43-44 | any other viewer sees the matching students of every school |
| StudentsPage.FilteredStudentsIdempotent | src/pages/Students.tsx:28-45 | filtering the shown list again changes nothing |
| StudentsPage.SuperAdminSeesAllFetchedStudents | src/pages/Students.tsx:43-44 | with an empty search, a super admin sees exactly the fetched students, in order |
| StudentsPage.SuperAdminListsEveryStudent | src/pages/Students.tsx:22-24 | after the mount request, a super admin with an empty search sees every student of the store, in store order |
| StudentsPage.StudentGates | src/pages/Students.tsx:61-62 | managing implies viewing; the admin roles view and manage; a teacher views only; students, parents and signed-out visitors cannot view |
| TeachersPage.FilteredTeachers | src/pages/Teachers.tsx:27-39 | a user is listed iff they are a teacher matching the search and, for a school admin, from the admin's school; the order is kept |
| TeachersPage.EmptySearchTeachers | src/pages/Teachers.tsx:28-30 | an empty search restricts nothing beyond role and scope |
| TeachersPage.SchoolAdminListsOwnTeachers | src/pages/Teachers.tsx:21-35 | after the mount request, a school admin sees exactly the store's teachers of their own school |
| TeachersPage.TeacherGate | src/pages/Teachers.tsx:55 | only the two admin roles manage teachers; everyone else is denied |
| UsersPage.FilteredUsers | src/pages/Users.tsx:31-39 | a user is listed iff the search, the role filter and the school filter all match, with "" as a wildcard; the order is kept |
| UsersPage.RoleFilterForcesRole | src/pages/Users.tsx:35 | a non-empty role filter forces that role on every listed user, and one naming no role lists nobody |
| UsersPage.NoFiltersListsEveryone | src/pages/Users.tsx:31-39 | with no search and no filters, everyone is listed |
| UsersPage.RoleBadgeColour | src/pages/Users.tsx:69-83 | a string gets the gray fallback colour iff it names no role (inherited object keys are admitted under Left out) |
| UsersPage.RoleBadgeColoursDistinct | src/pages/Users.tsx:69-76 | distinct roles get distinct badge colours |
| UsersPage.SchoolColumn | src/pages/Users.tsx:164-184 | shows the name of the first school with the user's school id when one exists; otherwise "N/A" exactly for a super admin, else "Unassigned" |
| SchoolsPage.FilteredSchools | src/pages/Schools.tsx:29-36 | a school is listed iff the search on name or address and the status filter both match; the order is kept |
| SchoolsPage.StatusFilterForcesStatus | src/pages/Schools.tsx:33 | a non-empty status filter forces that status, and one naming no status lists nothing |
| SchoolsPage.NoFiltersListsEverySchool | src/pages/Schools.tsx:29-36 | with no search and no filter, every school is listed |
| SchoolsPage.StatusLabel | src/pages/Schools.tsx:132 | the badge text upper-cases the status's first letter and keeps the rest |
| SchoolsPage.StatusLabels | src/pages/Schools.tsx:132 | the labels read "Active", "Trial" and "Expired" |
| SchoolsPage.StatusColourOf | src/pages/Schools.tsx:126-130 | green exactly for active and red exactly for expired |
| SchoolsPage.TrialEndOnlyOnTrial | src/pages/Schools.tsx:143 | a trial end date is shown only for a trial school that has one |
| ContentPages.FilteredContent | src/pages/Content.tsx:39-49 | an item is listed iff search, subject filter, type filter and, for a teacher, authorship all hold; the order is kept |
| ContentPages.AuthorshipOnlyForTeachers | src/pages/Content.tsx:46 | with no search or filters, a teacher sees exactly their own items and every other viewer sees everything |
| ContentPages.CreateGate | src/pages/Content.tsx:60 | the add action is withheld exactly from students, parents and signed-out visitors |
| ContentPages.IconFor | src/pages/Content.tsx:26-37 | the default icon goes to exactly the strings other than video, text and quiz |
| ContentPages.TypeIcons | src/pages/ContentDetails.tsx:50-63 | activity gets the default icon, and distinct content types get distinct icons |
| ContentPages.OpenDetails | src/pages/ContentDetails.tsx:24-36 | no id keeps the placeholder; an unknown id gives not-found; otherwise the first item with that id, the first subject with its subject id and the first user with its creator id, each present only when one matches |
| ContentPages.DetailsRedirect | src/pages/ContentDetails.tsx:31-33 | the page navigates back to the list exactly when the item is not found |
| ContentPages.SubjectLabel | src/pages/ContentDetails.tsx:100 | the subject's name when it has one, else "Unknown Subject" |
| ContentPages.EditRights | src/pages/ContentDetails.tsx:76-78 | both admin roles may edit any item; a teacher exactly their own; students, parents and signed-out visitors never |
| ContentPages.SchoolAdminEditsAcrossSchools | src/pages/ContentDetails.tsx:76-77 | a school admin may edit an item whose author belongs to another school |
| ContentPages.DetailsIgnoreAuthorship | src/pages/ContentDetails.tsx:24-36 | another teacher's item is missing from a teacher's list, yet the details page shows it (without edit rights) |
| ContentFormPage.Prefill | src/pages/ContentForm.tsx:37-53 | the edit form copies the item's fields; a missing URL becomes "" |
| ContentFormPage.Open | src/pages/ContentForm.tsx:23-53 | blank for a new item; for an edit the prefilled form of the first item with that id, or "Content not found" and back to /content when there is none |
| ContentFormPage.Submit | src/pages/ContentForm.tsx:65-85 | rejected iff title, subject, type or key stage is empty; a save shows the create or update message and goes to /content |
| ContentFormPage.OptionalFieldsNeverRequired | src/pages/ContentForm.tsx:68 | description and both URLs never decide rejection |
| ContentFormPage.BlankRejected | src/pages/ContentForm.tsx:23-31 | the blank form is always rejected |
| ContentFormPage.PrefillThenSubmit | src/pages/ContentForm.tsx:37-85 | re-saving an item unchanged succeeds iff it has a title, a subject and a key stage |
| ContentFormPage.FormGate | src/pages/ContentForm.tsx:95 | exactly teacher, school admin and super admin may use the form |
| AssignmentFormPage.Toggle | src/pages/AssignmentForm.tsx:99-103 | toggling flips membership of the id; an absent id is appended at the end; a present id is removed with all its copies, every other id keeping its count and order |
| AssignmentFormPage.ToggleTwiceRestores | src/pages/AssignmentForm.tsx:99-103 | toggling an absent id twice restores the list |
| AssignmentFormPage.ToggleKeepsNoDuplicates | src/pages/AssignmentForm.tsx:99-103 | a selection without repeats keeps none |
| AssignmentFormPage.ToggleTwiceSameSet | src/pages/AssignmentForm.tsx:95-117 | toggling twice gives back the same set of ids |
| AssignmentFormPage.ToggleStudent | src/pages/AssignmentForm.tsx:95-105 | the student toggle flips one id and changes no other field |
| AssignmentFormPage.ToggleContent | src/pages/AssignmentForm.tsx:107-117 | the content toggle flips one id and changes no other field |
| AssignmentFormPage.SelectSubject | src/pages/AssignmentForm.tsx:85-93 | choosing a subject sets it, empties the content selection and keeps the rest |
| AssignmentFormPage.Submit | src/pages/AssignmentForm.tsx:119-149 | reports the first failing check: the required fields, then at least one student, then at least one content item; saves iff all pass |
| AssignmentFormPage.SubjectChangeNeedsContent | src/pages/AssignmentForm.tsx:85-93 | changing the subject of a complete form makes it fail the content check |
| AssignmentFormPage.ToggledSelectionSaves | src/pages/AssignmentForm.tsx:95-149 | required fields plus one toggled student and one toggled content item are enough to save |
| AssignmentFormPage.SelectableStudents | src/pages/AssignmentForm.tsx:62-68 | a teacher with a school may pick exactly that school's students; anyone else keeps the empty list |
| AssignmentFormPage.AvailableContent | src/pages/AssignmentForm.tsx:70-78 | exactly the chosen subject's content, and nothing before a subject is chosen |
| AssignmentFormPage.Prefill | src/pages/AssignmentForm.tsx:41-58 | the edit form copies the assignment's fields and id lists |
| AssignmentFormPage.Open | src/pages/AssignmentForm.tsx:27-58 | blank for a new assignment; for an edit the prefilled form of the first one with that id, or "Assignment not found" and back to /assignments |
| AssignmentFormPage.PrefillThenSubmit | src/pages/AssignmentForm.tsx:41-149 | a complete existing assignment saves again unchanged |
| AssignmentFormPage.FormGate | src/pages/AssignmentForm.tsx:159 | every role except teacher, and a signed-out visitor, is denied |
| SchoolFormPage.PlanFeatures | src/pages/SchoolForm.tsx:283-287 | no panel exactly when no plan is chosen; an id that names no plan shows the panel with an empty list; otherwise the features of the first plan with that id |
| SchoolFormPage.PlanFeatureTable | src/pages/SchoolForm.tsx:33-58 | the basic, premium and enterprise features; no panel for the empty id and an empty panel for any other id |
| SchoolFormPage.Prefill | src/pages/SchoolForm.tsx:64-79 | the edit form copies the school's fields; a missing trial end becomes "" |
| SchoolFormPage.Open | src/pages/SchoolForm.tsx:22-88 | the blank trial form for a new school; for an edit the prefilled form of the first one with that id, or "School not found" and back to /schools |
| SchoolFormPage.Submit | src/pages/SchoolForm.tsx:100-124 | saved exactly when name, address, plan and status are filled and the form is not a trial without an end date; the missing-field check comes first; a save goes to /schools |
| SchoolFormPage.TrialDateOnlyForTrial | src/pages/SchoolForm.tsx:108-111 | with the required fields filled, a save goes through iff the status is not trial or a date is given |
| SchoolFormPage.PrefillThenSubmit | src/pages/SchoolForm.tsx:64-124 | re-saving a school succeeds iff it has name, address and plan and, on trial, a trial end date |
| SchoolFormPage.FormGate | src/pages/SchoolForm.tsx:134 | every role except super admin is denied |
| TeacherFormPage.DefaultSchoolId | src/pages/TeacherForm.tsx:21-26 | a school admin's new form starts on their school, or "" without one; everyone else's starts on "" |
| TeacherFormPage.ValidEmailMatchesPattern | src/pages/TeacherForm.tsx:66-67 | the e-mail scan accepts exactly the strings the pattern `^[^\s@]+@[^\s@]+\.[^\s@]+$` matches |
| TeacherFormPage.AcceptsShortAddress | src/pages/TeacherForm.tsx:66-67 | "a@b.c" is accepted |
| TeacherFormPage.RefusesTwoAts | src/pages/TeacherForm.tsx:66-67 | a second "@" is refused |
| TeacherFormPage.RefusesDotAtEdge | src/pages/TeacherForm.tsx:66-67 | a dot right after the "@" or at the end is refused |
| TeacherFormPage.Submit | src/pages/TeacherForm.tsx:57-83 | saved exactly when name and e-mail are filled, a super admin has chosen a school, and the e-mail matches the pattern; the required-field error wins over the e-mail error; a save goes to /teachers |
| TeacherFormPage.SchoolOnlyRequiredOfSuperAdmin | src/pages/TeacherForm.tsx:60 | a school admin without a school can add a teacher without one, while a super admin cannot |
| TeacherFormPage.Prefill | src/pages/TeacherForm.tsx:31-46 | the edit form copies name and e-mail; a missing school or avatar becomes "" |
| TeacherFormPage.Open | src/pages/TeacherForm.tsx:31-46 | for an edit, the first user with the id and the teacher role, or "Teacher not found" and back to /teachers |
| TeacherFormPage.EditRequiresTeacher | src/pages/TeacherForm.tsx:33 | a matching id that is not a teacher is not found |
| TeacherFormPage.FormGate | src/pages/TeacherForm.tsx:93-95 | the form admits the same viewers as the teachers page; teachers, students, parents and signed-out visitors are denied |
| StudentDetailsPage.DetailsGate | src/pages/StudentDetails.tsx:115 | every signed-in role except student may open the page |
| StudentDetailsPage.FindStudent | src/pages/StudentDetails.tsx:54 | the first user with the id and the student role, and none only when no user has both |
| StudentDetailsPage.JoinBadge | src/pages/StudentDetails.tsx:60-68 | an unmatched badge shows "Unknown Badge" with empty texts; otherwise name (or "Unknown Badge" when empty), description and image come from the first badge with that id |
| StudentDetailsPage.JoinBadges | src/pages/StudentDetails.tsx:60-69 | one entry per award, in award order |
| StudentDetailsPage.BadgeStrip | src/pages/StudentDetails.tsx:165-170 | the first three badges, and a "+n more" chip exactly when there are more, counting the rest |
| StudentDetailsPage.Aggregate | src/pages/StudentDetails.tsx:75-93 | one tally per subject id; the total counts that subject's content; completed counts the items whose first progress record says 100; completed never exceeds total |
| StudentDetailsPage.AddItemTallies | src/pages/StudentDetails.tsx:82-92 | counting one more content item keeps every subject's total and completed count exact: a listed subject's total goes up by one, its completed count too when the first progress record says 100, and an unlisted subject is skipped |
| StudentDetailsPage.RoundRatio | src/pages/StudentDetails.tsx:99 | the result is the ratio rounded half up |
| StudentDetailsPage.ExactRoundingAt23Of40 | src/pages/StudentDetails.tsx:99 | 23 of 40 completed items give 58 per cent under exact rounding, the input where the double arithmetic differs (see Left out) |
| StudentDetailsPage.Percent | src/pages/StudentDetails.tsx:96-108 | within 0..100; 0 without items or completions; 100 when all are completed; otherwise the rounded share |
| StudentDetailsPage.Rows | src/pages/StudentDetails.tsx:96-108 | one row per subject, in order, with its counters, and its percentage is `Percent` of that subject's tally (the rounded completed share, at most 100) |
| StudentDetailsPage.Overall | src/pages/StudentDetails.tsx:143-145 | the rounded mean of the subject percentages, within 0..100, and 0 without subjects |
| StudentDetailsPage.OverallOfEqualRows | src/pages/StudentDetails.tsx:143-145 | when every subject stands at p, the overall figure is p |
| StudentDetailsPage.LabelFor | src/pages/StudentDetails.tsx:194-196 | the four labels partition the scale at 30, 60 and 80 |
| StudentDetailsPage.LabelMonotone | src/pages/StudentDetails.tsx:194-196 | the label never moves down as progress grows |
| StudentDetailsPage.PastDue | src/pages/StudentDetails.tsx:214 | at most the number of assignments, and 0 iff none is due before now |
| StudentDetailsPage.PastDueMatchesOverdueFilter | src/pages/StudentDetails.tsx:214 | the past-due figure equals the length of the assignments page's "overdue" list |
| DashboardPage.MountFetchesByRole | src/pages/Dashboard.tsx:35-47 | subjects always; students for teacher and both admins; own assignments for student and teacher; nothing when signed out; no collection is requested twice |
| DashboardPage.GetStudents | src/pages/Dashboard.tsx:50-59 | exactly min(5, n) of the n qualifying students (any school for a super admin, the viewer's school otherwise), all students; without a school, none |
| DashboardPage.GetStudentsIsPrefix | src/pages/Dashboard.tsx:50-59 | the list is a prefix of the qualifying students, and all of them when there are at most five |
| DashboardPage.SuperAdminIgnoresOwnSchool | src/pages/Dashboard.tsx:51-52 | the super admin branch wins: a super admin's own school makes no difference |
| DashboardPage.RenderDashboard | src/pages/Dashboard.tsx:498-514 | nothing is rendered exactly when nobody is signed in |
| DashboardPage.RenderDashboardByRole | src/pages/Dashboard.tsx:501-511 | two users see the same dashboard iff they have the same role |
| DashboardPage.SchoolAdminCounts | src/pages/Dashboard.tsx:163-170 | the teacher and student counts never exceed the counts of those roles overall |
| DashboardPage.TeacherCountMatchesTeachersPage | src/pages/Dashboard.tsx:163 | the teacher count equals the length of the teachers page's list for the same admin with an empty search |
| DashboardPage.StudentCountMatchesStudentsPage | src/pages/Dashboard.tsx:170 | the student count equals the length of the students page's list for the same admin with an empty search |
| AssignmentsPage.DueStatusOf | src/pages/Assignments.tsx:33-44 | overdue iff due before now; soon iff due within three days; upcoming otherwise |
| AssignmentsPage.DueStatusMonotone | src/pages/Assignments.tsx:33-44 | as time passes, overdue stays overdue and soon never becomes upcoming |
| AssignmentsPage.FilteredAssignments | src/pages/Assignments.tsx:59-66 | an assignment is listed iff search, subject filter and status filter all hold, with "" as a wildcard; the order is kept |
| AssignmentsPage.OverdueFilter | src/pages/Assignments.tsx:59-66 | the "overdue" filter keeps exactly the otherwise-listed assignments due before now |
| AssignmentsPage.FlagsOf | src/pages/Assignments.tsx:28-31 | the admin flag holds iff the role is school admin or super admin |
| AssignmentsPage.FlagsExclusive | src/pages/Assignments.tsx:28-31 | exactly one role flag holds when signed in, none otherwise |
| AssignmentsPage.CardAction | src/pages/Assignments.tsx:203-207 | a card links to its edit form exactly for a teacher |
| AssignmentsPage.TeacherActions | src/pages/Assignments.tsx:83 | the create action and the edit links are offered to the same viewers, the teachers |
| AssignmentsPage.MountFetches | src/pages/Assignments.tsx:21-26 | subjects first; assignments only when signed in, and only for the viewer's own id |
| AssignmentsPage.ParentSeesEveryAssignment | src/pages/Assignments.tsx:21-26 | a parent is shown every assignment, not their child's |
| UpcomingAssignments.Insert | src/components/dashboard/UpcomingAssignments.tsx:35-37 | insertion adds one element and keeps the others |
| UpcomingAssignments.InsertSorted | src/components/dashboard/UpcomingAssignments.tsx:35-37 | inserting into a due-ordered list keeps it due-ordered |
| UpcomingAssignments.SortByDue | src/components/dashboard/UpcomingAssignments.tsx:35-37 | the result is a permutation of the input, ordered by due time |
| UpcomingAssignments.SortStable | src/components/dashboard/UpcomingAssignments.tsx:35-37 | assignments due at the same time keep their input order |
| UpcomingAssignments.SortKeepsSorted | src/components/dashboard/UpcomingAssignments.tsx:35-37 | a list already in due order is left as it is |
| UpcomingAssignments.DaysRemaining | src/components/dashboard/UpcomingAssignments.tsx:26-32 | the result is the ceiling of the time left in days |
| UpcomingAssignments.DaysRemainingIsCeiling | src/components/dashboard/UpcomingAssignments.tsx:30 | the only whole number d with (d-1) days < time left <= d days is the result |
| UpcomingAssignments.DaysRemainingMonotone | src/components/dashboard/UpcomingAssignments.tsx:26-32 | a later due date never has fewer days remaining |
| UpcomingAssignments.UrgencyOf | src/components/dashboard/UpcomingAssignments.tsx:66-70 | red iff at most one day remains; green iff more than three |
| UpcomingAssignments.UrgencyMonotone | src/components/dashboard/UpcomingAssignments.tsx:66-70 | more days never give a more urgent colour |
| UpcomingAssignments.LabelOf | src/components/dashboard/UpcomingAssignments.tsx:73-77 | due today iff 0 days; overdue by the absolute count iff negative; otherwise the days left |
| UpcomingAssignments.LabelText | src/components/dashboard/UpcomingAssignments.tsx:73-77 | every label text is non-empty |
| UpcomingAssignments.ParseLabel | src/components/dashboard/UpcomingAssignments.tsx:73-77 | only a non-empty text parses to a label |
| UpcomingAssignments.ParseLabelText | src/components/dashboard/UpcomingAssignments.tsx:73-77 | every label's text parses back to that label |
| UpcomingAssignments.LabelTextDeterminesDays | src/components/dashboard/UpcomingAssignments.tsx:73-77 | different day counts never show the same text |
| UpcomingAssignments.Render | src/components/dashboard/UpcomingAssignments.tsx:48-77 | the empty state iff there are no assignments; otherwise the cards' assignments are the stable due-order sort of the input, and each card's colour and badge text follow its days remaining |
| UpcomingAssignments.RenderUrgencyOrdered | src/components/dashboard/UpcomingAssignments.tsx:55-71 | down the list the cards never get more urgent |
| UpcomingAssignments.DueStatusAgreesWithDays | src/pages/Assignments.tsx:33-44 | the assignments page's overdue, soon and upcoming agree with the widget's day count and urgency at the edges |
| UpcomingAssignments.OverdueYetDueToday | src/components/dashboard/UpcomingAssignments.tsx:73-74 | an assignment due a millisecond ago is overdue on the assignments page but "Due today" in the widget |
| StudentList.FirstChars | src/components/dashboard/StudentList.tsx:19-20 | at most one character per part |
| StudentList.Initials | src/components/dashboard/StudentList.tsx:16-22 | at most one initial per space-separated part |
| StudentList.FirstCharsAreWordStarts | src/components/dashboard/StudentList.tsx:16-22 | splitting and taking first characters picks exactly the characters that start a word |
| StudentList.InitialsAreWordStarts | src/components/dashboard/StudentList.tsx:16-22 | the initials are the upper-cased word starts |
| StudentList.TwoWordInitials | src/components/dashboard/StudentList.tsx:16-22 | a first and last name give their two upper-cased first letters |
| StudentList.ProgressColour | src/components/dashboard/StudentList.tsx:66-70 | green iff at least 75; red iff below 50 |
| StudentList.ProgressColourMonotone | src/components/dashboard/StudentList.tsx:66-70 | more progress never gives a worse colour |
| StudentList.Render | src/components/dashboard/StudentList.tsx:39-75 | "No students found" iff there are none; otherwise one row per student, in order, with its initials, avatar address, progress figure, colour and "<n>% Progress" badge |
| StudentList.BadgeShowsProgress | src/components/dashboard/StudentList.tsx:73 | the badge text "n% Progress" reads back as n |
| StudentList.DashboardListEmpty | src/pages/Dashboard.tsx:50-59 | the widget is empty iff the dashboard found no students; a non-super-admin without a school always sees it empty; at most five rows |
| Navigation.NavItems | src/components/layout/Navigation.tsx:162 | the dashboard link comes first, and it is the only link exactly when nobody is signed in |
| Navigation.Paths | src/components/layout/Navigation.tsx:36-162 | one path per item, in order |
| Navigation.MenuPaths | src/components/layout/Navigation.tsx:44-160 | each role's exact list of link paths |
| Navigation.AdminLinks | src/components/layout/Navigation.tsx:45-56 | /schools and /users appear iff super admin; /teachers iff school admin |
| Navigation.StaffLinks | src/components/layout/Navigation.tsx:44-160 | /students appears iff school admin or teacher; /content iff one of the three staff roles |
| Navigation.AssignmentsLink | src/components/layout/Navigation.tsx:44-160 | /assignments appears iff teacher, student or parent |
| Navigation.PathsDistinct | src/components/layout/Navigation.tsx:44-160 | no menu lists a path twice |
| Navigation.AtMostOneActive | src/components/layout/Navigation.tsx:30-32 | at most one link is highlighted, and one is iff the location is exactly one of the menu's paths |
| Navigation.OneActive | src/components/layout/Navigation.tsx:30-32 | in a list with distinct paths, at most one item matches a location, and one does iff its path is listed |
| Navigation.LinksLeadToAdmittingPages | src/components/layout/Navigation.tsx:44-160 | the schools, users and content links appear exactly for viewers their pages admit; the students and teachers links only for admitted viewers; a super admin is admitted to both pages yet gets neither link |
| Navigation.Footer | src/components/layout/Navigation.tsx:205 | the footer reads "name (role label)", and " ()" when signed out |

## Left out

- Rendering, icons, CSS classes, toasts and the `setTimeout` delays are left out. Icon and colour choices are enumerations. Navigation and toasts are returned as outcomes.
- React state, hooks and effect scheduling are left out. Each effect or handler is a pure function of explicit inputs.
- The request list is modelled, not the asynchronous completion order of the requests. `Data.InitialLoad` shows that the order does not matter for the initial load.
- Browser storage and JSON encoding are modelled as one optional slot holding a user.
- The unused axios client and base URL are left out.
- The "Login failed" toast of the login's `catch` path is left out; the path itself is modelled for a failed storage write (`Auth.LoginWithStorage`), the only step in the try block that can throw once the delay is gone.
- The `Math.random` progress and stat figures are parameters (`StudentList.Render`) or left out (the mock dashboard numbers, the Students page progress column).
- Parsing and formatting dates (date-fns, `Intl`, `new Date(string)`) is left out. Due dates are integer milliseconds and `now` is a parameter. Other timestamps are opaque strings. An unparseable date (NaN) in the sort is not modelled.
- Floating point is left out. `Math.round` of a ratio is exact round-half-up on rationals, so rounding error in the double division is not modelled. It shows at 23 of 40 items: the model gives 58 (`StudentDetailsPage.ExactRoundingAt23Of40`), while the double product `(23 / 40) * 100` is 57.49999999999999 and rounds to 57.
- Case mapping is ASCII only, and `\s` is a fixed set of whitespace code points.
- StudentList.Initials: strings are sequences of Unicode scalar values, while `n[0]` indexes UTF-16 code units, so a word starting with a character outside the Basic Multilingual Plane (an emoji, say) gives a whole character here and a lone surrogate in the source.
- Text.Capitalize: `charAt(0)` likewise takes one UTF-16 code unit; the model takes the first scalar value. The statuses it is applied to are ASCII, where the two agree.
- UsersPage.RoleBadgeColour: the colour table is a plain object, so an inherited key such as "constructor" or "toString" is truthy and does not fall back to gray; the model gives gray to every string that names no role. The source only passes stored roles, which are role names.
- Delete buttons and their handlers are left out: they only show a toast.
- The hard-coded display literals are left out: the stat-card numbers, the parent dashboard's fixed child card, the subscription usage bars, "By: teacher" and the student counts on assignment cards, and the "Not Started" text.
- Where a "View Details" button goes is left out beyond `AssignmentsPage.CardAction`.
- The "Unknown user role" branch of the dashboard is not modelled, because the role set is closed.
- `StudentDetailsPage.Aggregate` does not model inherited object keys such as "constructor" as subject ids. Keys are plain strings in a map.
- The Students and Teachers pages' school cells, and the content card's creator line, are left out. They use the same look-up as `UsersPage.SchoolColumn` and `ContentPages.OpenDetails`.
- The student details page's own mount requests are left out. The page reads the collections the data context already holds.
- `AssignmentFormPage.SelectSubject` does not model the `fetchLearningContent(value)` request it also issues.
- Routing and the page shell (App.tsx, MainLayout.tsx) and the presentation-only StatCard and SubjectCard components are not part of this model.
