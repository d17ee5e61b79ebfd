/** The dashboard page: the requests it issues on mount, the student list
    it hands to the student-list widget, the dashboard each role sees, and
    the school admin's teacher and student counts. */
module DashboardPage {
  import opened Common
  import opened Types
  import opened Data
  import opened Text
  import TeachersPage
  import StudentsPage

  /** The requests issued when the page mounts: subjects always; the
      students for teachers and both admin roles; the viewer's own
      assignments for students and teachers. Nothing when signed out. */
  function MountFetches(v: Viewer): seq<Fetch> {
    if v.None? then []
    else
      var u := v.value;
      [Subjects]
      + (if u.role == Teacher || u.role == SchoolAdmin || u.role == SuperAdmin then [UsersWithRole(Student)] else [])
      + (if u.role == Student || u.role == Teacher then [AssignmentsOf(u.id)] else [])
  }

  /** The mount requests by role. */
  lemma MountFetchesByRole(v: Viewer)
    ensures v.None? ==> MountFetches(v) == []
    ensures HasRole(v, SuperAdmin) || HasRole(v, SchoolAdmin) ==> MountFetches(v) == [Subjects, UsersWithRole(Student)]
    ensures HasRole(v, Teacher) ==> MountFetches(v) == [Subjects, UsersWithRole(Student), AssignmentsOf(v.value.id)]
    ensures HasRole(v, Student) ==> MountFetches(v) == [Subjects, AssignmentsOf(v.value.id)]
    ensures HasRole(v, Parent) ==> MountFetches(v) == [Subjects]
    ensures DistinctTargets(MountFetches(v))
  {
  }

  /** A student of the viewer's school (`undefined === undefined` counts). */
  function SameSchoolStudent(v: Viewer): User -> bool
    requires v.Some?
  {
    (u: User) => u.role == Student && u.schoolId == v.value.schoolId
  }

  /** `getStudents`: a super admin gets the first five students of any
      school, whatever their own school; any other viewer with a school
      gets the first five students of that school; anyone else gets none. */
  function GetStudents(v: Viewer, users: seq<User>): (r: seq<User>)
    ensures |r| <= 5
    ensures HasRole(v, SuperAdmin) ==>
              var all := Filter(users, (u: User) => u.role == Student);
              |r| == if |all| <= 5 then |all| else 5
    ensures !HasRole(v, SuperAdmin) && HasSchool(v) ==>
              var all := Filter(users, SameSchoolStudent(v));
              |r| == if |all| <= 5 then |all| else 5
    ensures forall u :: u in r ==> u in users && u.role == Student
    ensures !HasRole(v, SuperAdmin) && HasSchool(v) ==> forall u :: u in r ==> u.schoolId == v.value.schoolId
    ensures !HasRole(v, SuperAdmin) && !HasSchool(v) ==> r == []
  {
    if HasRole(v, SuperAdmin) then Take(Filter(users, (u: User) => u.role == Student), 5)
    else if HasSchool(v) then Take(Filter(users, SameSchoolStudent(v)), 5)
    else []
  }

  /** The list is a prefix of the qualifying students, and is complete
      when there are at most five of them. */
  lemma GetStudentsIsPrefix(v: Viewer, users: seq<User>)
    ensures HasRole(v, SuperAdmin) ==>
              var all := Filter(users, (u: User) => u.role == Student);
              GetStudents(v, users) == all[..|GetStudents(v, users)|]
              && (|all| <= 5 ==> GetStudents(v, users) == all)
    ensures !HasRole(v, SuperAdmin) && HasSchool(v) ==>
              var all := Filter(users, SameSchoolStudent(v));
              GetStudents(v, users) == all[..|GetStudents(v, users)|]
              && (|all| <= 5 ==> GetStudents(v, users) == all)
  {
  }

  /** The super-admin branch wins: a super admin's list ignores the
      school they may carry. */
  lemma SuperAdminIgnoresOwnSchool(u: User, s: Option<string>, users: seq<User>)
    requires u.role == SuperAdmin
    ensures GetStudents(Some(u.(schoolId := s)), users) == GetStudents(Some(u), users)
  {
  }

  /** The dashboard each role sees. */
  datatype DashboardView = SuperAdminDashboard | SchoolAdminDashboard | TeacherDashboard
                         | StudentDashboard | ParentDashboard

  /** `renderDashboard`: nothing for a signed-out visitor, else the role's
      own dashboard. (The source's "Unknown user role" fallback cannot be
      reached: the role set is closed.) */
  function RenderDashboard(v: Viewer): (r: Option<DashboardView>)
    ensures r.None? <==> v.None?
  {
    match v
    case None => None
    case Some(u) =>
      match u.role
      case SuperAdmin => Some(SuperAdminDashboard)
      case SchoolAdmin => Some(SchoolAdminDashboard)
      case Teacher => Some(TeacherDashboard)
      case Student => Some(StudentDashboard)
      case Parent => Some(ParentDashboard)
  }

  /** Different roles see different dashboards, and the view depends on
      the role only. */
  lemma RenderDashboardByRole(a: User, b: User)
    ensures RenderDashboard(Some(a)) == RenderDashboard(Some(b)) <==> a.role == b.role
  {
  }

  /** The school admin's headline counts: teachers and students whose
      school is the admin's. */
  function SchoolAdminCounts(v: Viewer, users: seq<User>): (r: (nat, nat))
    requires HasRole(v, SchoolAdmin)
    ensures r.0 <= Count(users, (u: User) => u.role == Teacher)
    ensures r.1 <= Count(users, (u: User) => u.role == Student)
  {
    var teachers := (u: User) => u.role == Teacher && u.schoolId == v.value.schoolId;
    CountMono(users, teachers, (u: User) => u.role == Teacher);
    CountMono(users, SameSchoolStudent(v), (u: User) => u.role == Student);
    (Count(users, teachers), Count(users, SameSchoolStudent(v)))
  }

  /** The dashboard's teacher count is the length of the list the same
      school admin sees on the teachers page with an empty search. */
  lemma TeacherCountMatchesTeachersPage(v: Viewer, users: seq<User>)
    requires HasRole(v, SchoolAdmin)
    ensures SchoolAdminCounts(v, users).0 == |TeachersPage.FilteredTeachers(v, users, "")|
  {
    TeachersPage.EmptySearchTeachers(v, users);
    FilterExt(users, (u: User) => u.role == Teacher && (HasRole(v, SchoolAdmin) ==> u.schoolId == v.value.schoolId),
              (u: User) => u.role == Teacher && u.schoolId == v.value.schoolId);
  }

  /** The dashboard's student count is the length of the list the same
      school admin sees on the students page with an empty search. */
  lemma StudentCountMatchesStudentsPage(v: Viewer, users: seq<User>)
    requires HasRole(v, SchoolAdmin)
    ensures SchoolAdminCounts(v, users).1 == |StudentsPage.FilteredStudents(v, users, "")|
  {
    forall u: User ensures StudentsPage.Listed(v, "", u) == SameSchoolStudent(v)(u) {
      EmptySearchMatchesAll(u.name, u.email);
    }
    FilterExt(users, u => StudentsPage.Listed(v, "", u), SameSchoolStudent(v));
  }
}
