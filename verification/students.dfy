/** The students page: which students a viewer sees for a search term, and
    who may view or manage them. School admins and teachers see only their
    own school's students; every other viewer sees students of all schools. */
module StudentsPage {
  import opened Common
  import opened Text
  import opened Types
  import opened Data

  /** The viewer's list is restricted to their own school. */
  predicate SchoolScoped(v: Viewer) {
    HasRole(v, SchoolAdmin) || HasRole(v, Teacher)
  }

  /** Whether `u` is listed: a student matching the search on name or
      e-mail, and, for a school-scoped viewer, from the viewer's school
      (`undefined === undefined` counts as the same school). */
  predicate Listed(v: Viewer, term: string, u: User) {
    var matchesSearch := SearchMatches(term, u.name, u.email);
    if HasRole(v, SchoolAdmin) then u.role == Student && u.schoolId == v.value.schoolId && matchesSearch
    else if HasRole(v, Teacher) then u.role == Student && u.schoolId == v.value.schoolId && matchesSearch
    else u.role == Student && matchesSearch
  }

  /** `filteredStudents`: the listed users, in the order of `users`. */
  function FilteredStudents(v: Viewer, users: seq<User>, term: string): (r: seq<User>)
    ensures SubsequenceOf(r, users)
    ensures forall u :: u in r ==> u in users && u.role == Student && SearchMatches(term, u.name, u.email)
    ensures SchoolScoped(v) ==> forall u :: u in r ==> u.schoolId == v.value.schoolId
    ensures forall u :: u in users && u.role == Student && SearchMatches(term, u.name, u.email)
                          && (SchoolScoped(v) ==> u.schoolId == v.value.schoolId)
                       ==> u in r
  {
    Filter(users, u => Listed(v, term, u))
  }

  /** Viewers outside the two school-scoped roles see every matching
      student, whatever their school. */
  lemma UnscopedSeesAllSchools(v: Viewer, users: seq<User>, term: string)
    requires !SchoolScoped(v)
    ensures FilteredStudents(v, users, term)
            == Filter(users, (u: User) => u.role == Student && SearchMatches(term, u.name, u.email))
  {
    FilterExt(users, u => Listed(v, term, u),
               (u: User) => u.role == Student && SearchMatches(term, u.name, u.email));
  }

  /** The list is stable: filtering the shown list again changes nothing. */
  lemma FilteredStudentsIdempotent(v: Viewer, users: seq<User>, term: string)
    ensures FilteredStudents(v, FilteredStudents(v, users, term), term) == FilteredStudents(v, users, term)
  {
    var r := FilteredStudents(v, users, term);
    FilterAll(r, u => Listed(v, term, u));
  }

  /** With an empty search box a super admin sees exactly the students the
      page asked the store for, in the same order. */
  lemma SuperAdminSeesAllFetchedStudents(v: Viewer, students: seq<User>)
    requires HasRole(v, SuperAdmin)
    requires forall i :: 0 <= i < |students| ==> students[i].role == Student
    ensures FilteredStudents(v, students, "") == students
  {
    forall i | 0 <= i < |students|
      ensures Listed(v, "", students[i])
    {
      EmptySearchMatchesAll(students[i].name, students[i].email);
    }
    FilterAll(students, u => Listed(v, "", u));
  }

  /** The request the page issues on mount: the users with the student
      role. */
  const MountFetch: Fetch := UsersWithRole(Student)

  /** Once the mount request has completed, a super admin with an empty
      search sees every student of the store, in store order. */
  lemma SuperAdminListsEveryStudent(src: Store, st: Store, v: Viewer)
    requires HasRole(v, SuperAdmin)
    ensures FilteredStudents(v, Apply(src, st, MountFetch).users, "") == FetchUsers(src, Some(Student))
  {
    var fetched := FetchUsers(src, Some(Student));
    assert forall i :: 0 <= i < |fetched| ==> fetched[i].role == Student by {
      forall i | 0 <= i < |fetched| ensures fetched[i].role == Student {
        assert fetched[i] in fetched;
      }
    }
    SuperAdminSeesAllFetchedStudents(v, fetched);
  }

  /** `canViewStudents`. */
  predicate CanViewStudents(v: Viewer) {
    Admits(["super_admin", "school_admin", "teacher"], v)
  }

  /** `canManageStudents`. */
  predicate CanManageStudents(v: Viewer) {
    Admits(["super_admin", "school_admin"], v)
  }

  /** The gates by role: the two admin roles view and manage, a teacher
      views only, students, parents and signed-out visitors are denied. */
  lemma StudentGates(v: Viewer)
    ensures CanManageStudents(v) ==> CanViewStudents(v)
    ensures CanViewStudents(v) <==> HasRole(v, SuperAdmin) || HasRole(v, SchoolAdmin) || HasRole(v, Teacher)
    ensures CanManageStudents(v) <==> HasRole(v, SuperAdmin) || HasRole(v, SchoolAdmin)
    ensures HasRole(v, Teacher) ==> CanViewStudents(v) && !CanManageStudents(v)
    ensures HasRole(v, Student) || HasRole(v, Parent) || v.None? ==> !CanViewStudents(v)
  {
  }
}
