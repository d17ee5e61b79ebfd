/** The teachers page: a school admin sees only the teachers of their own
    school; any other viewer who gets past the gate sees every teacher. */
module TeachersPage {
  import opened Common
  import opened Text
  import opened Types
  import opened Data

  /** Whether teacher `u` is listed for the viewer and search term. */
  predicate Listed(v: Viewer, term: string, u: User) {
    var matchesSearch := SearchMatches(term, u.name, u.email);
    if HasRole(v, SchoolAdmin) then u.role == Teacher && u.schoolId == v.value.schoolId && matchesSearch
    else u.role == Teacher && matchesSearch
  }

  /** `filteredTeachers`: the listed users, in the order of `users`. */
  function FilteredTeachers(v: Viewer, users: seq<User>, term: string): (r: seq<User>)
    ensures SubsequenceOf(r, users)
    ensures forall u :: u in r ==> u in users && u.role == Teacher && SearchMatches(term, u.name, u.email)
    ensures HasRole(v, SchoolAdmin) ==> forall u :: u in r ==> u.schoolId == v.value.schoolId
    ensures forall u :: u in users && u.role == Teacher && SearchMatches(term, u.name, u.email)
                          && (HasRole(v, SchoolAdmin) ==> u.schoolId == v.value.schoolId)
                       ==> u in r
  {
    Filter(users, u => Listed(v, term, u))
  }

  /** An empty search term restricts nothing: the list is the teachers the
      viewer's scope admits. */
  lemma EmptySearchTeachers(v: Viewer, users: seq<User>)
    ensures FilteredTeachers(v, users, "")
            == Filter(users, (u: User) => u.role == Teacher
                                         && (HasRole(v, SchoolAdmin) ==> u.schoolId == v.value.schoolId))
  {
    forall u: User ensures Listed(v, "", u) == (u.role == Teacher
                                                 && (HasRole(v, SchoolAdmin) ==> u.schoolId == v.value.schoolId))
    {
      EmptySearchMatchesAll(u.name, u.email);
    }
    FilterExt(users, u => Listed(v, "", u),
              (u: User) => u.role == Teacher && (HasRole(v, SchoolAdmin) ==> u.schoolId == v.value.schoolId));
  }

  /** The request the page issues on mount: the users with the teacher
      role. */
  const MountFetch: Fetch := UsersWithRole(Teacher)

  /** Once the mount request has completed, a school admin with an empty
      search sees exactly the store's teachers of their own school. */
  lemma SchoolAdminListsOwnTeachers(src: Store, st: Store, v: Viewer)
    requires HasRole(v, SchoolAdmin)
    ensures forall u :: u in FilteredTeachers(v, Apply(src, st, MountFetch).users, "")
                        <==> u in src.users && u.role == Teacher && u.schoolId == v.value.schoolId
  {
    EmptySearchTeachers(v, Apply(src, st, MountFetch).users);
  }

  /** `canManageTeachers`; every other viewer gets the denied view. */
  predicate CanManageTeachers(v: Viewer) {
    HasRole(v, SuperAdmin) || HasRole(v, SchoolAdmin)
  }

  /** Teachers, students, parents and signed-out visitors are denied. */
  lemma TeacherGate(v: Viewer)
    ensures CanManageTeachers(v) <==> v.Some? && v.value.role in {SuperAdmin, SchoolAdmin}
    ensures HasRole(v, Teacher) || HasRole(v, Student) || HasRole(v, Parent) || v.None? ==> !CanManageTeachers(v)
  {
  }
}
