/** The user-management page (super admins only): a search, role and school
    filter over all users, the role badge and the school column. The two
    select filters hold the selected string, "" meaning "all". */
module UsersPage {
  import opened Common
  import opened Text
  import opened Types

  /** The three filters of the page, all of which must match. */
  predicate Listed(term: string, roleFilter: string, schoolFilter: string, u: User) {
    var matchesSearch := SearchMatches(term, u.name, u.email);
    var matchesRole := if roleFilter != "" then RoleName(u.role) == roleFilter else true;
    var matchesSchool := if schoolFilter != "" then u.schoolId == Some(schoolFilter) else true;
    matchesSearch && matchesRole && matchesSchool
  }

  /** `filteredUsers`. */
  function FilteredUsers(users: seq<User>, term: string, roleFilter: string, schoolFilter: string): (r: seq<User>)
    ensures SubsequenceOf(r, users)
    ensures forall u :: u in r <==>
              u in users && SearchMatches(term, u.name, u.email)
              && (roleFilter == "" || RoleName(u.role) == roleFilter)
              && (schoolFilter == "" || u.schoolId == Some(schoolFilter))
  {
    Filter(users, u => Listed(term, roleFilter, schoolFilter, u))
  }

  /** A role filter naming a role forces that role on every listed user; a
      role filter naming no role lists nobody. */
  lemma RoleFilterForcesRole(users: seq<User>, term: string, roleFilter: string, schoolFilter: string)
    ensures forall u :: u in FilteredUsers(users, term, roleFilter, schoolFilter) && roleFilter != ""
              ==> ParseRole(roleFilter) == Some(u.role)
    ensures roleFilter != "" && ParseRole(roleFilter).None? ==> FilteredUsers(users, term, roleFilter, schoolFilter) == []
  {
    forall u | u in FilteredUsers(users, term, roleFilter, schoolFilter) && roleFilter != ""
      ensures ParseRole(roleFilter) == Some(u.role)
    {
      RolesClosed(u.role);
    }
  }

  /** With the search box and both filters empty, everyone is listed. */
  lemma NoFiltersListsEveryone(users: seq<User>)
    ensures FilteredUsers(users, "", "", "") == users
  {
    forall i | 0 <= i < |users| ensures Listed("", "", "", users[i]) {
      EmptySearchMatchesAll(users[i].name, users[i].email);
    }
    FilterAll(users, u => Listed("", "", "", u));
  }

  /** The page gate: `user?.role !== "super_admin"` is denied. */
  predicate CanManageUsers(v: Viewer) {
    HasRole(v, SuperAdmin)
  }

  datatype BadgeColour = Purple | Blue | Green | Yellow | Orange | Gray

  /** `roleColors[role] || "bg-gray-500"`. */
  function RoleBadgeColour(role: string): (c: BadgeColour)
    ensures c == Gray <==> ParseRole(role).None?
  {
    if role == "super_admin" then Purple
    else if role == "school_admin" then Blue
    else if role == "teacher" then Green
    else if role == "student" then Yellow
    else if role == "parent" then Orange
    else Gray
  }

  /** Distinct roles get distinct badge colours. */
  lemma RoleBadgeColoursDistinct(a: Role, b: Role)
    ensures RoleBadgeColour(RoleName(a)) == RoleBadgeColour(RoleName(b)) <==> a == b
  {
  }

  /** What the school column shows for a user. */
  datatype SchoolCell = SchoolName(name: string) | NotApplicable | Unassigned

  /** The school column: the name of the school whose id equals the user's
      `schoolId`, else "N/A" for a super admin, else "Unassigned". */
  function SchoolColumn(schools: seq<School>, u: User): (c: SchoolCell)
    ensures c.SchoolName? <==> exists i :: 0 <= i < |schools| && Some(schools[i].id) == u.schoolId
    ensures c.SchoolName? ==>
              exists k :: 0 <= k < |schools| && Some(schools[k].id) == u.schoolId && schools[k].name == c.name
                          && forall j :: 0 <= j < k ==> Some(schools[j].id) != u.schoolId
    ensures !c.SchoolName? ==> (c.NotApplicable? <==> u.role == SuperAdmin)
  {
    match Find(schools, (s: School) => Some(s.id) == u.schoolId)
    case Some(s) => SchoolName(s.name)
    case None => if u.role == SuperAdmin then NotApplicable else Unassigned
  }
}
