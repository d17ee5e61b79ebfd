/** The side navigation: the fixed table of links each role is offered,
    which link is highlighted for the current location, and the
    "Logged in as" footer. */
module Navigation {
  import opened Common
  import opened Types
  import StudentsPage
  import TeachersPage
  import UsersPage
  import SchoolsPage
  import ContentPages

  datatype NavItem = NavItem(name: string, path: string)

  const DashboardItem: NavItem := NavItem("Dashboard", "/dashboard")

  /** `roleBasedItems`: the links a role gets after the dashboard. */
  function RoleItems(r: Role): seq<NavItem> {
    match r
    case SuperAdmin =>
      [NavItem("Schools", "/schools"), NavItem("Users", "/users"), NavItem("Content", "/content"),
       NavItem("Analytics", "/analytics"), NavItem("Settings", "/settings")]
    case SchoolAdmin =>
      [NavItem("Teachers", "/teachers"), NavItem("Students", "/students"), NavItem("Content", "/content"),
       NavItem("Analytics", "/analytics"), NavItem("Settings", "/settings")]
    case Teacher =>
      [NavItem("Students", "/students"), NavItem("Content", "/content"),
       NavItem("Assignments", "/assignments"), NavItem("Calendar", "/calendar")]
    case Student =>
      [NavItem("Subjects", "/subjects"), NavItem("Assignments", "/assignments"),
       NavItem("Progress", "/progress"), NavItem("Badges", "/badges")]
    case Parent =>
      [NavItem("My Child", "/child"), NavItem("Assignments", "/assignments"), NavItem("Progress", "/progress")]
  }

  /** `getNavItems`: the dashboard, then the role's links; just the
      dashboard when nobody is signed in. */
  function NavItems(v: Viewer): (r: seq<NavItem>)
    ensures |r| > 0 && r[0] == DashboardItem
    ensures v.None? <==> r == [DashboardItem]
  {
    if ViewerRole(v) != "" then [DashboardItem] + RoleItems(v.value.role) else [DashboardItem]
  }

  function Paths(items: seq<NavItem>): (r: seq<string>)
    ensures |r| == |items|
    ensures forall i :: 0 <= i < |items| ==> r[i] == items[i].path
  {
    seq(|items|, i requires 0 <= i < |items| => items[i].path)
  }

  /** Each role's menu paths, from the table. */
  lemma MenuPaths(v: Viewer)
    ensures v.None? ==> Paths(NavItems(v)) == ["/dashboard"]
    ensures HasRole(v, SuperAdmin) ==>
              Paths(NavItems(v)) == ["/dashboard", "/schools", "/users", "/content", "/analytics", "/settings"]
    ensures HasRole(v, SchoolAdmin) ==>
              Paths(NavItems(v)) == ["/dashboard", "/teachers", "/students", "/content", "/analytics", "/settings"]
    ensures HasRole(v, Teacher) ==>
              Paths(NavItems(v)) == ["/dashboard", "/students", "/content", "/assignments", "/calendar"]
    ensures HasRole(v, Student) ==>
              Paths(NavItems(v)) == ["/dashboard", "/subjects", "/assignments", "/progress", "/badges"]
    ensures HasRole(v, Parent) ==>
              Paths(NavItems(v)) == ["/dashboard", "/child", "/assignments", "/progress"]
  {
    if v.Some? {
      assert ViewerRole(v) != "";
    }
  }

  /** The administration links go to exactly the admin roles: schools
      and users to the super admin, teachers to the school admin. */
  lemma AdminLinks(v: Viewer)
    ensures "/schools" in Paths(NavItems(v)) <==> HasRole(v, SuperAdmin)
    ensures "/users" in Paths(NavItems(v)) <==> HasRole(v, SuperAdmin)
    ensures "/teachers" in Paths(NavItems(v)) <==> HasRole(v, SchoolAdmin)
  {
    MenuFacts(v);
  }

  /** The students link goes to the school admin and the teacher; the
      content link to both admin roles and the teacher. */
  lemma StaffLinks(v: Viewer)
    ensures "/students" in Paths(NavItems(v)) <==> HasRole(v, SchoolAdmin) || HasRole(v, Teacher)
    ensures "/content" in Paths(NavItems(v))
            <==> HasRole(v, SuperAdmin) || HasRole(v, SchoolAdmin) || HasRole(v, Teacher)
  {
    MenuFacts(v);
  }

  /** The assignments link goes to the teacher, the student and the
      parent, never to an admin role. */
  lemma AssignmentsLink(v: Viewer)
    ensures "/assignments" in Paths(NavItems(v))
            <==> HasRole(v, Teacher) || HasRole(v, Student) || HasRole(v, Parent)
  {
    MenuFacts(v);
  }

  /** No role's menu lists a path twice. */
  lemma PathsDistinct(v: Viewer)
    ensures NoDuplicates(Paths(NavItems(v)))
  {
    MenuFacts(v);
  }

  /** Which of the paths the lemmas above ask about a menu holds, and
      that it holds none twice. */
  predicate MenuHas(p: seq<string>, schools: bool, users: bool, teachers: bool, students: bool,
                    content: bool, assignments: bool) {
    && NoDuplicates(p)
    && ("/schools" in p <==> schools) && ("/users" in p <==> users)
    && ("/teachers" in p <==> teachers) && ("/students" in p <==> students)
    && ("/content" in p <==> content) && ("/assignments" in p <==> assignments)
  }

  lemma MenuFacts(v: Viewer)
    ensures MenuHas(Paths(NavItems(v)), HasRole(v, SuperAdmin), HasRole(v, SuperAdmin),
                    HasRole(v, SchoolAdmin), HasRole(v, SchoolAdmin) || HasRole(v, Teacher),
                    HasRole(v, SuperAdmin) || HasRole(v, SchoolAdmin) || HasRole(v, Teacher),
                    HasRole(v, Teacher) || HasRole(v, Student) || HasRole(v, Parent))
  {
    MenuPaths(v);
    if v.None? {
      GuestMenu();
    } else {
      match v.value.role
      case SuperAdmin => SuperAdminMenu();
      case SchoolAdmin => SchoolAdminMenu();
      case Teacher => TeacherMenu();
      case Student => StudentMenu();
      case Parent => ParentMenu();
    }
  }

  lemma GuestMenu()
    ensures MenuHas(["/dashboard"], false, false, false, false, false, false)
  {
  }

  lemma SuperAdminMenu()
    ensures MenuHas(["/dashboard", "/schools", "/users", "/content", "/analytics", "/settings"],
                    true, true, false, false, true, false)
  {
  }

  lemma SchoolAdminMenu()
    ensures MenuHas(["/dashboard", "/teachers", "/students", "/content", "/analytics", "/settings"],
                    false, false, true, true, true, false)
  {
  }

  lemma TeacherMenu()
    ensures MenuHas(["/dashboard", "/students", "/content", "/assignments", "/calendar"],
                    false, false, false, true, true, true)
  {
  }

  lemma StudentMenu()
    ensures MenuHas(["/dashboard", "/subjects", "/assignments", "/progress", "/badges"],
                    false, false, false, false, false, true)
  {
  }

  lemma ParentMenu()
    ensures MenuHas(["/dashboard", "/child", "/assignments", "/progress"],
                    false, false, false, false, false, true)
  {
  }

  /** `isActive`: the item whose path is exactly the current location
      (no prefix match: "/content/1" highlights nothing). */
  predicate IsActive(pathname: string, item: NavItem) {
    pathname == item.path
  }

  /** At most one link is highlighted, and one is exactly when the
      location is one of the menu's paths. */
  lemma AtMostOneActive(v: Viewer, pathname: string)
    ensures Count(NavItems(v), (it: NavItem) => IsActive(pathname, it)) <= 1
    ensures Count(NavItems(v), (it: NavItem) => IsActive(pathname, it)) == 1 <==> pathname in Paths(NavItems(v))
  {
    var items := NavItems(v);
    PathsDistinct(v);
    OneActive(items, pathname);
  }

  /** In a list with distinct paths, the items matching a location are
      none or one. */
  lemma {:induction false} OneActive(items: seq<NavItem>, pathname: string)
    requires NoDuplicates(Paths(items))
    ensures Count(items, (it: NavItem) => IsActive(pathname, it)) <= 1
    ensures Count(items, (it: NavItem) => IsActive(pathname, it)) == 1 <==> pathname in Paths(items)
    decreases |items|
  {
    if |items| > 0 {
      var rest := items[1..];
      assert Paths(rest) == Paths(items)[1..];
      OneActive(rest, pathname);
      if items[0].path == pathname {
        assert pathname !in Paths(rest) by {
          forall j | 0 <= j < |rest| ensures Paths(rest)[j] != pathname {
            assert Paths(items)[0] != Paths(items)[j + 1];
          }
        }
        assert Count(rest, (it: NavItem) => IsActive(pathname, it)) == 0;
      }
      assert pathname in Paths(items) <==> items[0].path == pathname || pathname in Paths(rest);
    }
  }

  /** Every admin link leads to a page that admits the role offered it;
      the super admin, whom the students and teachers pages admit, is
      offered no link to either. */
  lemma LinksLeadToAdmittingPages(v: Viewer)
    ensures "/schools" in Paths(NavItems(v)) <==> SchoolsPage.CanManageSchools(v)
    ensures "/users" in Paths(NavItems(v)) <==> UsersPage.CanManageUsers(v)
    ensures "/content" in Paths(NavItems(v)) <==> ContentPages.CanCreateContent(v)
    ensures "/students" in Paths(NavItems(v)) ==> StudentsPage.CanViewStudents(v)
    ensures "/teachers" in Paths(NavItems(v)) ==> TeachersPage.CanManageTeachers(v)
    ensures HasRole(v, SuperAdmin) ==>
              StudentsPage.CanViewStudents(v) && "/students" !in Paths(NavItems(v))
              && TeachersPage.CanManageTeachers(v) && "/teachers" !in Paths(NavItems(v))
  {
    AdminLinks(v);
    StaffLinks(v);
    StudentsPage.StudentGates(v);
  }

  /** The footer line under "Logged in as:": the name and the role label;
      both render as nothing when signed out, leaving " ()". */
  function Footer(v: Viewer): (r: string)
    ensures v.None? ==> r == " ()"
    ensures v.Some? ==> r == v.value.name + " (" + RoleLabel(RoleName(v.value.role)) + ")"
  {
    var name := if v.Some? then v.value.name else "";
    var role := if v.Some? then RoleLabel(RoleName(v.value.role)) else "";
    name + " (" + role + ")"
  }
}
