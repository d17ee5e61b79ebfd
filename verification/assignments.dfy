/** The assignments page: the due status of an assignment, the search,
    subject and status filters, the role flags, and which roles may create
    or edit. Times are milliseconds since the epoch; `now` is the clock
    reading the page takes. */
module AssignmentsPage {
  import opened Common
  import opened Text
  import opened Types
  import opened Data

  /** Three days in milliseconds. */
  const SoonWindow: int := 3 * 24 * 60 * 60 * 1000

  datatype DueStatus = Overdue | Soon | Upcoming

  function DueStatusName(d: DueStatus): string {
    match d
    case Overdue => "overdue"
    case Soon => "soon"
    case Upcoming => "upcoming"
  }

  /** `getDueStatus`. */
  function DueStatusOf(due: int, now: int): (d: DueStatus)
    ensures d == Overdue <==> due < now
    ensures d == Soon <==> 0 <= due - now < SoonWindow
    ensures d == Upcoming <==> due - now >= SoonWindow
  {
    if due < now then Overdue
    else if due - now < SoonWindow then Soon
    else Upcoming
  }

  /** The status never improves as time passes: upcoming can become soon,
      soon can become overdue, never the other way. */
  lemma DueStatusMonotone(due: int, now: int, later: int)
    requires now <= later
    ensures DueStatusOf(due, now) == Overdue ==> DueStatusOf(due, later) == Overdue
    ensures DueStatusOf(due, now) == Soon ==> DueStatusOf(due, later) != Upcoming
  {
  }

  predicate Listed(term: string, subjectFilter: string, statusFilter: string, now: int, a: Assignment) {
    var matchesSearch := SearchMatches(term, a.title, a.description);
    var matchesSubject := if subjectFilter != "" then a.subjectId == subjectFilter else true;
    var matchesStatus := if statusFilter != "" then DueStatusName(DueStatusOf(a.dueDate, now)) == statusFilter else true;
    matchesSearch && matchesSubject && matchesStatus
  }

  /** `filteredAssignments`. */
  function FilteredAssignments(assignments: seq<Assignment>, term: string, subjectFilter: string,
                               statusFilter: string, now: int): (r: seq<Assignment>)
    ensures SubsequenceOf(r, assignments)
    ensures forall a :: a in r <==>
              a in assignments && SearchMatches(term, a.title, a.description)
              && (subjectFilter == "" || a.subjectId == subjectFilter)
              && (statusFilter == "" || DueStatusName(DueStatusOf(a.dueDate, now)) == statusFilter)
  {
    Filter(assignments, a => Listed(term, subjectFilter, statusFilter, now, a))
  }

  /** The "overdue" status filter keeps exactly the assignments due before
      now, among those matching the search and subject. */
  lemma OverdueFilter(assignments: seq<Assignment>, term: string, subjectFilter: string, now: int)
    ensures forall a :: a in FilteredAssignments(assignments, term, subjectFilter, "overdue", now) <==>
              a in FilteredAssignments(assignments, term, subjectFilter, "", now) && a.dueDate < now
  {
  }

  /** The page's role flags. */
  datatype Flags = Flags(isTeacher: bool, isStudent: bool, isParent: bool, isAdmin: bool)

  function FlagsOf(v: Viewer): (f: Flags)
    ensures f.isAdmin <==> HasRole(v, SchoolAdmin) || HasRole(v, SuperAdmin)
  {
    Flags(HasRole(v, Teacher), HasRole(v, Student), HasRole(v, Parent),
          HasRole(v, SchoolAdmin) || HasRole(v, SuperAdmin))
  }

  /** At most one flag holds, and exactly one when someone is signed in. */
  lemma FlagsExclusive(v: Viewer)
    ensures var f := FlagsOf(v);
            (if f.isTeacher then 1 else 0) + (if f.isStudent then 1 else 0)
            + (if f.isParent then 1 else 0) + (if f.isAdmin then 1 else 0)
            == (if v.Some? then 1 else 0)
  {
  }

  /** The "Create Assignment" action. */
  predicate CanCreate(v: Viewer) {
    FlagsOf(v).isTeacher
  }

  /** What a card's button does: a teacher goes to the edit form, everyone
      else's "View Details" does nothing. */
  function CardAction(v: Viewer, a: Assignment): (r: Option<string>)
    ensures r.Some? <==> HasRole(v, Teacher)
    ensures r.Some? ==> r.value == "/assignments/edit/" + a.id
  {
    if FlagsOf(v).isTeacher then Some("/assignments/edit/" + a.id) else None
  }

  /** Creating and editing go together: exactly the viewers offered the
      create action get the edit link on every card. */
  lemma TeacherActions(v: Viewer, a: Assignment)
    ensures CanCreate(v) <==> CardAction(v, a).Some?
    ensures CanCreate(v) <==> HasRole(v, Teacher)
  {
  }

  /** The requests the page issues on mount: subjects, then the viewer's
      assignments. */
  function MountFetches(v: Viewer): (r: seq<Fetch>)
    ensures |r| == (if v.Some? then 2 else 1) && r[0] == Subjects
    ensures forall f :: f in r && f.AssignmentsOf? ==> v.Some? && f.userId == v.value.id
  {
    [Subjects] + (if v.Some? then [AssignmentsOf(v.value.id)] else [])
  }

  /** A parent opening the page asks for the assignments of their own id,
      which names no teacher or student, so they are shown every
      assignment, not their child's. */
  lemma ParentSeesEveryAssignment(src: Store, st: Store, v: Viewer)
    requires HasRole(v, Parent)
    requires RoleOfId(src.users, v.value.id) == Some(Parent)
    ensures ApplyAll(src, st, MountFetches(v)).assignments == src.assignments
  {
    var fs := MountFetches(v);
    assert fs == [Subjects, AssignmentsOf(v.value.id)];
    var s1 := Apply(src, st, Subjects);
    var s2 := Apply(src, s1, AssignmentsOf(v.value.id));
    assert ApplyAll(src, s2, fs[2..]) == s2;
    assert ApplyAll(src, s1, fs[1..]) == s2;
  }
}
