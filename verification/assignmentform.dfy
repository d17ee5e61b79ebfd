/** The create/edit form for assignments (teachers only): selecting
    students and content by toggling ids, the subject choice that empties
    the content selection, the option lists, and the save checks. */
module AssignmentFormPage {
  import opened Common
  import opened Types
  import opened Forms

  /** The form's fields. `dueDate` is the date input's text. */
  datatype AssignmentForm = AssignmentForm(
    title: string,
    description: string,
    subjectId: string,
    dueDate: string,
    studentIds: seq<string>,
    contentIds: seq<string>)

  /** A new form; `defaultDue` is the rendering of "a week from now". */
  function Blank(defaultDue: string): AssignmentForm {
    AssignmentForm("", "", "", defaultDue, [], [])
  }

  /** Clicking an id in a checklist: a selected id is removed (every copy
      of it), an unselected id is appended at the end. */
  function Toggle(ids: seq<string>, x: string): (r: seq<string>)
    ensures forall y :: y in r <==> (y in ids) != (y == x)
    ensures x !in ids ==> r == ids + [x]
    ensures x in ids ==> SubsequenceOf(r, ids) && |r| < |ids|
    ensures x in ids ==> multiset(r) == multiset(ids)[x := 0]
  {
    if x in ids then
      var k :| 0 <= k < |ids| && ids[k] == x;
      FilterShrinks(ids, y => y != x, k);
      RemoveAllCounts(ids, x);
      Filter(ids, y => y != x)
    else ids + [x]
  }

  /** Filtering out `x` drops every copy of `x` and keeps every other id
      as often as it occurred. */
  lemma {:induction false} RemoveAllCounts(ids: seq<string>, x: string)
    ensures multiset(Filter(ids, y => y != x)) == multiset(ids)[x := 0]
  {
    if |ids| > 0 {
      RemoveAllCounts(ids[1..], x);
      assert ids == [ids[0]] + ids[1..];
    }
  }

  /** Toggling an unselected id twice restores the selection. */
  lemma ToggleTwiceRestores(ids: seq<string>, x: string)
    requires x !in ids
    ensures Toggle(Toggle(ids, x), x) == ids
  {
    FilterAppend(ids, [x], y => y != x);
    FilterAll(ids, y => y != x);
    assert Filter([x], y => y != x) == [];
  }

  /** A selection without repeated ids never gains one. */
  lemma ToggleKeepsNoDuplicates(ids: seq<string>, x: string)
    requires NoDuplicates(ids)
    ensures NoDuplicates(Toggle(ids, x))
  {
    if x in ids {
      FilterNoDuplicates(ids, y => y != x);
    }
  }

  /** Toggling twice gives back the same set of ids, whether or not `x`
      was selected. */
  lemma ToggleTwiceSameSet(ids: seq<string>, x: string)
    ensures forall y :: y in Toggle(Toggle(ids, x), x) <==> y in ids
  {
  }

  /** `handleStudentToggle`. */
  function ToggleStudent(f: AssignmentForm, id: string): (g: AssignmentForm)
    ensures g.(studentIds := f.studentIds) == f
    ensures forall y :: y in g.studentIds <==> (y in f.studentIds) != (y == id)
  {
    f.(studentIds := Toggle(f.studentIds, id))
  }

  /** `handleContentToggle`, the same rule on the content ids. */
  function ToggleContent(f: AssignmentForm, id: string): (g: AssignmentForm)
    ensures g.(contentIds := f.contentIds) == f
    ensures forall y :: y in g.contentIds <==> (y in f.contentIds) != (y == id)
  {
    f.(contentIds := Toggle(f.contentIds, id))
  }

  /** Choosing a subject sets it and empties the content selection. */
  function SelectSubject(f: AssignmentForm, subjectId: string): (g: AssignmentForm)
    ensures g.subjectId == subjectId && g.contentIds == []
    ensures g.title == f.title && g.description == f.description && g.dueDate == f.dueDate
    ensures g.studentIds == f.studentIds
  {
    f.(subjectId := subjectId, contentIds := [])
  }

  /** `handleSubmit`: the first failing check is reported: required
      fields, then the student selection, then the content selection. */
  function Submit(id: Option<string>, f: AssignmentForm): (r: Submission)
    ensures r == Rejected(RequiredFieldsMessage) <==> f.title == "" || f.subjectId == "" || f.dueDate == ""
    ensures r == Rejected("Please select at least one student")
            <==> f.title != "" && f.subjectId != "" && f.dueDate != "" && f.studentIds == []
    ensures r == Rejected("Please select at least one learning content")
            <==> f.title != "" && f.subjectId != "" && f.dueDate != "" && f.studentIds != [] && f.contentIds == []
    ensures r.Saved? <==> f.title != "" && f.subjectId != "" && f.dueDate != "" && f.studentIds != [] && f.contentIds != []
    ensures r.Saved? ==> r.next == "/assignments"
    ensures r.Saved? ==> r.message == (if id.Some? then "Assignment updated successfully"
                                       else "New assignment created successfully")
  {
    if f.title == "" || f.subjectId == "" || f.dueDate == "" then Rejected(RequiredFieldsMessage)
    else if |f.studentIds| == 0 then Rejected("Please select at least one student")
    else if |f.contentIds| == 0 then Rejected("Please select at least one learning content")
    else if id.Some? then Saved("Assignment updated successfully", "/assignments")
    else Saved("New assignment created successfully", "/assignments")
  }

  /** Changing the subject of a complete form makes it fail the content
      check until content is chosen again. */
  lemma SubjectChangeNeedsContent(id: Option<string>, f: AssignmentForm, s: string)
    requires Submit(id, f).Saved? && s != ""
    ensures Submit(id, SelectSubject(f, s)) == Rejected("Please select at least one learning content")
  {
  }

  /** Filling the required fields, then ticking one student and one content
      item, is enough to save. */
  lemma ToggledSelectionSaves(id: Option<string>, defaultDue: string, title: string,
                              subjectId: string, student: string, content: string)
    requires title != "" && subjectId != "" && defaultDue != ""
    ensures var f := SelectSubject(Blank(defaultDue).(title := title), subjectId);
            Submit(id, ToggleContent(ToggleStudent(f, student), content)).Saved?
  {
  }

  /** The form's gate: only a teacher. */
  predicate CanUseForm(v: Viewer) {
    HasRole(v, Teacher)
  }

  /** Both admin roles, students, parents and signed-out visitors get the
      denied view. */
  lemma FormGate(v: Viewer)
    ensures !CanUseForm(v) <==> v.None? || v.value.role in {SuperAdmin, SchoolAdmin, Student, Parent}
  {
  }

  /** The students a teacher may pick: those of the teacher's school. Any
      other viewer, or a teacher without a school, keeps the empty initial
      list. */
  function SelectableStudents(v: Viewer, users: seq<User>): (r: seq<User>)
    ensures SubsequenceOf(r, users)
    ensures !(HasRole(v, Teacher) && HasSchool(v)) ==> r == []
    ensures HasRole(v, Teacher) && HasSchool(v) ==>
              forall u :: u in r <==> u in users && u.role == Student && u.schoolId == v.value.schoolId
  {
    if HasRole(v, Teacher) && HasSchool(v) then
      Filter(users, (u: User) => u.role == Student && u.schoolId == v.value.schoolId)
    else []
  }

  /** The content a teacher may pick: the items of the chosen subject, or
      nothing before a subject is chosen. */
  function AvailableContent(items: seq<LearningContent>, subjectId: string): (r: seq<LearningContent>)
    ensures SubsequenceOf(r, items)
    ensures subjectId == "" ==> r == []
    ensures subjectId != "" ==> forall c :: c in r <==> c in items && c.subjectId == subjectId
  {
    if subjectId != "" then Filter(items, (c: LearningContent) => c.subjectId == subjectId) else []
  }

  /** The form filled from an existing assignment; `due` is its due date as
      the date input shows it. */
  function Prefill(a: Assignment, due: string): (f: AssignmentForm)
    ensures f.title == a.title && f.description == a.description && f.subjectId == a.subjectId
    ensures f.dueDate == due && f.studentIds == a.studentIds && f.contentIds == a.contentIds
  {
    AssignmentForm(a.title, a.description, a.subjectId, due, a.studentIds, a.contentIds)
  }

  /** The form a route opens with: blank for a new assignment, the first
      assignment with the id for an edit, "Assignment not found" when there
      is none. */
  function Open(id: Option<string>, assignments: seq<Assignment>, defaultDue: string,
                format: int -> string): (r: Init<AssignmentForm>)
    ensures id.None? ==> r == Ready(Blank(defaultDue))
    ensures r.Missing? <==> id.Some? && forall i :: 0 <= i < |assignments| ==> assignments[i].id != id.value
    ensures r.Missing? ==> r.message == "Assignment not found" && r.next == "/assignments"
    ensures id.Some? && r.Ready? ==>
              exists k :: 0 <= k < |assignments| && assignments[k].id == id.value
                          && r.form == Prefill(assignments[k], format(assignments[k].dueDate))
                          && forall j :: 0 <= j < k ==> assignments[j].id != id.value
  {
    if id.None? then Ready(Blank(defaultDue))
    else
      match Find(assignments, (a: Assignment) => a.id == id.value)
      case Some(a) => Ready(Prefill(a, format(a.dueDate)))
      case None => Missing("Assignment not found", "/assignments")
  }

  /** An existing assignment with a title, subject, students and content
      can be saved again unchanged. */
  lemma PrefillThenSubmit(a: Assignment, due: string)
    requires a.title != "" && a.subjectId != "" && due != "" && a.studentIds != [] && a.contentIds != []
    ensures Submit(Some(a.id), Prefill(a, due)) == Saved("Assignment updated successfully", "/assignments")
  {
  }
}
