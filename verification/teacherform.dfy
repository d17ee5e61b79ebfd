/** The create/edit form for teachers (super admins and school admins): the
    default school, how an edit is found and prefilled, and the save checks
    with the e-mail pattern `^[^\s@]+@[^\s@]+\.[^\s@]+$`. */
module TeacherFormPage {
  import opened Common
  import opened Text
  import opened Types
  import opened Forms
  import TeachersPage

  datatype TeacherForm = TeacherForm(name: string, email: string, schoolId: string, avatar: string)

  /** A school admin's new form starts on their own school (or "" if they
      have none); everyone else's starts empty. */
  function DefaultSchoolId(v: Viewer): (r: string)
    ensures HasRole(v, SchoolAdmin) && v.value.schoolId.Some? ==> r == v.value.schoolId.value
    ensures !HasRole(v, SchoolAdmin) || v.value.schoolId.None? ==> r == ""
  {
    if HasRole(v, SchoolAdmin) then v.value.schoolId.GetOr("") else ""
  }

  function Blank(v: Viewer): TeacherForm {
    TeacherForm("", "", DefaultSchoolId(v), "")
  }

  /** A character the class `[^\s@]` accepts. */
  predicate PlainChar(c: char) {
    !IsSpace(c) && c != '@'
  }

  predicate AllPlain(s: string) {
    forall i :: 0 <= i < |s| ==> PlainChar(s[i])
  }

  /** The language of the pattern: a non-empty local part, "@", then a
      non-empty run, ".", and a non-empty run, none of the three parts
      holding whitespace or "@". */
  ghost predicate MatchesEmailPattern(s: string) {
    exists local: string, host: string, top: string ::
      s == local + "@" + host + "." + top
      && |local| > 0 && |host| > 0 && |top| > 0
      && AllPlain(local) && AllPlain(host) && AllPlain(top)
  }

  /** The domain after the "@" has a "." with a character on each side. */
  predicate InnerDot(d: string) {
    exists j :: 0 < j < |d| - 1 && d[j] == '.'
  }

  /** The e-mail check as a scan: no whitespace anywhere, exactly one "@",
      not at the start, and an inner "." after it. */
  predicate ValidEmail(s: string) {
    var k := FirstIndex(s, c => c == '@');
    0 < k < |s|
    && (forall i :: 0 <= i < |s| ==> !IsSpace(s[i]))
    && (forall i :: k < i < |s| ==> s[i] != '@')
    && InnerDot(s[k + 1..])
  }

  /** The scan accepts exactly the strings the pattern matches. */
  lemma ValidEmailMatchesPattern(s: string)
    ensures ValidEmail(s) <==> MatchesEmailPattern(s)
  {
    if ValidEmail(s) {
      PatternFromScan(s);
    }
    if MatchesEmailPattern(s) {
      var local: string, host: string, top: string :|
        s == local + "@" + host + "." + top
        && |local| > 0 && |host| > 0 && |top| > 0
        && AllPlain(local) && AllPlain(host) && AllPlain(top);
      ScanFromParts(local, host, top);
    }
  }

  /** An accepted address splits at its "@" and at an inner "." of the
      domain into three parts the pattern accepts. */
  lemma PatternFromScan(s: string)
    requires ValidEmail(s)
    ensures MatchesEmailPattern(s)
  {
    var k := FirstIndex(s, c => c == '@');
    var d := s[k + 1..];
    var j :| 0 < j < |d| - 1 && d[j] == '.';
    var local, host, top := s[..k], d[..j], d[j + 1..];
    assert s == local + "@" + host + "." + top;
    assert AllPlain(local);
    assert AllPlain(host) by {
      forall i | 0 <= i < |host| ensures PlainChar(host[i]) {
        assert host[i] == s[k + 1 + i];
      }
    }
    assert AllPlain(top) by {
      forall i | 0 <= i < |top| ensures PlainChar(top[i]) {
        assert top[i] == s[k + 2 + j + i];
      }
    }
  }

  /** Three parts the pattern accepts, joined by "@" and ".", pass the
      scan. */
  lemma ScanFromParts(local: string, host: string, top: string)
    requires |local| > 0 && |host| > 0 && |top| > 0
    requires AllPlain(local) && AllPlain(host) && AllPlain(top)
    ensures ValidEmail(local + "@" + host + "." + top)
  {
    var s := local + "@" + host + "." + top;
    var k := |local|;
    assert s[k] == '@';
    forall i | 0 <= i < k ensures s[i] != '@' {
      assert s[i] == local[i];
    }
    FirstIndexAt(s, c => c == '@', k);
    var d := s[k + 1..];
    assert d == host + "." + top;
    assert d[|host|] == '.';
    forall i | 0 <= i < |s| ensures !IsSpace(s[i]) && (i > k ==> s[i] != '@') {
      if i < k {
        assert s[i] == local[i];
      } else if k < i < k + 1 + |host| {
        assert s[i] == host[i - k - 1];
      } else if i > k + 1 + |host| {
        assert s[i] == top[i - k - 2 - |host|];
      }
    }
  }

  /** "a@b.c" is accepted. */
  lemma AcceptsShortAddress()
    ensures ValidEmail("a@b.c")
  {
    assert "a@b.c" == "a" + "@" + "b" + "." + "c";
    ScanFromParts("a", "b", "c");
  }

  /** A second "@" is refused. */
  lemma RefusesTwoAts()
    ensures !ValidEmail("a@@b.c")
  {
    FirstIndexAt("a@@b.c", c => c == '@', 1);
    assert "a@@b.c"[2] == '@';
  }

  /** A "." right after the "@" or at the very end is refused. */
  lemma RefusesDotAtEdge()
    ensures !ValidEmail("a@.c")
    ensures !ValidEmail("a@b.")
  {
    FirstIndexAt("a@.c", c => c == '@', 1);
    FirstIndexAt("a@b.", c => c == '@', 1);
  }

  const InvalidEmailMessage: string := "Please enter a valid email address"

  /** `handleSubmit`: name and e-mail are required, and a school only when
      the person saving is a super admin; the e-mail check runs only once
      the required fields are present. */
  function Submit(v: Viewer, id: Option<string>, f: TeacherForm): (r: Submission)
    ensures r == Rejected(RequiredFieldsMessage)
            <==> f.name == "" || f.email == "" || (f.schoolId == "" && HasRole(v, SuperAdmin))
    ensures r == Rejected(InvalidEmailMessage)
            <==> f.name != "" && f.email != "" && (f.schoolId != "" || !HasRole(v, SuperAdmin))
                 && !MatchesEmailPattern(f.email)
    ensures r.Saved? <==> f.name != "" && f.email != "" && (f.schoolId != "" || !HasRole(v, SuperAdmin))
                          && MatchesEmailPattern(f.email)
    ensures r.Saved? ==> r.next == "/teachers"
    ensures r.Saved? ==> r.message == (if id.Some? then "Teacher updated successfully" else "Teacher added successfully")
  {
    ValidEmailMatchesPattern(f.email);
    if f.name == "" || f.email == "" || (f.schoolId == "" && HasRole(v, SuperAdmin)) then
      Rejected(RequiredFieldsMessage)
    else if !ValidEmail(f.email) then Rejected(InvalidEmailMessage)
    else if id.Some? then Saved("Teacher updated successfully", "/teachers")
    else Saved("Teacher added successfully", "/teachers")
  }

  /** A school admin without a school of their own can still add a
      teacher with no school, which a super admin cannot. */
  lemma SchoolOnlyRequiredOfSuperAdmin(admin: Viewer, superAdmin: Viewer, name: string, email: string)
    requires HasRole(admin, SchoolAdmin) && admin.value.schoolId.None?
    requires HasRole(superAdmin, SuperAdmin)
    requires name != "" && MatchesEmailPattern(email)
    ensures Submit(admin, None, Blank(admin).(name := name, email := email)).Saved?
    ensures Submit(superAdmin, None, Blank(superAdmin).(name := name, email := email)) == Rejected(RequiredFieldsMessage)
  {
  }

  /** The form filled from a teacher; a missing school or avatar becomes "". */
  function Prefill(u: User): (f: TeacherForm)
    ensures f.name == u.name && f.email == u.email
    ensures f.schoolId == (if u.schoolId.Some? then u.schoolId.value else "")
    ensures f.avatar == (if u.avatar.Some? then u.avatar.value else "")
  {
    TeacherForm(u.name, u.email, u.schoolId.GetOr(""), u.avatar.GetOr(""))
  }

  /** The form a route opens with: the viewer's blank form for a new
      teacher; for an edit the first user with the id AND the teacher role,
      or "Teacher not found" when there is none. */
  function Open(v: Viewer, id: Option<string>, users: seq<User>): (r: Init<TeacherForm>)
    ensures id.None? ==> r == Ready(Blank(v))
    ensures r.Missing? <==> id.Some? && forall i :: 0 <= i < |users| ==> !(users[i].id == id.value && users[i].role == Teacher)
    ensures r.Missing? ==> r.message == "Teacher not found" && r.next == "/teachers"
    ensures id.Some? && r.Ready? ==>
              exists k :: 0 <= k < |users| && users[k].id == id.value && users[k].role == Teacher
                          && r.form == Prefill(users[k])
                          && forall j :: 0 <= j < k ==> !(users[j].id == id.value && users[j].role == Teacher)
  {
    if id.None? then Ready(Blank(v))
    else
      match Find(users, (u: User) => u.id == id.value && u.role == Teacher)
      case Some(u) => Ready(Prefill(u))
      case None => Missing("Teacher not found", "/teachers")
  }

  /** The edit route refuses a user who is not a teacher, even when the id
      matches. */
  lemma EditRequiresTeacher(v: Viewer, u: User)
    requires u.role != Teacher
    ensures Open(v, Some(u.id), [u]).Missing?
  {
  }

  /** The form's gate. */
  predicate CanUseForm(v: Viewer) {
    HasRole(v, SuperAdmin) || HasRole(v, SchoolAdmin)
  }

  /** The form admits the same viewers as the teachers page. */
  lemma FormGate(v: Viewer)
    ensures CanUseForm(v) <==> TeachersPage.CanManageTeachers(v)
    ensures !CanUseForm(v) <==> v.None? || v.value.role in {Teacher, Student, Parent}
  {
  }
}
