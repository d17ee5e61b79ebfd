/** The learning-content list page and the content details page: the list
    filters (with teachers restricted to their own content), the create
    action, the type icon, the details lookup and the edit right. */
module ContentPages {
  import opened Common
  import opened Text
  import opened Types

  /** Whether an item is listed: search on title or description, the
      subject and type filters ("" means all), and for a teacher only the
      items they created. */
  predicate Listed(v: Viewer, term: string, subjectFilter: string, typeFilter: string, c: LearningContent) {
    var matchesSearch := SearchMatches(term, c.title, c.description);
    var matchesSubject := if subjectFilter != "" then c.subjectId == subjectFilter else true;
    var matchesType := if typeFilter != "" then ContentTypeName(c.contentType) == typeFilter else true;
    var isTeacherContent := if HasRole(v, Teacher) then c.createdBy == v.value.id else true;
    matchesSearch && matchesSubject && matchesType && isTeacherContent
  }

  /** `filteredContent`. */
  function FilteredContent(v: Viewer, items: seq<LearningContent>, term: string,
                           subjectFilter: string, typeFilter: string): (r: seq<LearningContent>)
    ensures SubsequenceOf(r, items)
    ensures forall c :: c in r <==>
              c in items && SearchMatches(term, c.title, c.description)
              && (subjectFilter == "" || c.subjectId == subjectFilter)
              && (typeFilter == "" || ContentTypeName(c.contentType) == typeFilter)
              && (HasRole(v, Teacher) ==> c.createdBy == v.value.id)
  {
    Filter(items, c => Listed(v, term, subjectFilter, typeFilter, c))
  }

  /** Only a teacher's list is restricted by authorship: with empty search
      and filters, every other viewer sees every item, and a teacher sees
      exactly the items they created. */
  lemma AuthorshipOnlyForTeachers(v: Viewer, items: seq<LearningContent>)
    ensures !HasRole(v, Teacher) ==> FilteredContent(v, items, "", "", "") == items
    ensures HasRole(v, Teacher) ==>
              FilteredContent(v, items, "", "", "")
              == Filter(items, (c: LearningContent) => c.createdBy == v.value.id)
  {
    forall c: LearningContent
      ensures Listed(v, "", "", "", c) == (HasRole(v, Teacher) ==> c.createdBy == v.value.id)
    {
      EmptySearchMatchesAll(c.title, c.description);
    }
    if HasRole(v, Teacher) {
      FilterExt(items, c => Listed(v, "", "", "", c), (c: LearningContent) => c.createdBy == v.value.id);
    } else {
      FilterAll(items, c => Listed(v, "", "", "", c));
    }
  }

  /** The "Add New Content" action. */
  predicate CanCreateContent(v: Viewer) {
    HasRole(v, Teacher) || HasRole(v, SchoolAdmin) || HasRole(v, SuperAdmin)
  }

  /** Students, parents and signed-out visitors cannot add content. */
  lemma CreateGate(v: Viewer)
    ensures !CanCreateContent(v) <==> v.None? || HasRole(v, Student) || HasRole(v, Parent)
  {
  }

  datatype TypeIcon = VideoIcon | FileTextIcon | CheckSquareIcon | BookOpenIcon

  /** The icon for a content type string; anything but "video", "text" and
      "quiz" gets the book icon. */
  function IconFor(contentType: string): (i: TypeIcon)
    ensures i == BookOpenIcon <==> contentType !in ["video", "text", "quiz"]
  {
    if contentType == "video" then VideoIcon
    else if contentType == "text" then FileTextIcon
    else if contentType == "quiz" then CheckSquareIcon
    else BookOpenIcon
  }

  /** Each content type's icon: video, text and quiz get distinct icons of
      their own; activity has no case and falls to the default. */
  lemma TypeIcons(t: ContentType, u: ContentType)
    ensures IconFor(ContentTypeName(t)) == BookOpenIcon <==> t == Activity
    ensures IconFor(ContentTypeName(t)) == IconFor(ContentTypeName(u)) <==> t == u
  {
  }

  /** What the details page shows. Without a route id the page keeps its
      loading placeholder; with an unknown id it reports "Content not found"
      and returns to the list. */
  datatype DetailsView =
    | Loading
    | NotFound
    | Shown(content: LearningContent, subject: Option<Subject>, creator: Option<User>)

  /** The details lookup: the first item with the id, its subject and its
      creator, each looked up by id. */
  function OpenDetails(id: Option<string>, items: seq<LearningContent>,
                       subjects: seq<Subject>, users: seq<User>): (r: DetailsView)
    ensures r.Loading? <==> id.None?
    ensures r.NotFound? <==> id.Some? && forall i :: 0 <= i < |items| ==> items[i].id != id.value
    ensures r.Shown? ==> r.content in items && Some(r.content.id) == id
    ensures r.Shown? && r.subject.Some? ==> r.subject.value in subjects && r.subject.value.id == r.content.subjectId
    ensures r.Shown? && r.creator.Some? ==> r.creator.value in users && r.creator.value.id == r.content.createdBy
    ensures r.Shown? && r.subject.None? ==> forall s :: s in subjects ==> s.id != r.content.subjectId
    ensures r.Shown? ==> id.Some? && exists k :: 0 <= k < |items| && items[k] == r.content
                                                  && forall j :: 0 <= j < k ==> items[j].id != id.value
    ensures r.Shown? && r.subject.Some? ==>
              exists k :: 0 <= k < |subjects| && subjects[k] == r.subject.value
                          && forall j :: 0 <= j < k ==> subjects[j].id != r.content.subjectId
    ensures r.Shown? && r.creator.Some? ==>
              exists k :: 0 <= k < |users| && users[k] == r.creator.value
                          && forall j :: 0 <= j < k ==> users[j].id != r.content.createdBy
    ensures r.Shown? && r.creator.None? ==> forall u :: u in users ==> u.id != r.content.createdBy
  {
    if id.None? then Loading
    else
      match Find(items, (c: LearningContent) => c.id == id.value)
      case None => NotFound
      case Some(c) =>
        Shown(c, Find(subjects, (s: Subject) => s.id == c.subjectId),
                 Find(users, (u: User) => u.id == c.createdBy))
  }

  /** Where the details page sends the viewer: back to the list when the
      item is missing, nowhere otherwise. */
  function DetailsRedirect(r: DetailsView): (p: Option<string>)
    ensures p.Some? <==> r.NotFound?
  {
    if r.NotFound? then Some("/content") else None
  }

  /** `subject?.name || "Unknown Subject"`. */
  function SubjectLabel(subject: Option<Subject>): (r: string)
    ensures subject.Some? && subject.value.name != "" ==> r == subject.value.name
    ensures subject.None? || subject.value.name == "" ==> r == "Unknown Subject"
  {
    if subject.Some? && subject.value.name != "" then subject.value.name else "Unknown Subject"
  }

  /** `canEditContent`; the edit and delete controls are shown iff it holds. */
  predicate CanEditContent(v: Viewer, c: LearningContent) {
    HasRole(v, SuperAdmin) || HasRole(v, SchoolAdmin) || (HasRole(v, Teacher) && v.value.id == c.createdBy)
  }

  /** The edit right by role: both admin roles may edit any item, whoever
      wrote it and whichever school they belong to; a teacher may edit
      exactly their own items; students, parents and signed-out visitors
      never may. */
  lemma EditRights(v: Viewer, c: LearningContent)
    ensures HasRole(v, SuperAdmin) || HasRole(v, SchoolAdmin) ==> CanEditContent(v, c)
    ensures HasRole(v, Teacher) ==> (CanEditContent(v, c) <==> v.value.id == c.createdBy)
    ensures v.None? || HasRole(v, Student) || HasRole(v, Parent) ==> !CanEditContent(v, c)
  {
  }

  /** A school admin may edit content written by a teacher of another
      school: the edit right never consults a school. */
  lemma SchoolAdminEditsAcrossSchools(v: Viewer, c: LearningContent, author: User)
    requires HasRole(v, SchoolAdmin) && author.id == c.createdBy && author.schoolId != v.value.schoolId
    ensures CanEditContent(v, c)
  {
  }

  /** A teacher's list hides another teacher's item, yet the details page
      opens it by id: the details page has no view gate. */
  lemma DetailsIgnoreAuthorship(v: Viewer, c: LearningContent, subjects: seq<Subject>, users: seq<User>)
    requires HasRole(v, Teacher) && c.createdBy != v.value.id
    ensures c !in FilteredContent(v, [c], "", "", "")
    ensures OpenDetails(Some(c.id), [c], subjects, users).Shown?
    ensures !CanEditContent(v, c)
  {
  }
}
