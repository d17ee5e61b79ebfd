/** The create/edit form for learning content: who may use it, how an edit
    is prefilled, and which fields a save requires. */
module ContentFormPage {
  import opened Common
  import opened Types
  import opened Forms

  /** The form's fields, all strings as the inputs hold them. */
  datatype ContentForm = ContentForm(
    title: string,
    description: string,
    subjectId: string,
    keyStage: string,
    contentType: string,
    contentUrl: string,
    thumbnailUrl: string)

  const Blank: ContentForm := ContentForm("", "", "", "", "", "", "")

  /** The form filled from an existing item; a missing URL becomes "". */
  function Prefill(c: LearningContent): (f: ContentForm)
    ensures f.title == c.title && f.description == c.description && f.subjectId == c.subjectId
    ensures f.keyStage == c.keyStage && ParseContentType(f.contentType) == Some(c.contentType)
    ensures c.contentUrl.None? ==> f.contentUrl == ""
    ensures c.thumbnailUrl.None? ==> f.thumbnailUrl == ""
    ensures c.contentUrl.Some? ==> f.contentUrl == c.contentUrl.value
    ensures c.thumbnailUrl.Some? ==> f.thumbnailUrl == c.thumbnailUrl.value
  {
    ContentTypeNames(c.contentType);
    ContentForm(c.title, c.description, c.subjectId, c.keyStage, ContentTypeName(c.contentType),
                c.contentUrl.GetOr(""), c.thumbnailUrl.GetOr(""))
  }

  /** The form a route opens with: blank for a new item, the first item
      with the id for an edit, "Content not found" when there is none. */
  function Open(id: Option<string>, items: seq<LearningContent>): (r: Init<ContentForm>)
    ensures id.None? ==> r == Ready(Blank)
    ensures r.Missing? <==> id.Some? && forall i :: 0 <= i < |items| ==> items[i].id != id.value
    ensures r.Missing? ==> r.message == "Content not found" && r.next == "/content"
    ensures id.Some? && r.Ready? ==>
              exists k :: 0 <= k < |items| && items[k].id == id.value && r.form == Prefill(items[k])
                          && forall j :: 0 <= j < k ==> items[j].id != id.value
  {
    if id.None? then Ready(Blank)
    else
      match Find(items, (c: LearningContent) => c.id == id.value)
      case Some(c) => Ready(Prefill(c))
      case None => Missing("Content not found", "/content")
  }

  /** `handleSubmit`: title, subject, type and key stage are required; a
      save goes back to the content list. */
  function Submit(id: Option<string>, f: ContentForm): (r: Submission)
    ensures r.Rejected? <==> f.title == "" || f.subjectId == "" || f.contentType == "" || f.keyStage == ""
    ensures r.Rejected? ==> r.message == RequiredFieldsMessage
    ensures r.Saved? ==> r.next == "/content"
    ensures r.Saved? ==> r.message == (if id.Some? then "Content updated successfully"
                                       else "New content created successfully")
  {
    if f.title == "" || f.subjectId == "" || f.contentType == "" || f.keyStage == "" then
      Rejected(RequiredFieldsMessage)
    else if id.Some? then Saved("Content updated successfully", "/content")
    else Saved("New content created successfully", "/content")
  }

  /** Description and the two URLs never decide whether a save goes
      through. */
  lemma OptionalFieldsNeverRequired(id: Option<string>, f: ContentForm, d: string, u: string, t: string)
    ensures Submit(id, f.(description := d, contentUrl := u, thumbnailUrl := t)).Rejected?
            == Submit(id, f).Rejected?
  {
  }

  /** A blank form is always rejected. */
  lemma BlankRejected(id: Option<string>)
    ensures Submit(id, Blank) == Rejected(RequiredFieldsMessage)
  {
  }

  /** Re-saving an item unchanged succeeds iff it has a title, subject and
      key stage: its type always fills the type field. */
  lemma PrefillThenSubmit(c: LearningContent)
    ensures Submit(Some(c.id), Prefill(c)).Saved? <==> c.title != "" && c.subjectId != "" && c.keyStage != ""
  {
    ContentTypeNames(c.contentType);
  }

  /** The form's gate: `user?.role` must be teacher, school_admin or
      super_admin. */
  predicate CanUseForm(v: Viewer) {
    HasRole(v, Teacher) || HasRole(v, SchoolAdmin) || HasRole(v, SuperAdmin)
  }

  lemma FormGate(v: Viewer)
    ensures CanUseForm(v) <==> v.Some? && v.value.role in {Teacher, SchoolAdmin, SuperAdmin}
    ensures v.None? || HasRole(v, Student) || HasRole(v, Parent) ==> !CanUseForm(v)
  {
  }
}
