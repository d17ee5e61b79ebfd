/** The create/edit form for schools (super admins only): the plan list and
    its feature panel, how an edit is prefilled, and the save checks,
    including the trial end date a trial school needs. */
module SchoolFormPage {
  import opened Common
  import opened Types
  import opened Forms
  import Data

  /** The form's fields; the status is the selected status string. */
  datatype SchoolForm = SchoolForm(
    name: string,
    address: string,
    planId: string,
    status: string,
    trialEndsAt: string,
    studentsCount: int,
    teachersCount: int)

  const EnterprisePlan: SubscriptionPlan :=
    SubscriptionPlan("enterprise", "Enterprise Plan", 399, 1000, 60,
                     ["All Premium Features", "API Access", "White Labeling", "Dedicated Support"])

  /** The plans the form offers, in order. */
  const Plans: seq<SubscriptionPlan> := [Data.BasicPlan, Data.PremiumPlan, EnterprisePlan]

  /** The features panel: no panel while no plan is selected; otherwise
      the panel, listing the features of the first plan with the selected
      id, or nothing at all when the id names no plan. */
  function PlanFeatures(planId: string): (r: Option<seq<string>>)
    ensures r.None? <==> planId == ""
    ensures planId != "" && (forall i :: 0 <= i < |Plans| ==> Plans[i].id != planId) ==> r == Some([])
    ensures forall k :: 0 <= k < |Plans| && Plans[k].id == planId && planId != ""
                          && (forall j :: 0 <= j < k ==> Plans[j].id != planId)
                       ==> r == Some(Plans[k].features)
  {
    if planId == "" then None
    else
      match Find(Plans, (p: SubscriptionPlan) => p.id == planId)
      case Some(p) => Some(p.features)
      case None => Some([])
  }

  /** The three plans' features; no panel without a plan, and an empty
      panel for any other id. */
  lemma PlanFeatureTable(planId: string)
    ensures planId == "basic" ==> PlanFeatures(planId) == Some(Data.BasicPlan.features)
    ensures planId == "premium" ==> PlanFeatures(planId) == Some(Data.PremiumPlan.features)
    ensures planId == "enterprise" ==> PlanFeatures(planId) == Some(EnterprisePlan.features)
    ensures planId == "" ==> PlanFeatures(planId).None?
    ensures planId !in ["", "basic", "premium", "enterprise"] ==> PlanFeatures(planId) == Some([])
  {
    if planId == "basic" {
      FirstIndexAt(Plans, (p: SubscriptionPlan) => p.id == planId, 0);
    } else if planId == "premium" {
      FirstIndexAt(Plans, (p: SubscriptionPlan) => p.id == planId, 1);
    } else if planId == "enterprise" {
      FirstIndexAt(Plans, (p: SubscriptionPlan) => p.id == planId, 2);
    }
  }

  /** A new form: status "trial" and the default trial end date (thirty
      days from today, as the date input shows it). */
  function Blank(defaultTrialEnd: string): SchoolForm {
    SchoolForm("", "", "", "trial", defaultTrialEnd, 0, 0)
  }

  /** The form filled from an existing school; a missing trial end date
      becomes "". */
  function Prefill(s: School): (f: SchoolForm)
    ensures f.name == s.name && f.address == s.address && f.planId == s.plan.id
    ensures ParseStatus(f.status) == Some(s.status)
    ensures f.trialEndsAt == (if s.trialEndsAt.Some? then s.trialEndsAt.value else "")
    ensures f.studentsCount == s.studentsCount && f.teachersCount == s.teachersCount
  {
    StatusNames(s.status);
    SchoolForm(s.name, s.address, s.plan.id, StatusName(s.status), s.trialEndsAt.GetOr(""),
               s.studentsCount, s.teachersCount)
  }

  /** The form a route opens with: the blank form for a new school, the
      first school with the id for an edit, "School not found" when there
      is none. */
  function Open(id: Option<string>, schools: seq<School>, defaultTrialEnd: string): (r: Init<SchoolForm>)
    ensures id.None? ==> r == Ready(Blank(defaultTrialEnd))
    ensures r.Missing? <==> id.Some? && forall i :: 0 <= i < |schools| ==> schools[i].id != id.value
    ensures r.Missing? ==> r.message == "School not found" && r.next == "/schools"
    ensures id.Some? && r.Ready? ==>
              exists k :: 0 <= k < |schools| && schools[k].id == id.value && r.form == Prefill(schools[k])
                          && forall j :: 0 <= j < k ==> schools[j].id != id.value
  {
    if id.None? then Ready(Blank(defaultTrialEnd))
    else
      match Find(schools, (s: School) => s.id == id.value)
      case Some(s) => Ready(Prefill(s))
      case None => Missing("School not found", "/schools")
  }

  const TrialEndMessage: string := "Please specify a trial end date"

  /** `handleSubmit`: name, address, plan and status are required; then a
      trial school needs a trial end date. */
  function Submit(id: Option<string>, f: SchoolForm): (r: Submission)
    ensures r == Rejected(RequiredFieldsMessage) <==> f.name == "" || f.address == "" || f.planId == "" || f.status == ""
    ensures r == Rejected(TrialEndMessage)
            <==> f.name != "" && f.address != "" && f.planId != "" && f.status == "trial" && f.trialEndsAt == ""
    ensures r.Saved? <==> f.name != "" && f.address != "" && f.planId != "" && f.status != ""
                          && !(f.status == "trial" && f.trialEndsAt == "")
    ensures r.Saved? ==> r.next == "/schools"
    ensures r.Saved? ==> r.message == (if id.Some? then "School updated successfully" else "School added successfully")
  {
    if f.name == "" || f.address == "" || f.planId == "" || f.status == "" then Rejected(RequiredFieldsMessage)
    else if f.status == "trial" && f.trialEndsAt == "" then Rejected(TrialEndMessage)
    else if id.Some? then Saved("School updated successfully", "/schools")
    else Saved("School added successfully", "/schools")
  }

  /** Only the trial status asks for a date: with the required fields
      filled, an active or expired school saves with or without one. */
  lemma TrialDateOnlyForTrial(id: Option<string>, f: SchoolForm, s: SubscriptionStatus, d: string)
    requires f.name != "" && f.address != "" && f.planId != ""
    ensures Submit(id, f.(status := StatusName(s), trialEndsAt := d)).Saved? <==> s != Trial || d != ""
  {
    StatusNames(s);
  }

  /** Re-saving a school unchanged succeeds iff it has a name, an address
      and a plan id, and, when on trial, a non-empty trial end date. */
  lemma PrefillThenSubmit(s: School)
    ensures Submit(Some(s.id), Prefill(s)).Saved?
            <==> s.name != "" && s.address != "" && s.plan.id != ""
                 && (s.status == Trial ==> s.trialEndsAt.Some? && s.trialEndsAt.value != "")
  {
    StatusNames(s.status);
  }

  /** The form's gate: only a super admin. */
  predicate CanUseForm(v: Viewer) {
    HasRole(v, SuperAdmin)
  }

  /** A school admin is denied like every other role. */
  lemma FormGate(v: Viewer)
    ensures !CanUseForm(v) <==> v.None? || v.value.role in {SchoolAdmin, Teacher, Student, Parent}
  {
  }
}
