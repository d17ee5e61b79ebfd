/** The school-management page (super admins only): search on name or
    address, a status filter, and the status badge of each school card. */
module SchoolsPage {
  import opened Common
  import opened Text
  import opened Types

  predicate Listed(term: string, statusFilter: string, s: School) {
    var matchesSearch := SearchMatches(term, s.name, s.address);
    var matchesStatus := if statusFilter != "" then StatusName(s.status) == statusFilter else true;
    matchesSearch && matchesStatus
  }

  /** `filteredSchools`. */
  function FilteredSchools(schools: seq<School>, term: string, statusFilter: string): (r: seq<School>)
    ensures SubsequenceOf(r, schools)
    ensures forall s :: s in r <==>
              s in schools && SearchMatches(term, s.name, s.address)
              && (statusFilter == "" || StatusName(s.status) == statusFilter)
  {
    Filter(schools, s => Listed(term, statusFilter, s))
  }

  /** A status filter naming a status keeps only schools with that status;
      one naming no status keeps nothing. */
  lemma StatusFilterForcesStatus(schools: seq<School>, term: string, statusFilter: string)
    ensures forall s :: s in FilteredSchools(schools, term, statusFilter) && statusFilter != ""
              ==> ParseStatus(statusFilter) == Some(s.status)
    ensures statusFilter != "" && ParseStatus(statusFilter).None? ==> FilteredSchools(schools, term, statusFilter) == []
  {
    forall s | s in FilteredSchools(schools, term, statusFilter) && statusFilter != ""
      ensures ParseStatus(statusFilter) == Some(s.status)
    {
      StatusNames(s.status);
    }
  }

  /** An empty search and no status filter list every school. */
  lemma NoFiltersListsEverySchool(schools: seq<School>)
    ensures FilteredSchools(schools, "", "") == schools
  {
    forall i | 0 <= i < |schools| ensures Listed("", "", schools[i]) {
      EmptySearchMatchesAll(schools[i].name, schools[i].address);
    }
    FilterAll(schools, s => Listed("", "", s));
  }

  /** The page gate: only a super admin may manage schools. */
  predicate CanManageSchools(v: Viewer) {
    HasRole(v, SuperAdmin)
  }

  /** The status badge text: the stored status with its first letter
      upper-cased. */
  function StatusLabel(s: SubscriptionStatus): (r: string)
    ensures |r| == |StatusName(s)| && r[1..] == StatusName(s)[1..]
    ensures r[0] == UpperChar(StatusName(s)[0])
  {
    StatusNames(s);
    Capitalize(StatusName(s))
  }

  /** The three labels as displayed. */
  lemma StatusLabels(s: SubscriptionStatus)
    ensures s == Active ==> StatusLabel(s) == "Active"
    ensures s == Trial ==> StatusLabel(s) == "Trial"
    ensures s == Expired ==> StatusLabel(s) == "Expired"
  {
    var n := StatusName(s);
    var r := StatusLabel(s);
    assert r == [UpperChar(n[0])] + n[1..];
  }

  datatype StatusColour = Green | Yellow | Red

  /** The status badge colour: green when active, yellow on trial, red
      otherwise. */
  function StatusColourOf(s: SubscriptionStatus): (c: StatusColour)
    ensures c == Red <==> s == Expired
    ensures c == Green <==> s == Active
  {
    match s
    case Active => Green
    case Trial => Yellow
    case Expired => Red
  }

  /** The card shows a trial end date iff the school is on trial and its
      `trialEndsAt` is a non-empty string. */
  predicate ShowsTrialEnd(s: School) {
    s.status == Trial && s.trialEndsAt.Some? && s.trialEndsAt.value != ""
  }

  /** Active and expired schools never show a trial end date, whatever
      `trialEndsAt` holds. */
  lemma TrialEndOnlyOnTrial(s: School)
    ensures ShowsTrialEnd(s) ==> s.status == Trial
    ensures s.trialEndsAt.None? ==> !ShowsTrialEnd(s)
  {
  }
}
