/** The student details page: who may open it, the student lookup, the
    badge list joined with badge details, and the progress report: per
    subject, how many content items exist and how many the student has
    completed, the rounded percentages and the overall label. */
module StudentDetailsPage {
  import opened Common
  import opened Types
  import opened Text
  import AssignmentsPage

  /** `canViewStudentDetails`. */
  predicate CanViewDetails(v: Viewer) {
    Admits(["super_admin", "school_admin", "teacher", "parent"], v)
  }

  /** Everyone signed in except students may open the page. */
  lemma DetailsGate(v: Viewer)
    ensures CanViewDetails(v) <==> v.Some? && v.value.role != Student
  {
  }

  /** The student shown: the first user with the route id and the student
      role. Until there is one, the page shows its loading placeholder. */
  function FindStudent(users: seq<User>, id: string): (r: Option<User>)
    ensures r.Some? ==> r.value in users && r.value.id == id && r.value.role == Student
    ensures r.None? <==> forall i :: 0 <= i < |users| ==> !(users[i].id == id && users[i].role == Student)
    ensures r.Some? ==> exists k :: 0 <= k < |users| && users[k] == r.value
                                    && forall j :: 0 <= j < k ==> !(users[j].id == id && users[j].role == Student)
  {
    Find(users, (u: User) => u.id == id && u.role == Student)
  }

  /** A badge as the page lists it: the award plus the badge's details. */
  datatype BadgeView = BadgeView(award: UserBadge, name: string, description: string, imageUrl: string)

  /** The badge details for one award; an unknown badge id (or an empty
      badge name) shows "Unknown Badge", and missing texts are "". */
  function JoinBadge(badges: seq<Badge>, ub: UserBadge): (r: BadgeView)
    ensures r.award == ub
    ensures (forall i :: 0 <= i < |badges| ==> badges[i].id != ub.badgeId) ==>
              r.name == "Unknown Badge" && r.description == "" && r.imageUrl == ""
    ensures r.name != "Unknown Badge" ==> exists b :: b in badges && b.id == ub.badgeId && b.name == r.name
    ensures r.name != ""
    ensures forall k :: 0 <= k < |badges| && badges[k].id == ub.badgeId
                          && (forall j :: 0 <= j < k ==> badges[j].id != ub.badgeId)
                       ==> r.name == (if badges[k].name != "" then badges[k].name else "Unknown Badge")
                           && r.description == badges[k].description && r.imageUrl == badges[k].imageUrl
  {
    match Find(badges, (b: Badge) => b.id == ub.badgeId)
    case Some(b) =>
      BadgeView(ub, if b.name != "" then b.name else "Unknown Badge", b.description, b.imageUrl)
    case None => BadgeView(ub, "Unknown Badge", "", "")
  }

  /** The whole badge list, one entry per award, in award order. */
  function JoinBadges(badges: seq<Badge>, awards: seq<UserBadge>): (r: seq<BadgeView>)
    ensures |r| == |awards|
    ensures forall i :: 0 <= i < |r| ==> r[i] == JoinBadge(badges, awards[i])
  {
    seq(|awards|, i requires 0 <= i < |awards| => JoinBadge(badges, awards[i]))
  }

  /** The header shows the first three badges and, past three, a "+n more"
      chip. */
  function BadgeStrip(views: seq<BadgeView>): (r: (seq<BadgeView>, Option<nat>))
    ensures r.0 == Take(views, 3)
    ensures r.1.Some? <==> |views| > 3
    ensures r.1.Some? ==> |r.0| + r.1.value == |views|
  {
    (Take(views, 3), if |views| > 3 then Some(|views| - 3) else None)
  }

  /** A subject's counters. */
  datatype Tally = Tally(completed: nat, total: nat)

  /** The item belongs to subject `k`. */
  function InSubject(k: string): LearningContent -> bool {
    (c: LearningContent) => c.subjectId == k
  }

  /** The student's first progress record for the item says 100. */
  predicate Completed(progress: seq<StudentProgress>, contentId: string) {
    var p := Find(progress, (p: StudentProgress) => p.contentId == contentId);
    p.Some? && p.value.progress == 100
  }

  /** The item belongs to subject `k` and is completed. */
  function CompletedIn(progress: seq<StudentProgress>, k: string): LearningContent -> bool {
    (c: LearningContent) => c.subjectId == k && Completed(progress, c.id)
  }

  /** Every tally of `m` counts the items of `xs`. */
  predicate Tallies(m: map<string, Tally>, xs: seq<LearningContent>, progress: seq<StudentProgress>) {
    forall k :: k in m ==> m[k] == Tally(Count(xs, CompletedIn(progress, k)), Count(xs, InSubject(k)))
  }

  /** One item counted: its subject's total goes up, and its completed
      count too when the item is completed; an unlisted subject is
      skipped. */
  function AddItem(m: map<string, Tally>, c: LearningContent, progress: seq<StudentProgress>): (r: map<string, Tally>)
    ensures r.Keys == m.Keys
  {
    if c.subjectId in m then
      var t := m[c.subjectId];
      m[c.subjectId := Tally(if Completed(progress, c.id) then t.completed + 1 else t.completed, t.total + 1)]
    else m
  }

  /** Counting one more item keeps the tallies exact. */
  lemma AddItemTallies(m: map<string, Tally>, xs: seq<LearningContent>, c: LearningContent,
                       progress: seq<StudentProgress>)
    requires Tallies(m, xs, progress)
    ensures Tallies(AddItem(m, c, progress), xs + [c], progress)
  {
    var r := AddItem(m, c, progress);
    forall k | k in r
      ensures r[k] == Tally(Count(xs + [c], CompletedIn(progress, k)), Count(xs + [c], InSubject(k)))
    {
      CountSnoc(xs, c, InSubject(k));
      CountSnoc(xs, c, CompletedIn(progress, k));
    }
  }

  /** The tallies of the page: one entry per listed subject id; every item
      of a listed subject adds one to its total, and one to its completed
      count when the student's first progress record for it says 100; items
      of unlisted subjects are skipped. */
  method Aggregate(subjects: seq<Subject>, items: seq<LearningContent>, progress: seq<StudentProgress>)
    returns (m: map<string, Tally>)
    ensures m.Keys == set s | s in subjects :: s.id
    ensures forall k :: k in m ==> m[k].total == Count(items, InSubject(k))
    ensures forall k :: k in m ==> m[k].completed == Count(items, CompletedIn(progress, k))
    ensures forall k :: k in m ==> m[k].completed <= m[k].total
  {
    m := map[];
    for i := 0 to |subjects|
      invariant m.Keys == set s | s in subjects[..i] :: s.id
      invariant forall k :: k in m ==> m[k] == Tally(0, 0)
    {
      assert subjects[..i + 1] == subjects[..i] + [subjects[i]];
      m := m[subjects[i].id := Tally(0, 0)];
    }
    assert subjects[..|subjects|] == subjects;
    assert Tallies(m, items[..0], progress);
    for j := 0 to |items|
      invariant m.Keys == set s | s in subjects :: s.id
      invariant Tallies(m, items[..j], progress)
    {
      AddItemTallies(m, items[..j], items[j], progress);
      assert items[..j + 1] == items[..j] + [items[j]];
      m := AddItem(m, items[j], progress);
    }
    assert items[..|items|] == items;
    forall k | k in m ensures m[k].completed <= m[k].total {
      CountMono(items, CompletedIn(progress, k), InSubject(k));
    }
  }

  /** `Math.round(a / b)` for a non-negative ratio, with halves rounded
      up, on exact rationals. */
  function RoundRatio(a: nat, b: nat): (r: nat)
    requires b > 0
    ensures 2 * b * r <= 2 * a + b < 2 * b * (r + 1)
  {
    (2 * a + b) / (2 * b)
  }

  /** Exact rounding where the source's double arithmetic differs: 23 of
      40 is exactly 57.5 per cent and rounds up to 58, whereas the double
      product `(23 / 40) * 100` falls just below 57.5. */
  lemma ExactRoundingAt23Of40()
    ensures Percent(Tally(23, 40)) == 58
  {
  }

  /** A subject's percentage: 0 without items, else the rounded share of
      completed items. */
  function Percent(t: Tally): (r: nat)
    requires t.completed <= t.total
    ensures r <= 100
    ensures t.total == 0 ==> r == 0
    ensures t.total > 0 && t.completed == t.total ==> r == 100
    ensures t.completed == 0 ==> r == 0
    ensures t.total > 0 ==> 200 * t.completed - t.total < 2 * t.total * r <= 200 * t.completed + t.total
  {
    if t.total > 0 then
      var r := RoundRatio(100 * t.completed, t.total);
      PercentEdges(t, r);
      r
    else 0
  }

  lemma PercentEdges(t: Tally, r: nat)
    requires 0 < t.total && t.completed <= t.total
    requires 2 * t.total * r <= 2 * (100 * t.completed) + t.total < 2 * t.total * (r + 1)
    ensures r <= 100
    ensures t.completed == t.total ==> r == 100
    ensures t.completed == 0 ==> r == 0
  {
    RoundedAtMost(100 * t.completed, t.total, 100, r);
    if t.completed == t.total {
      RoundedExact(t.total, 100, r);
    } else if t.completed == 0 {
      RoundedExact(t.total, 0, r);
    }
  }

  /** A rounded ratio whose numerator is at most `n` times its denominator
      is at most `n`. */
  lemma RoundedAtMost(a: nat, b: nat, n: nat, r: nat)
    requires b > 0 && a <= n * b && 2 * b * r <= 2 * a + b
    ensures r <= n
  {
    if r > n {
      MulMono(2 * b, n + 1, r);
    }
  }

  /** The rounded ratio of `n * b` to `b` is `n`. */
  lemma RoundedExact(b: nat, n: nat, r: nat)
    requires b > 0 && 2 * b * r <= 2 * (n * b) + b < 2 * b * (r + 1)
    ensures r == n
  {
    RoundedAtMost(n * b, b, n, r);
    if r < n {
      MulMono(2 * b, r + 1, n);
    }
  }

  lemma MulMono(k: nat, x: nat, y: nat)
    requires x <= y
    ensures k * x <= k * y
  {
    assert k * y == k * x + k * (y - x);
  }

  /** A subject with its counters and percentage, as the subject tab lists
      it. */
  datatype SubjectRow = SubjectRow(subject: Subject, percent: nat, completed: nat, total: nat)

  /** One row per subject, in subject order. */
  function Rows(subjects: seq<Subject>, m: map<string, Tally>): (r: seq<SubjectRow>)
    requires forall s :: s in subjects ==> s.id in m && m[s.id].completed <= m[s.id].total
    ensures |r| == |subjects|
    ensures forall i :: 0 <= i < |r| ==> r[i].subject == subjects[i] && r[i].percent <= 100
    ensures forall i :: 0 <= i < |r| ==>
              r[i].completed == m[subjects[i].id].completed && r[i].total == m[subjects[i].id].total
    ensures forall i :: 0 <= i < |r| ==> r[i].percent == Percent(m[subjects[i].id])
  {
    seq(|subjects|, i requires 0 <= i < |subjects| =>
      var t := m[subjects[i].id];
      SubjectRow(subjects[i], Percent(t), t.completed, t.total))
  }

  function SumPercents(rows: seq<SubjectRow>): (r: nat)
    ensures (forall i :: 0 <= i < |rows| ==> rows[i].percent <= 100) ==> r <= 100 * |rows|
  {
    if |rows| == 0 then 0 else rows[0].percent + SumPercents(rows[1..])
  }

  /** The overall progress: the rounded mean of the subject percentages, 0
      with no subjects. */
  function Overall(rows: seq<SubjectRow>): (r: nat)
    requires forall i :: 0 <= i < |rows| ==> rows[i].percent <= 100
    ensures r <= 100
    ensures |rows| == 0 ==> r == 0
    ensures |rows| > 0 ==> 2 * |rows| * r <= 2 * SumPercents(rows) + |rows| < 2 * |rows| * (r + 1)
  {
    if |rows| > 0 then
      var r := RoundRatio(SumPercents(rows), |rows|);
      assert SumPercents(rows) <= 100 * |rows|;
      RoundedAtMost(SumPercents(rows), |rows|, 100, r);
      r
    else 0
  }

  /** When every subject stands at the same percentage, so does the
      overall progress. */
  lemma {:induction false} OverallOfEqualRows(rows: seq<SubjectRow>, p: nat)
    requires |rows| > 0 && p <= 100
    requires forall i :: 0 <= i < |rows| ==> rows[i].percent == p
    ensures Overall(rows) == p
  {
    SumOfEqual(rows, p);
    RoundedExact(|rows|, p, Overall(rows));
  }

  lemma {:induction false} SumOfEqual(rows: seq<SubjectRow>, p: nat)
    requires forall i :: 0 <= i < |rows| ==> rows[i].percent == p
    ensures SumPercents(rows) == p * |rows|
  {
    if |rows| > 0 {
      var rest := rows[1..];
      assert forall i :: 0 <= i < |rest| ==> rest[i] == rows[i + 1];
      SumOfEqual(rest, p);
      assert p * |rows| == p * |rest| + p;
    }
  }

  datatype ProgressLabel = JustStarting | MakingProgress | DoingWell | Excellent

  /** The label under the overall percentage. */
  function LabelFor(overall: int): (l: ProgressLabel)
    ensures l == JustStarting <==> overall < 30
    ensures l == MakingProgress <==> 30 <= overall < 60
    ensures l == DoingWell <==> 60 <= overall < 80
    ensures l == Excellent <==> 80 <= overall
  {
    if overall < 30 then JustStarting
    else if overall < 60 then MakingProgress
    else if overall < 80 then DoingWell
    else Excellent
  }

  /** The label never moves down as progress grows. */
  lemma LabelMonotone(a: int, b: int)
    requires a <= b
    ensures LabelRank(LabelFor(a)) <= LabelRank(LabelFor(b))
  {
  }

  function LabelRank(l: ProgressLabel): nat {
    match l
    case JustStarting => 0
    case MakingProgress => 1
    case DoingWell => 2
    case Excellent => 3
  }

  /** The label text. */
  function LabelText(l: ProgressLabel): string {
    match l
    case JustStarting => "Just Starting"
    case MakingProgress => "Making Progress"
    case DoingWell => "Doing Well"
    case Excellent => "Excellent!"
  }

  /** The "past due" figure: the student's assignments due before now
      (each such card is also marked overdue). */
  function PastDue(assignments: seq<Assignment>, now: int): (n: nat)
    ensures n <= |assignments|
    ensures n == 0 <==> forall a :: a in assignments ==> a.dueDate >= now
  {
    var r := Filter(assignments, (a: Assignment) => a.dueDate < now);
    assert |r| > 0 ==> r[0] in r;
    |r|
  }

  /** The figure agrees with the assignments page: it is the length of
      that page's list under the "overdue" status filter with no search
      and no subject filter. */
  lemma PastDueMatchesOverdueFilter(assignments: seq<Assignment>, now: int)
    ensures PastDue(assignments, now) == |AssignmentsPage.FilteredAssignments(assignments, "", "", "overdue", now)|
  {
    forall a: Assignment
      ensures AssignmentsPage.Listed("", "", "overdue", now, a) == (a.dueDate < now)
    {
      EmptySearchMatchesAll(a.title, a.description);
    }
    FilterExt(assignments, a => AssignmentsPage.Listed("", "", "overdue", now, a),
              (a: Assignment) => a.dueDate < now);
  }
}
