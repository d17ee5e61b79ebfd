/** The mock data service: eight fixed collections, the fetch operations
    that filter them, and the role-driven initial load run when a user is
    signed in. Fetches are modelled on an explicit `Store` so that their
    contracts hold for any data, with `Fixtures` the store the application
    ships. */
module Data {
  import opened Common
  import opened Types

  /** The eight collections of the data context. */
  datatype Store = Store(
    schools: seq<School>,
    subjects: seq<Subject>,
    users: seq<User>,
    content: seq<LearningContent>,
    assignments: seq<Assignment>,
    badges: seq<Badge>,
    userBadges: seq<UserBadge>,
    progress: seq<StudentProgress>)

  const Empty: Store := Store([], [], [], [], [], [], [], [])

  const BasicPlan: SubscriptionPlan :=
    SubscriptionPlan("basic", "Basic Plan", 99, 200, 15,
                     ["Core Subjects", "Basic Analytics", "Email Support"])

  const PremiumPlan: SubscriptionPlan :=
    SubscriptionPlan("premium", "Premium Plan", 199, 500, 30,
                     ["All Subjects", "Advanced Analytics", "Priority Support", "Custom Content"])

  const MockUsers: seq<User> := [
    User("1", "Super Admin", "admin@brightspark.com", SuperAdmin,
         Some("/assets/avatars/super-admin.png"), None),
    User("2", "School Admin", "school@brightspark.com", SchoolAdmin,
         Some("/assets/avatars/school-admin.png"), Some("1")),
    User("3", "Teacher Smith", "teacher@brightspark.com", Teacher,
         Some("/assets/avatars/teacher.png"), Some("1")),
    User("4", "Student Jones", "student@brightspark.com", Student,
         Some("/assets/avatars/student.png"), Some("1")),
    User("5", "Parent Brown", "parent@brightspark.com", Parent,
         Some("/assets/avatars/parent.png"), Some("1")),
    User("6", "Teacher Johnson", "johnson@brightspark.com", Teacher,
         Some("/assets/avatars/teacher-2.png"), Some("1")),
    User("7", "Student Williams", "williams@brightspark.com", Student,
         Some("/assets/avatars/student-2.png"), Some("1"))
  ]

  const MockAssignments: seq<Assignment> := [
    Assignment("1", "Weekly Math Quiz", "Complete the addition and subtraction practice",
               1747267200000, "1", "3", None, ["4", "7"], ["1"], "2025-05-01"),
    Assignment("2", "Reading Comprehension", "Read the short story and answer the questions",
               1747526400000, "2", "6", None, ["4"], ["2"], "2025-05-03")
  ]

  /** The fixtures of the data context. */
  const Fixtures: Store := Store(
    [ School("1", "Oakridge Primary School", "123 School Lane, London", BasicPlan,
             Active, None, 150, 12),
      School("2", "Meadowbrook Academy", "456 Learning Drive, Manchester", PremiumPlan,
             Trial, Some("2025-06-15"), 320, 24) ],
    [ Subject("1", "Mathematics", "calculator", "#4CAF50", ["KS1", "KS2"]),
      Subject("2", "English", "book", "#2196F3", ["KS1", "KS2"]),
      Subject("3", "Science", "flask", "#9C27B0", ["KS1", "KS2"]),
      Subject("4", "Geography", "globe", "#FF9800", ["KS1", "KS2"]),
      Subject("5", "History", "clock", "#795548", ["KS1", "KS2"]) ],
    MockUsers,
    [ LearningContent("1", "Basic Addition for Year 1", "Learn to add numbers up to 20", "1", "KS1",
                      Video, Some("/content/math/addition.mp4"), Some("/thumbnails/math/addition.jpg"),
                      "3", "2025-04-01", "2025-04-01"),
      LearningContent("2", "Phonics: Short Vowel Sounds", "Learn the short vowel sounds with fun exercises",
                      "2", "KS1", Activity, None, Some("/thumbnails/english/phonics.jpg"),
                      "3", "2025-04-02", "2025-04-03"),
      LearningContent("3", "Plants and Growth", "Explore how plants grow and what they need", "3", "KS1",
                      Quiz, None, Some("/thumbnails/science/plants.jpg"), "6", "2025-04-05", "2025-04-05"),
      LearningContent("4", "Multiplication Tables: 2, 5 and 10",
                      "Practice multiplication tables with interactive games", "1", "KS2",
                      Activity, None, Some("/thumbnails/math/multiplication.jpg"),
                      "3", "2025-04-10", "2025-04-10") ],
    MockAssignments,
    [ Badge("1", "Math Star", "Awarded for excellent performance in mathematics",
            "/badges/math-star.png", "Score 90% or higher on 3 math assessments"),
      Badge("2", "Reading Champion", "Awarded for consistent reading practice",
            "/badges/reading-champion.png", "Complete 10 reading assignments"),
      Badge("3", "Science Explorer", "Awarded for curiosity and excellence in science",
            "/badges/science-explorer.png", "Complete all science activities in a unit") ],
    [ UserBadge("1", "4", "1", "2025-04-15"),
      UserBadge("2", "4", "2", "2025-04-20") ],
    [ StudentProgress("1", "4", "1", 100, Some(85), Some("2025-04-10"), 1),
      StudentProgress("2", "4", "2", 100, Some(92), Some("2025-04-12"), 1),
      StudentProgress("3", "4", "3", 75, None, None, 1),
      StudentProgress("4", "7", "1", 100, Some(78), Some("2025-04-11"), 2) ])

  /** `fetchUsers(role?)`: the users with the given role, or all users. */
  function FetchUsers(st: Store, role: Option<Role>): (r: seq<User>)
    ensures SubsequenceOf(r, st.users)
    ensures role.None? ==> r == st.users
    ensures role.Some? ==> forall u :: u in r <==> u in st.users && u.role == role.value
  {
    if role.Some? then Filter(st.users, (u: User) => u.role == role.value)
    else SubsequenceOfSelf(st.users); st.users
  }

  /** `fetchLearningContent(subjectId?)`: the content of one subject; an
      absent or empty subject id returns everything. */
  function FetchLearningContent(st: Store, subjectId: Option<string>): (r: seq<LearningContent>)
    ensures SubsequenceOf(r, st.content)
    ensures subjectId.None? || subjectId.value == "" ==> r == st.content
    ensures subjectId.Some? && subjectId.value != "" ==>
              forall c :: c in r <==> c in st.content && c.subjectId == subjectId.value
  {
    if subjectId.Some? && subjectId.value != "" then
      Filter(st.content, (c: LearningContent) => c.subjectId == subjectId.value)
    else SubsequenceOfSelf(st.content); st.content
  }

  /** The role of the first user with the given id, if any. */
  function RoleOfId(users: seq<User>, id: string): Option<Role> {
    var u := Find(users, (u: User) => u.id == id);
    if u.Some? then Some(u.value.role) else None
  }

  /** `fetchAssignments(userId)`: a teacher gets the assignments they set,
      a student those they are assigned to, and every other id, including
      one that names no user at all, gets every assignment. */
  function FetchAssignments(st: Store, userId: string): (r: seq<Assignment>)
    ensures SubsequenceOf(r, st.assignments)
    ensures RoleOfId(st.users, userId) == Some(Teacher) ==>
              forall a :: a in r <==> a in st.assignments && a.teacherId == userId
    ensures RoleOfId(st.users, userId) == Some(Student) ==>
              forall a :: a in r <==> a in st.assignments && userId in a.studentIds
    ensures RoleOfId(st.users, userId) != Some(Teacher) && RoleOfId(st.users, userId) != Some(Student) ==>
              r == st.assignments
  {
    var role := RoleOfId(st.users, userId);
    if role == Some(Teacher) then
      Filter(st.assignments, (a: Assignment) => a.teacherId == userId)
    else if role == Some(Student) then
      Filter(st.assignments, (a: Assignment) => userId in a.studentIds)
    else SubsequenceOfSelf(st.assignments); st.assignments
  }

  /** `fetchUserBadges(userId)`: the badges awarded to that user. */
  function FetchUserBadges(st: Store, userId: string): (r: seq<UserBadge>)
    ensures SubsequenceOf(r, st.userBadges)
    ensures forall b :: b in r <==> b in st.userBadges && b.userId == userId
  {
    Filter(st.userBadges, (b: UserBadge) => b.userId == userId)
  }

  /** `fetchStudentProgress(studentId)`: that student's progress records. */
  function FetchStudentProgress(st: Store, studentId: string): (r: seq<StudentProgress>)
    ensures SubsequenceOf(r, st.progress)
    ensures forall p :: p in r <==> p in st.progress && p.studentId == studentId
  {
    Filter(st.progress, (p: StudentProgress) => p.studentId == studentId)
  }

  /** The role of the user at index `k`, the first with that id. */
  lemma RoleOfIdAt(users: seq<User>, id: string, k: nat)
    requires k < |users| && users[k].id == id
    requires forall j :: 0 <= j < k ==> users[j].id != id
    ensures RoleOfId(users, id) == Some(users[k].role)
  {
    FirstIndexAt(users, (u: User) => u.id == id, k);
  }

  /** Student "4" is assigned both fixture assignments. */
  lemma FixtureStudentFour(st: Store)
    requires st.users == MockUsers && st.assignments == MockAssignments
    ensures FetchAssignments(st, "4") == MockAssignments
  {
    RoleOfIdAt(MockUsers, "4", 3);
    FilterFour();
  }

  lemma FilterFour()
    ensures Filter(MockAssignments, (a: Assignment) => "4" in a.studentIds) == MockAssignments
  {
    var a0, a1 := MockAssignments[0], MockAssignments[1];
    var p := (a: Assignment) => "4" in a.studentIds;
    assert MockAssignments == [a0, a1];
    assert Filter([a0, a1], p) == [a0] + Filter([a1], p);
    assert Filter([a1], p) == [a1] + Filter([], p);
  }

  /** Student "7" is assigned only the first fixture assignment. */
  lemma FixtureStudentSeven(st: Store)
    requires st.users == MockUsers && st.assignments == MockAssignments
    ensures FetchAssignments(st, "7") == [MockAssignments[0]]
  {
    RoleOfIdAt(MockUsers, "7", 6);
    FilterSeven();
  }

  lemma FilterSeven()
    ensures Filter(MockAssignments, (a: Assignment) => "7" in a.studentIds) == [MockAssignments[0]]
  {
    var a0, a1 := MockAssignments[0], MockAssignments[1];
    var p := (a: Assignment) => "7" in a.studentIds;
    assert MockAssignments == [a0, a1];
    assert Filter([a0, a1], p) == [a0] + Filter([a1], p);
    assert Filter([a1], p) == Filter([], p);
  }

  /** Teacher "6" set only the second fixture assignment. */
  lemma FixtureTeacherSix(st: Store)
    requires st.users == MockUsers && st.assignments == MockAssignments
    ensures FetchAssignments(st, "6") == [MockAssignments[1]]
  {
    RoleOfIdAt(MockUsers, "6", 5);
    FilterSix();
  }

  lemma FilterSix()
    ensures Filter(MockAssignments, (a: Assignment) => a.teacherId == "6") == [MockAssignments[1]]
  {
    var a0, a1 := MockAssignments[0], MockAssignments[1];
    var p := (a: Assignment) => a.teacherId == "6";
    assert MockAssignments == [a0, a1];
    assert Filter([a0, a1], p) == Filter([a1], p);
    assert Filter([a1], p) == [a1] + Filter([], p);
  }

  /** An id that names no user receives every assignment. */
  lemma FixtureUnknownId(st: Store)
    requires st.users == MockUsers
    ensures FetchAssignments(st, "99") == st.assignments
  {
    assert forall i :: 0 <= i < |MockUsers| ==> MockUsers[i].id != "99";
  }

  /** One request to the data context. */
  datatype Fetch =
    | Schools
    | Subjects
    | Badges
    | AllUsers
    | UsersWithRole(role: Role)
    | AllContent
    | AssignmentsOf(userId: string)
    | BadgesOf(userId: string)
    | ProgressOf(studentId: string)

  /** The fixed student whose records a parent is shown. */
  const ParentChildId: string := "4"

  /** The requests the data context issues when `user` signs in, in source
      order. Nobody signed in issues nothing. */
  function InitialFetches(user: Option<User>): seq<Fetch> {
    if user.None? then []
    else
      var u := user.value;
      [Schools, Subjects, Badges]
      + (if u.role == SuperAdmin || u.role == SchoolAdmin then [AllUsers] else [])
      + (if u.role == Teacher || u.role == SchoolAdmin then [AllContent] else [])
      + (if u.role == Teacher then [AssignmentsOf(u.id)] else [])
      + (if u.role == Student then [AssignmentsOf(u.id), BadgesOf(u.id), ProgressOf(u.id)] else [])
      + (if u.role == Parent then [AssignmentsOf(ParentChildId), BadgesOf(ParentChildId), ProgressOf(ParentChildId)] else [])
  }

  /** The state after one request completes: it replaces exactly one
      collection of the context. */
  function Apply(src: Store, st: Store, f: Fetch): Store {
    match f
    case Schools => st.(schools := src.schools)
    case Subjects => st.(subjects := src.subjects)
    case Badges => st.(badges := src.badges)
    case AllUsers => st.(users := FetchUsers(src, None))
    case UsersWithRole(r) => st.(users := FetchUsers(src, Some(r)))
    case AllContent => st.(content := FetchLearningContent(src, None))
    case AssignmentsOf(id) => st.(assignments := FetchAssignments(src, id))
    case BadgesOf(id) => st.(userBadges := FetchUserBadges(src, id))
    case ProgressOf(id) => st.(progress := FetchStudentProgress(src, id))
  }

  /** The state after every request of `fs` has completed, in order. */
  function ApplyAll(src: Store, st: Store, fs: seq<Fetch>): Store
    decreases |fs|
  {
    if |fs| == 0 then st else ApplyAll(src, Apply(src, st, fs[0]), fs[1..])
  }

  /** The collection a request replaces. */
  function Target(f: Fetch): nat {
    match f
    case Schools => 0
    case Subjects => 1
    case Badges => 2
    case AllUsers => 3
    case UsersWithRole(_) => 3
    case AllContent => 4
    case AssignmentsOf(_) => 5
    case BadgesOf(_) => 6
    case ProgressOf(_) => 7
  }

  /** Two requests that replace different collections commute. */
  lemma ApplyCommutes(src: Store, st: Store, f: Fetch, g: Fetch)
    requires Target(f) != Target(g)
    ensures Apply(src, Apply(src, st, f), g) == Apply(src, Apply(src, st, g), f)
  {
  }

  /** The requests a signed-in user's initial load issues, per role. */
  lemma InitialFetchesByRole(u: User)
    ensures u.role == SuperAdmin ==> InitialFetches(Some(u)) == [Schools, Subjects, Badges, AllUsers]
    ensures u.role == SchoolAdmin ==> InitialFetches(Some(u)) == [Schools, Subjects, Badges, AllUsers, AllContent]
    ensures u.role == Teacher ==>
              InitialFetches(Some(u)) == [Schools, Subjects, Badges, AllContent, AssignmentsOf(u.id)]
    ensures u.role == Student ==>
              InitialFetches(Some(u)) == [Schools, Subjects, Badges, AssignmentsOf(u.id), BadgesOf(u.id), ProgressOf(u.id)]
    ensures u.role == Parent ==>
              InitialFetches(Some(u)) == [Schools, Subjects, Badges, AssignmentsOf(ParentChildId),
                                          BadgesOf(ParentChildId), ProgressOf(ParentChildId)]
  {
  }

  /** The initial load of a signed-in user: every role loads schools,
      subjects and badges; only the admin roles load users; only teachers
      and school admins load content; admins load no assignments; a parent
      loads the records of the fixed student "4", whatever the parent's own
      id. No two requests replace the same collection, so the order in which
      they complete is immaterial. */
  lemma InitialLoad(u: User)
    ensures var fs := InitialFetches(Some(u));
            && Schools in fs && Subjects in fs && Badges in fs
            && (AllUsers in fs <==> u.role == SuperAdmin || u.role == SchoolAdmin)
            && (AllContent in fs <==> u.role == Teacher || u.role == SchoolAdmin)
            && (u.role == Parent ==> AssignmentsOf(ParentChildId) in fs && BadgesOf(ParentChildId) in fs
                                     && ProgressOf(ParentChildId) in fs)
            && (u.role == SuperAdmin || u.role == SchoolAdmin ==> forall f :: f in fs ==> !f.AssignmentsOf?)
            && DistinctTargets(fs)
  {
    InitialFetchesByRole(u);
    LoadContents(u);
    LoadDistinct(u);
  }

  /** Which requests each role's initial load contains. */
  lemma LoadContents(u: User)
    ensures var fs := InitialFetches(Some(u));
            && Schools in fs && Subjects in fs && Badges in fs
            && (AllUsers in fs <==> u.role == SuperAdmin || u.role == SchoolAdmin)
            && (AllContent in fs <==> u.role == Teacher || u.role == SchoolAdmin)
            && (u.role == Parent ==> AssignmentsOf(ParentChildId) in fs && BadgesOf(ParentChildId) in fs
                                     && ProgressOf(ParentChildId) in fs)
            && (u.role == SuperAdmin || u.role == SchoolAdmin ==> forall f :: f in fs ==> !f.AssignmentsOf?)
  {
    InitialFetchesByRole(u);
    match u.role
    case SuperAdmin => AdminLoads([Schools, Subjects, Badges, AllUsers], false);
    case SchoolAdmin => AdminLoads([Schools, Subjects, Badges, AllUsers, AllContent], true);
    case Teacher => OtherLoads([Schools, Subjects, Badges, AllContent, AssignmentsOf(u.id)], true);
    case Student =>
      OtherLoads([Schools, Subjects, Badges, AssignmentsOf(u.id), BadgesOf(u.id), ProgressOf(u.id)], false);
    case Parent =>
      OtherLoads([Schools, Subjects, Badges, AssignmentsOf(ParentChildId),
                  BadgesOf(ParentChildId), ProgressOf(ParentChildId)], false);
  }

  /** The shape of an admin's load: the three shared requests, users,
      content or not, and no assignments. */
  lemma AdminLoads(fs: seq<Fetch>, content: bool)
    requires fs == [Schools, Subjects, Badges, AllUsers] + (if content then [AllContent] else [])
    ensures Schools in fs && Subjects in fs && Badges in fs && AllUsers in fs
    ensures AllContent in fs <==> content
    ensures forall f :: f in fs ==> !f.AssignmentsOf?
  {
    assert fs[0] == Schools && fs[1] == Subjects && fs[2] == Badges && fs[3] == AllUsers;
    assert content ==> fs[4] == AllContent;
  }

  /** The shape of any other role's load: the three shared requests, no
      users, content or not. */
  lemma OtherLoads(fs: seq<Fetch>, content: bool)
    requires |fs| > 4 && fs[0] == Schools && fs[1] == Subjects && fs[2] == Badges
    requires content ==> fs[3] == AllContent
    requires forall i :: 3 + (if content then 1 else 0) <= i < |fs| ==> fs[i].AssignmentsOf? || fs[i].BadgesOf? || fs[i].ProgressOf?
    ensures Schools in fs && Subjects in fs && Badges in fs && AllUsers !in fs
    ensures AllContent in fs <==> content
  {
  }

  /** No role's initial load issues two requests for one collection. */
  lemma LoadDistinct(u: User)
    ensures DistinctTargets(InitialFetches(Some(u)))
  {
    InitialFetchesByRole(u);
    var fs := InitialFetches(Some(u));
    assert Target(fs[0]) == 0 && Target(fs[1]) == 1 && Target(fs[2]) == 2;
    match u.role
    case SuperAdmin => assert Target(fs[3]) == 3;
    case SchoolAdmin => assert Target(fs[3]) == 3 && Target(fs[4]) == 4;
    case Teacher => assert Target(fs[3]) == 4 && Target(fs[4]) == 5;
    case Student => assert Target(fs[3]) == 5 && Target(fs[4]) == 6 && Target(fs[5]) == 7;
    case Parent => assert Target(fs[3]) == 5 && Target(fs[4]) == 6 && Target(fs[5]) == 7;
  }

  /** No two requests of `fs` replace the same collection. */
  predicate DistinctTargets(fs: seq<Fetch>) {
    forall i, j :: 0 <= i < j < |fs| ==> Target(fs[i]) != Target(fs[j])
  }

  /** What a parent's initial load leaves in the context: the assignments,
      badges and progress of student "4", and no users or content. */
  lemma ParentLoad(src: Store, u: User)
    requires u.role == Parent
    ensures var st := ApplyAll(src, Empty, InitialFetches(Some(u)));
            && st.assignments == FetchAssignments(src, ParentChildId)
            && st.userBadges == FetchUserBadges(src, ParentChildId)
            && st.progress == FetchStudentProgress(src, ParentChildId)
            && st.users == [] && st.content == []
  {
    InitialFetchesByRole(u);
    ParentRequests(src);
  }

  /** The parent's six requests, completed in order from the empty state. */
  lemma ParentRequests(src: Store)
    ensures var st := ApplyAll(src, Empty, [Schools, Subjects, Badges, AssignmentsOf(ParentChildId),
                                            BadgesOf(ParentChildId), ProgressOf(ParentChildId)]);
            && st.assignments == FetchAssignments(src, ParentChildId)
            && st.userBadges == FetchUserBadges(src, ParentChildId)
            && st.progress == FetchStudentProgress(src, ParentChildId)
            && st.users == [] && st.content == []
  {
    var fs := [Schools, Subjects, Badges, AssignmentsOf(ParentChildId),
               BadgesOf(ParentChildId), ProgressOf(ParentChildId)];
    var s1 := Apply(src, Empty, Schools);
    var s2 := Apply(src, s1, Subjects);
    var s3 := Apply(src, s2, Badges);
    var s4 := Apply(src, s3, AssignmentsOf(ParentChildId));
    var s5 := Apply(src, s4, BadgesOf(ParentChildId));
    var s6 := Apply(src, s5, ProgressOf(ParentChildId));
    assert ApplyAll(src, s6, fs[6..]) == s6;
    assert ApplyAll(src, s5, fs[5..]) == s6;
    assert ApplyAll(src, s4, fs[4..]) == s6;
    assert ApplyAll(src, s3, fs[3..]) == s6;
    assert ApplyAll(src, s2, fs[2..]) == s6;
    assert ApplyAll(src, s1, fs[1..]) == s6;
  }
}
