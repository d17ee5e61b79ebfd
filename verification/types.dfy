/** The records of the learning platform: users and their roles, schools
    with subscription plans, subjects, learning content, student progress,
    assignments and badges. JavaScript's optional fields are `Option`s;
    string-valued enumerations are datatypes with a name and a parser. */
module Types {
  import opened Common
  import opened Text

  /** The five user roles; no other role exists. */
  datatype Role = SuperAdmin | SchoolAdmin | Teacher | Student | Parent

  const AllRoles: seq<Role> := [SuperAdmin, SchoolAdmin, Teacher, Student, Parent]

  /** The role as the string the application stores. */
  function RoleName(r: Role): string {
    match r
    case SuperAdmin => "super_admin"
    case SchoolAdmin => "school_admin"
    case Teacher => "teacher"
    case Student => "student"
    case Parent => "parent"
  }

  /** The role a stored string names, if any. */
  function ParseRole(s: string): (r: Option<Role>)
    ensures r.Some? ==> RoleName(r.value) == s
  {
    if s == "super_admin" then Some(SuperAdmin)
    else if s == "school_admin" then Some(SchoolAdmin)
    else if s == "teacher" then Some(Teacher)
    else if s == "student" then Some(Student)
    else if s == "parent" then Some(Parent)
    else None
  }

  /** The role set is closed: exactly five distinct roles, each with a
      distinct name that parses back to it. */
  lemma RolesClosed(r: Role)
    ensures r in AllRoles
    ensures |AllRoles| == 5 && NoDuplicates(AllRoles)
    ensures ParseRole(RoleName(r)) == Some(r)
    ensures forall q: Role :: RoleName(q) == RoleName(r) ==> q == r
  {
  }

  /** A user; `avatar` and `schoolId` may be missing. */
  datatype User = User(
    id: string,
    name: string,
    email: string,
    role: Role,
    avatar: Option<string>,
    schoolId: Option<string>)

  /** What a login form submits. */
  datatype Credentials = Credentials(email: string, password: string)

  datatype SubscriptionStatus = Active | Trial | Expired

  function StatusName(s: SubscriptionStatus): string {
    match s
    case Active => "active"
    case Trial => "trial"
    case Expired => "expired"
  }

  function ParseStatus(s: string): (r: Option<SubscriptionStatus>)
    ensures r.Some? ==> StatusName(r.value) == s
  {
    if s == "active" then Some(Active)
    else if s == "trial" then Some(Trial)
    else if s == "expired" then Some(Expired)
    else None
  }

  lemma StatusNames(s: SubscriptionStatus)
    ensures ParseStatus(StatusName(s)) == Some(s)
    ensures StatusName(s) != ""
  {
  }

  datatype SubscriptionPlan = SubscriptionPlan(
    id: string,
    name: string,
    price: int,
    maxStudents: int,
    maxTeachers: int,
    features: seq<string>)

  /** A school; `trialEndsAt` may be missing. */
  datatype School = School(
    id: string,
    name: string,
    address: string,
    plan: SubscriptionPlan,
    status: SubscriptionStatus,
    trialEndsAt: Option<string>,
    studentsCount: int,
    teachersCount: int)

  datatype Subject = Subject(
    id: string,
    name: string,
    icon: string,
    color: string,
    keyStages: seq<string>)

  datatype ContentType = Video | TextContent | Quiz | Activity

  function ContentTypeName(t: ContentType): string {
    match t
    case Video => "video"
    case TextContent => "text"
    case Quiz => "quiz"
    case Activity => "activity"
  }

  function ParseContentType(s: string): (r: Option<ContentType>)
    ensures r.Some? ==> ContentTypeName(r.value) == s
  {
    if s == "video" then Some(Video)
    else if s == "text" then Some(TextContent)
    else if s == "quiz" then Some(Quiz)
    else if s == "activity" then Some(Activity)
    else None
  }

  lemma ContentTypeNames(t: ContentType)
    ensures ParseContentType(ContentTypeName(t)) == Some(t)
    ensures ContentTypeName(t) != ""
  {
  }

  /** A learning-content item; `contentUrl` and `thumbnailUrl` may be missing. */
  datatype LearningContent = LearningContent(
    id: string,
    title: string,
    description: string,
    subjectId: string,
    keyStage: string,
    contentType: ContentType,
    contentUrl: Option<string>,
    thumbnailUrl: Option<string>,
    createdBy: string,
    createdAt: string,
    updatedAt: string)

  /** One student's progress on one content item; `score` and
      `completedAt` may be missing, `progress` and `attempts` may not. */
  datatype StudentProgress = StudentProgress(
    id: string,
    studentId: string,
    contentId: string,
    progress: int,
    score: Option<int>,
    completedAt: Option<string>,
    attempts: int)

  /** An assignment. `dueDate` is the due date as milliseconds since the
      epoch (the value `new Date(dueDate).getTime()` yields); `classId`
      may be missing. */
  datatype Assignment = Assignment(
    id: string,
    title: string,
    description: string,
    dueDate: int,
    subjectId: string,
    teacherId: string,
    classId: Option<string>,
    studentIds: seq<string>,
    contentIds: seq<string>,
    createdAt: string)

  datatype Badge = Badge(
    id: string,
    name: string,
    description: string,
    imageUrl: string,
    criteria: string)

  datatype UserBadge = UserBadge(
    id: string,
    userId: string,
    badgeId: string,
    awardedAt: string)

  /** The signed-in user as pages see it (`user` may be null). */
  type Viewer = Option<User>

  /** `user?.role === r`. */
  predicate HasRole(v: Viewer, r: Role) {
    v.Some? && v.value.role == r
  }

  /** `user?.schoolId` is a non-empty string. */
  predicate HasSchool(v: Viewer) {
    v.Some? && v.value.schoolId.Some? && v.value.schoolId.value != ""
  }

  /** `user?.role || ""`: the viewer's role name, or "" when nobody is
      signed in. */
  function ViewerRole(v: Viewer): (r: string)
    ensures r == "" <==> v.None?
  {
    if v.Some? then RoleName(v.value.role) else ""
  }

  /** `[...names].includes(user?.role || "")`, the role gate most pages use. */
  predicate Admits(names: seq<string>, v: Viewer) {
    ViewerRole(v) in names
  }

  /** A gate listing only role names admits exactly the signed-in viewers
      whose role it lists; nobody signed in is never admitted. */
  lemma AdmitsExactly(names: seq<string>, v: Viewer)
    requires "" !in names
    ensures Admits(names, v) <==> v.Some? && RoleName(v.value.role) in names
  {
  }

  /** `role.replace("_", " ")`, the label shown for a role. */
  function RoleLabel(role: string): (r: string)
    ensures |r| == |role|
  {
    ReplaceFirst(role, '_', ' ')
  }

  /** The labels of the five roles: the two admin roles lose their
      underscore, the others have none. */
  lemma RoleLabels(r: Role)
    ensures r == SuperAdmin ==> RoleLabel(RoleName(r)) == "super admin"
    ensures r == SchoolAdmin ==> RoleLabel(RoleName(r)) == "school admin"
    ensures r != SuperAdmin && r != SchoolAdmin ==> RoleLabel(RoleName(r)) == RoleName(r)
  {
    if r == SuperAdmin {
      SuperAdminLabel();
    } else if r == SchoolAdmin {
      SchoolAdminLabel();
    } else {
      assert '_' !in RoleName(r);
    }
  }

  lemma SuperAdminLabel()
    ensures RoleLabel("super_admin") == "super admin"
  {
    LabelOf("super", "admin", "super_admin", "super admin");
  }

  lemma SchoolAdminLabel()
    ensures RoleLabel("school_admin") == "school admin"
  {
    LabelOf("school", "admin", "school_admin", "school admin");
  }

  /** The label of a name with one underscore, between `x` and `y`. */
  lemma LabelOf(x: string, y: string, n: string, l: string)
    requires '_' !in x && n == x + ['_'] + y && l == x + [' '] + y
    ensures RoleLabel(n) == l
  {
    ReplaceFirstSplit(x, y, '_', ' ');
  }
}
