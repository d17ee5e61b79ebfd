/** The authentication context: a fixed directory of five demo users, a
    login that accepts any directory e-mail with the shared demo password,
    logout, and the start-up step that restores the user saved by an earlier
    login. Browser storage is a single optional slot holding a user. */
module Auth {
  import opened Common
  import opened Types

  /** The demo directory the login searches, in its declared order. */
  const Directory: seq<User> := [
    User("1", "Super Admin", "admin@brightspark.com", SuperAdmin,
         Some("/assets/avatars/super-admin.png"), None),
    User("2", "School Admin", "school@brightspark.com", SchoolAdmin,
         Some("/assets/avatars/school-admin.png"), Some("1")),
    User("3", "Teacher", "teacher@brightspark.com", Teacher,
         Some("/assets/avatars/teacher.png"), Some("1")),
    User("4", "Student", "student@brightspark.com", Student,
         Some("/assets/avatars/student.png"), Some("1")),
    User("5", "Parent", "parent@brightspark.com", Parent,
         Some("/assets/avatars/parent.png"), Some("1"))
  ]

  /** The one password every demo account accepts. */
  const DemoPassword: string := "password"

  const LoginFailedMessage: string := "Invalid email or password"

  /** The context's state: the current user, the persisted slot, the
      loading flag and the last error. */
  datatype Session = Session(
    user: Option<User>,
    stored: Option<User>,
    isLoading: bool,
    error: Option<string>)

  /** Where the application navigates after a session change. */
  datatype Redirect = NoRedirect | GoTo(path: string)

  /** The state before the start-up effect runs: nobody is signed in and
      the context is loading. */
  function Initial(stored: Option<User>): Session {
    Session(None, stored, true, None)
  }

  /** The start-up effect: adopt the persisted user, if there is one, then
      stop loading. An empty slot leaves the user as it was, which at
      mount is nobody. */
  function Rehydrate(s: Session): (r: Session)
    ensures s.stored.Some? ==> r.user == s.stored
    ensures s.stored.None? ==> r.user == s.user
    ensures r.stored == s.stored && !r.isLoading && r.error == s.error
  {
    if s.stored.Some? then s.(user := s.stored, isLoading := false)
    else s.(isLoading := false)
  }

  /** At mount nobody is signed in, so start-up restores exactly the
      saved user, or nobody. */
  lemma RehydrateAtMount(stored: Option<User>)
    ensures Rehydrate(Initial(stored)).user == stored
  {
  }

  /** The first directory entry whose e-mail is exactly `email`. */
  function FindByEmail(dir: seq<User>, email: string): (r: Option<User>)
    ensures r.None? <==> forall i :: 0 <= i < |dir| ==> dir[i].email != email
    ensures r.Some? ==> r.value in dir && r.value.email == email
    ensures r.Some? ==> exists k :: 0 <= k < |dir| && dir[k] == r.value
                                    && forall j :: 0 <= j < k ==> dir[j].email != email
  {
    Find(dir, (u: User) => u.email == email)
  }

  /** A login attempt against `dir`: the error is cleared first; on a known
      e-mail with the demo password the user is signed in and persisted and
      the application goes to the dashboard; otherwise the error message is
      set and user and slot are untouched. Loading always ends. */
  function LoginWith(dir: seq<User>, s: Session, email: string, password: string): (r: (Session, Redirect))
    ensures !r.0.isLoading
    ensures r.0.user.Some? && r.0.user != s.user ==> password == DemoPassword
    ensures (exists i :: 0 <= i < |dir| && dir[i].email == email) && password == DemoPassword
            <==> r.1 == GoTo("/dashboard")
    ensures r.1 == GoTo("/dashboard") ==>
              r.0.user == FindByEmail(dir, email) && r.0.stored == r.0.user && r.0.error.None?
    ensures r.1 == NoRedirect ==>
              r.0.error == Some(LoginFailedMessage) && r.0.user == s.user && r.0.stored == s.stored
  {
    var cleared := s.(isLoading := true, error := None);
    var found := FindByEmail(dir, email);
    if found.Some? && password == DemoPassword then
      (cleared.(user := found, stored := found, isLoading := false), GoTo("/dashboard"))
    else
      (cleared.(error := Some(LoginFailedMessage), isLoading := false), NoRedirect)
  }

  const LoginErrorMessage: string := "An error occurred during login"

  /** A login attempt whose storage write may fail (`localStorage.setItem`
      throws when storage is full or disabled). The write comes after the
      user is set, so a failed write leaves the user signed in but not
      persisted, sets the generic error and skips the navigation. With a
      working store this is `LoginWith`. */
  function LoginWithStorage(dir: seq<User>, s: Session, email: string, password: string,
                            writable: bool): (r: (Session, Redirect))
    ensures !r.0.isLoading
    ensures writable ==> r == LoginWith(dir, s, email, password)
    ensures !writable && FindByEmail(dir, email).Some? && password == DemoPassword ==>
              r.0.user == FindByEmail(dir, email) && r.0.stored == s.stored
              && r.0.error == Some(LoginErrorMessage) && r.1 == NoRedirect
    ensures !(FindByEmail(dir, email).Some? && password == DemoPassword) ==>
              r == LoginWith(dir, s, email, password)
  {
    var found := FindByEmail(dir, email);
    if !writable && found.Some? && password == DemoPassword then
      (s.(user := found, isLoading := false, error := Some(LoginErrorMessage)), NoRedirect)
    else LoginWith(dir, s, email, password)
  }

  /** A login whose storage write failed does not survive a reload: the
      user is signed in now, but a reload restores whatever the slot held
      before. */
  lemma FailedWriteNotPersisted(s: Session, email: string, password: string)
    ensures var (a, _) := LoginWithStorage(Directory, s, email, password, false);
            Rehydrate(Initial(a.stored)).user == s.stored
  {
  }

  /** `login(email, password)` against the demo directory. */
  function Login(s: Session, email: string, password: string): (Session, Redirect) {
    LoginWith(Directory, s, email, password)
  }

  /** `logout()`: forget the user, clear the slot, go to the login page. */
  function Logout(s: Session): (r: (Session, Redirect))
    ensures r.0.user.None? && r.0.stored.None?
    ensures r.0.isLoading == s.isLoading && r.0.error == s.error
    ensures r.1 == GoTo("/login")
  {
    (s.(user := None, stored := None), GoTo("/login"))
  }

  /** Logging out twice is the same as logging out once. */
  lemma LogoutIdempotent(s: Session)
    ensures Logout(Logout(s).0) == Logout(s)
  {
  }

  /** A successful login is undone by logout, apart from the error and
      loading flags; a reload afterwards signs nobody in. */
  lemma LoginThenLogout(s: Session, email: string)
    ensures var (a, _) := Login(s, email, DemoPassword);
            var (b, _) := Logout(a);
            Rehydrate(b).user.None?
  {
  }

  /** A successful login survives a reload: the restored user is the one
      who logged in. */
  lemma LoginSurvivesReload(s: Session, email: string, password: string)
    ensures var (a, redirect) := Login(s, email, password);
            redirect == GoTo("/dashboard") ==> Rehydrate(Initial(a.stored)).user == a.user
  {
  }

  /** Every directory account logs in with the demo password. */
  lemma {:induction false} DirectoryAccountsLogIn(s: Session, i: nat)
    requires i < |Directory|
    ensures var (a, _) := Login(s, Directory[i].email, DemoPassword);
            a.user.Some? && a.user.value.email == Directory[i].email
  {
    assert Directory[i] in Directory;
  }

  /** The login page advertises "super_admin@brightspark.com", but the
      directory's super admin is "admin@brightspark.com": the advertised
      address is refused even with the right password. */
  lemma AdvertisedSuperAdminLoginFails(s: Session)
    ensures var (a, redirect) := Login(s, "super_admin@brightspark.com", DemoPassword);
            redirect == NoRedirect && a.error == Some(LoginFailedMessage) && a.user == s.user
  {
    AdvertisedAddressUnknown();
  }

  /** No directory entry has the advertised super-admin address. */
  lemma AdvertisedAddressUnknown()
    ensures FindByEmail(Directory, "super_admin@brightspark.com").None?
  {
    forall i | 0 <= i < |Directory|
      ensures Directory[i].email != "super_admin@brightspark.com"
    {
      assert |Directory[i].email| <= 23;
    }
  }
}
